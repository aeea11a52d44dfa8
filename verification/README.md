# The arithmetic and the protocol of a DATUM pool, proved

`primed` is the pool side of the DATUM mining protocol. It keeps a sliding window of
credited work, turns the window into coinbase outputs, tells gateways to pay them, checks
every share and coinbase that comes back, and credits each share once. This project models
that logic in Dafny and proves what the program and its documentation promise of it.

Verify everything with `dafny verify dfyconfig.toml`.

## What is modelled

Code that changes things in place is modelled as methods and classes, each tied by its
postcondition to functions on values; the properties are lemmas about those functions.

| files | what they are |
|---|---|
| `Prelude`, `Bits`, `LittleEndian`, `Ranking` | machine integers and sums, bitwise operators, little-endian numbers and records, the (work, identity) order and its sort |
| `Split`, `SplitEngine`, `SplitLaws`, `CappedLaws`, `SplitFields` | the payout split: what it is, the accumulator loop that computes it, conservation and rounding, the capped mode, and what it is in terms of rows, rates and scripts |
| `Auditor`, `AuditorProgram`, `AuditorRefinement`, `AuditorAgreement`, `AuditorTheorem` | the public auditor that recomputes a split from a published snapshot, and when it agrees |
| `CarryLedger`, `Custody` | the carry balance, settled once per block, and who holds which sat over a run of blocks |
| `WindowRows`, `ShareWindow`, `WindowListing` | the trimmed window, its redundant totals map, and the ranked listing |
| `LedgerBook`, `Ledger` | the append-only log, flush, compaction and replay |
| `Merkle`, `Target` | coinbase branches, and 256-bit target arithmetic on bytes |
| `Outputs`, `CoinbasePolicy`, `CoinbasePolicyLaws`, `HonestGateway`, `Coinbaser` | where a coinbase sends the reward, the list it is held against, and that list on the wire |
| `Wire`, `CoinbaseTx`, `CoinbaseBuild`, `CoinbaseWitness`, `Share`, `PowMessage`, `Frame`, `FrameReader`, `KeyMixing` | the shared reader, coinbase transactions, share messages, frames cut from a byte stream, and the mixer behind their keys |
| `JobSlotModel`, `JobSlotRefinement`, `JobSlots`, `ShareFields`, `SessionBudget`, `SeenShares` | share verification through caches, what becomes of a share in terms of its fields, a session's memory budget, and the record of credited shares |

Assumed of the callers, as `requires`: basis points are at most 10000, identities are
unique, total work is the sum of the rows (the window model proves this one), `value *
total_work * 10000` fits 128 bits, and u64 totals of work and sats do not saturate.

Hashes, address decoding and the header-key mixer used by the reader are arbitrary
functions. Clocks, sockets and files become parameters and fields.

## What the code does that its documentation does not say

Each of these is a lemma. Where a promise fails, the lemma beside it gives the condition
under which it holds.

* The auditor disagrees with the pool when a capped split has rounding dust and several
  payees share the largest amount (the pool gives it to the last, the auditor to the
  first), and when somebody on the list earned nothing, possible only with a minimum payout
  of zero. Without carry these are the only ways (`AuditExact`), and both happen
  (`TiedDustFails`, `WholeFeeFails`). With carry the first condition is exact as long as
  nobody on the list earned nothing (`AuditVerdict`).
* The cap can pay a kept identity less than the uncapped split would: exactly when its work's
  part of what the fee leaves does not cover it (`KeptNotWorseIff`), never when it is
  charged at least the window's average rate (`KeptNotWorse`), and it does happen
  (`MixedRatesCanPayLess`).
* A block worth less than its split assumed, rescaled in proportion, leaves an identity with
  less than it came with and earned exactly when its issued amount is scaled: carry is
  settled in full although it was paid in part (`RescaledClaims`, `CarryIsLost`). Payees a
  partial coinbase dropped are recorded whole. The custody law has a term for the shift.
* Raising the window target without persisting makes a restart load a different window
  exactly when the log holds more rows than memory, but not so many that the flush rewrites
  it, and the window's work is below the new target (`UnpersistedRaiseReplays`,
  `RaiseBringsRowBack`).
* Block records are not deduplicated: carry is applied once exactly when no open record of a
  block has a newer record of the same block behind it (`AppliedOnce`), and again on every
  call otherwise (`AppliedAgain`).
* The commitment cache of a job slot is not keyed by the wire time or the time-offset flag.
  The same work sent again under another time is accepted with the same hash and a
  commitment the miner never hashed (`StaleCommitment`); cached and cache-free answers to
  two such shares agree under every choice of hashes exactly when time and flags do
  (`TwoSharesAgree`).
* Every pool-only coinbase pays the pool exactly when the issued list holds no snapshot
  commitment (`PoolOnlyPaysIff`): with one missing, a coinbase that burns everything passes.
  Then the pool's own listed output counts as a paid one (`PoolCountsAsPaid`).
* A compact target of exponent 33 or 34 with a small mantissa fits in 256 bits but is
  refused (`NbitsRefusedThoughFits`); the branch that looks for bytes out of range behind
  the exponent check never fires.
* The difficulty of a hash and the share target disagree at power zero: every hash has the
  difficulty, only those below 2^224 meet the target (`PotMeetsTarget`).
* The issued list reaches the gateway exactly when commitment, payees and the pool's entry
  are at most 512 (`ListReachesGateway`). With the pool's limits 513 are possible for
  scripts of up to 18 bytes, and then the pool's entry is cut off (`CrowdIsCutOff`); longer
  scripts run into the byte budget first (`LongScriptsReachGateway`).
* An issued list of value zero with nothing in it gets one sat for the pool, so it does not
  sum to its value (`ListSumsToValue`).
* A credited share is credited again exactly when the pool forgot its height, by a restart
  or by housekeeping, and the stale check lets it through (`CreditedAgainIff`): after any
  restart (`RestartForgets`), and after any fall of the tip by three or more below a height
  at which housekeeping ran (`DeeperFallForgets`).

## Model

| member | source | states |
|---|---|---|
| Split.LastMax | tides/src/split.rs:190-192 | the dust of a capped split goes to the last of the equally largest payees |
| Split.FindPayee | tides/src/split.rs:210-212 | carry raises the first output with the identity's name, and none is missed |
| SplitEngine.ComputeWithCarry | tides/src/split.rs:123-233 | the program's accumulators, in-place edits and early exits give exactly the specified split, every product fitting 128 bits and no amount saturating |
| SplitEngine.PayWindow | tides/src/split.rs:139-169 | the window loop places, pays and charges each miner as specified, fee and fee numerator included |
| SplitEngine.CutToLargest | tides/src/split.rs:173-194 | re-ranking, cutting and re-sharing in place give the specified shares, with the dust on the last largest |
| SplitEngine.PayCarry | tides/src/split.rs:199-228 | the carry loop serves identities by name until the room is used, stopping early without changing the result |
| SplitLaws.RoundingLoss | tides/src/split.rs:145-151 | over any window, what the two floors per miner leave unassigned is non-negative and less than twice the number of miners |
| SplitLaws.ClassicAccounts | tides/src/split.rs:139-169 | fee, unpaid and paid account for the value up to that rounding, and every miner is in exactly one list with exactly what it earned |
| SplitLaws.EveryMinerPlacedOnce | tides/src/split.rs:152-168 | payees and unpaid together hold each (identity, amount) as often as the window does |
| SplitLaws.FeeAffordable | tides/src/split.rs:175 | the exact fee of a capped split never exceeds the value |
| SplitLaws.CutPaysAllButFee | tides/src/split.rs:182-193 | after the cut the payees share everything but the fee, to the sat |
| SplitLaws.SplitConserves | tides/src/split.rs:199-232 | in every mode, with any carry, outputs sum to the value, the final subtraction never clips, and the carry paid is what the pool's output lost |
| CappedLaws.CappedSplit | tides/src/split.rs:170-194 | the payees are exactly the best-ranked eligible identities, the rest are below the cut, and the pool keeps exactly the one-floor fee |
| CappedLaws.KeptNotWorseIff | tides/src/split.rs:175-193 | exactly when a kept payee gets at least what the window pass admitted it with, dust included |
| CappedLaws.AverageRateNotWorse | tides/src/split.rs:141-146 | an identity charged at least the work-weighted average rate gets a share of what the fee leaves that covers what it earned |
| CappedLaws.KeptNotWorse | tides/src/split.rs:170-194 | so no kept identity charged at least the average rate is worse off for the cut |
| CappedLaws.OneRateNotWorse | tides/src/split.rs:170-194 | with one fee rate that is everybody |
| CappedLaws.MixedRatesCanPayLess | tides/src/split.rs:175-188 | below the average rate a kept identity can get less: two miners, any scripts, any limits that hold them |
| SplitFields.ChargedByPath | tides/src/split.rs:40-46 | stratum work is charged the stratum rate and the rest the datum rate, a zero stratum rate meaning the datum rate and an override both; stratum work beyond the whole counts as the whole |
| SplitFields.MovedOntoStratum | tides/src/split.rs:141-144 | moving work onto stratum raises a miner's fee weight by exactly that work times the difference of the rates |
| SplitFields.AmountsAreFloors | tides/src/split.rs:145-151 | what a miner earns and what it is charged are the floors of its part of the value under those weights |
| SplitFields.PlacedByFields | tides/src/split.rs:152-168 | a miner becomes a payee exactly when its amount, script, the output count and the bytes already placed allow it, and is otherwise unpaid for the first reason that applies |
| SplitFields.CutKeepsMostWork | tides/src/split.rs:170-180 | whoever the cut drops has less work than everybody kept, or as much and a later name |
| SplitFields.NamesCompared | tides/src/split.rs:176 | names are ordered at their first difference, a prefix before what it begins |
| SplitFields.CarryRaises | tides/src/split.rs:205-214 | carry goes on an identity's own first output, as much as is owed and left |
| SplitFields.CarryOpens | tides/src/split.rs:215-226 | or on a new output, if the amount is the minimum or more and the output fits |
| SplitFields.HouseRateCharged | tides/src/split.rs:141-151 | all work on stratum at 250 points leaves 975000 of a million sats |
| Ranking.SortRanked | tides/src/split.rs:176 | sorting by work, then identity gives a strictly ranked list for unique identities |
| Ranking.RankedUnique | tides/src/split.rs:176 | a ranked list is determined by its contents, so two programs that sort it agree |
| AuditorProgram.Recompute | tools/verify_wavicles_block.py:22-84 | the auditor's loops over dictionaries and lists compute exactly the specified audit |
| AuditorRefinement.ScriptSeenIffPlaced | tools/verify_wavicles_block.py:36-50 | the auditor knows the script of a payable window identity exactly when the pool placed it, so skipping unknown scripts skips the right miners |
| AuditorAgreement.WindowRestored | tools/verify_wavicles_block.py:32-37 | sorting the published identities gives the pool's window back, work and order |
| AuditorAgreement.PublishedByName | primed/src/snapshot.rs:71 | the published window is the whole window, by name |
| AuditorAgreement.CutAgrees | tools/verify_wavicles_block.py:54-64 | in capped mode, if nobody kept earned nothing, both programs keep the same payees with the same fee and shares, up to which largest payee gets the dust |
| AuditorTheorem.AuditVerdict | tools/verify_wavicles_block.py:38-84 | for every window, carry and parameters, if nobody on the list earned nothing, the audit has the pool's list, order, scripts and pool output, and is clean if and only if the dust has one possible owner |
| AuditorTheorem.ClassicSplitAudits | tools/verify_wavicles_block.py:65-84 | every classic split with a minimum payout of at least one sat is reproduced exactly |
| AuditorTheorem.AuditExact | tools/verify_wavicles_block.py:38-84 | without carry, in either mode, the audit is clean if and only if nobody on the list earned nothing and the dust has one possible owner |
| AuditorTheorem.ZeroMakesShort | tools/verify_wavicles_block.py:47 | if somebody on the list earned nothing, the auditor's list is shorter than the pool's |
| AuditorTheorem.TiedDustFails | tools/verify_wavicles_block.py:63 | two equal miners sharing dust make the owner ambiguous |
| AuditorTheorem.WholeFeeFails | tools/verify_wavicles_block.py:47 | a miner charged everything, with no minimum payout, makes the audit fail in either mode |
| CarryLedger.Carry.Add | tides/src/lib.rs:551-557 | adding to an identity changes its claim and the balance by the amount and nobody else's claim |
| CarryLedger.Carry.Settle | tides/src/lib.rs:560-567 | settling takes the amount off one claim and removes it when nothing is left |
| CarryLedger.SettledAllBalance | tides/src/lib.rs:560-567 | settling payments covered by their claims lowers the balance by exactly their sum: nothing saturates |
| CarryLedger.AddedAllBalance | tides/src/lib.rs:551-557 | recording a list of unpaid amounts raises the balance by exactly their sum |
| CarryLedger.Shared.ApplyCarryForSettled | primed/src/state.rs:296-326 | settling and recording the newest settled, uncarried record of a hash, and marking it carried |
| CarryLedger.AppliedOnce | primed/src/state.rs:302-325 | applying a block leaves nothing pending for it if and only if no open record of it has a newer one behind it, and never touches another block |
| CarryLedger.AppliedAgain | primed/src/state.rs:296-326 | a settled record with a newer unsettled one of the same block is applied again by every call |
| Custody.CarryPaidCovered | tides/src/split.rs:199-228 | a split never pays an identity more carry than it was owed, so settling it never saturates |
| Custody.RetainedIsFeeNoScriptRounding | tides/src/split.rs:146-160 | what the pool keeps of a block for good is its fee, what has no script, and rounding |
| Custody.BlockCustody | primed/src/session.rs:726-775 | receipts of one block of any value and payments, less the growth of the carry balance, are what is retained plus what rescaling shifts |
| Custody.RunCustody | primed/src/session.rs:478-484 | the custody law over any run of full, partial and pool-only blocks, of any value, each on the balance in force when it settles |
| Custody.RunCustodyExact | primed/src/state.rs:296-326 | when every block is worth and pays what was issued, receipts less carry growth equal fees, no-script amounts and rounding over any run |
| Custody.ClaimKept | primed/src/session.rs:726-775 | for each identity, paid plus owed grows by exactly what it earned, less what has no script and what is neither paid nor recorded |
| Custody.RescaledClaims | primed/src/session.rs:736-764 | on a block worth less than its split, paid in proportion, an identity ends with less if and only if its issued amount is scaled, earnings included; dropped payees lose nothing |
| Custody.CarryIsLost | primed/src/session.rs:736-764 | an empty window and one carry claim of the whole value: the identity ends with what the block was worth and the rest of its claim is gone |
| WindowRows.TrimIsShortest | tides/src/lib.rs:217-238 | trimming leaves the shortest suffix that reaches the target, or everything if none does |
| WindowRows.TrimPushTrim | tides/src/lib.rs:191-204 | trimming before a push is absorbed by trimming after it |
| WindowRows.TrimAbsorbs | tides/src/lib.rs:158-161 | trimming at a lower target absorbs trimming at a higher one, no target being the highest |
| WindowRows.TrimCoalesceTrim | tides/src/lib.rs:165-188 | the same when a credit merges into the newest row |
| WindowRows.CoalesceByFields | tides/src/lib.rs:165-188 | a credit merges exactly into a newest row of the same miner, second, height and source, and is a row of its own otherwise |
| WindowRows.WindowIsShortestSuffix | tides/src/lib.rs:165-238 | however credits arrive, coalesced or not, the incrementally kept window is the shortest suffix of the whole log reaching the target |
| ShareWindow.Window.TrimRows | tides/src/lib.rs:217-238 | dropping rows one by one keeps the totals map exact, never underflows, and ends at the specified suffix |
| ShareWindow.Window.CreditShare | tides/src/lib.rs:165-188 | a merged or appended credit keeps every total exact and the window trimmed |
| ShareWindow.Window.CreditRow | tides/src/lib.rs:191-204 | a credit as its own row, trimmed, with the identity interned once |
| ShareWindow.Window.PushRaw | tides/src/lib.rs:207-214 | replaying a row touches nothing but rows and totals, and keeps them exact |
| ShareWindow.TotalsPop | tides/src/lib.rs:228-236 | reducing an entry, or removing it with its last row, keeps the totals map exactly the sums of the remaining rows |
| WindowListing.Miners | tides/src/lib.rs:241-261 | the listing is ranked, has one entry per identity with rows, with its exact work and stratum work within it, and sums to total work |
| WindowListing.GatheredLists | tides/src/lib.rs:248-259 | walking the map in any order lists every identity with rows once |
| LedgerBook.RowsRoundTrip | tides/src/lib.rs:59-78 | reading the log back gives every row, whatever is torn at its end |
| LedgerBook.RowLayout | tides/src/lib.rs:59-66 | where each field of a 24-byte row is, and its three zeros |
| LedgerBook.CreditedByFields | tides/src/lib.rs:360-373 | a credit logs one row with the share's own time, work, height and source under its name's one number, and changes nothing else but the window and the lifetime figures |
| LedgerBook.ReopenRestores | tides/src/lib.rs:304-348 | reopening a flushed ledger gives the live window: rows, target, identity indices, lifetime figures |
| LedgerBook.LoweringKeepsSync | tides/src/lib.rs:375-380 | lowering the target keeps log and window in step without persisting |
| LedgerBook.RaisePersistedInSync | primed/src/node.rs:34-42 | any target change persisted at once keeps them in step |
| LedgerBook.UnpersistedRaise | tides/src/lib.rs:375-380 | a raise that is not persisted keeps log and window in step if and only if, before it, their row counts agree or the total work reaches the new target |
| LedgerBook.UnpersistedRaiseReplays | tides/src/lib.rs:383-403 | flushed and reopened it loads the live rows exactly then, or when the flush rewrites the log |
| LedgerBook.RaiseBringsRowBack | tides/src/lib.rs:304-348 | two logged rows, one in the window: after the raise a restart loads both |
| LedgerBook.RunKeepsSync | tides/src/lib.rs:360-444 | every run of credits, target changes, flushes and compactions keeps log and window in step |
| LedgerBook.ReplayRefinesLive | tides/src/lib.rs:304-444 | after any such run from an empty ledger, flushing and reopening gives the live window back |
| Ledger.Ledger.Open | tides/src/lib.rs:304-348 | replaying the three files builds the specified book |
| Ledger.Ledger.CreditWork | tides/src/lib.rs:360-373 | a credit appends exactly one row to window and log and queues a new identity |
| Ledger.Ledger.Flush | tides/src/lib.rs:383-403 | a flush empties the buffers, saves the meta file and compacts past the slack |
| Ledger.Ledger.PersistWindow | tides/src/lib.rs:414-420 | afterwards the log has the window's row count or is rewritten to the window |
| Ledger.Ledger.Compact | tides/src/lib.rs:423-444 | the log becomes exactly the window's rows |
| Ledger.Ledger.MoveTarget | primed/src/node.rs:34-42 | the poller's step leaves a log that replays to the window |
| Ledger.CloseAndReopen | tides/src/lib.rs:304-348 | a flushed ledger opened again has the same rows, total work, per-identity work and row counts, and identity indices |
| Merkle.MerkleRoot | wire/src/pow.rs:65-74 | the loop folds the txid through the branches |
| Merkle.MerkleBranches | wire/src/pow.rs:78-103 | the level-by-level program, its expected sibling always present, collects the specified path |
| Merkle.BranchesReachTheRoot | wire/src/pow.rs:65-103 | for every coinbase txid and every list of others, folding through the branches gives the root of the whole tree with odd levels duplicated |
| Merkle.FoldBytes | wire/src/pow.rs:65-74 | the root over one more branch is the hash of the 64 bytes of the root so far followed by the branch |
| Merkle.LevelBytes | wire/src/pow.rs:82-101 | a node is the hash of its left child's bytes followed by its right child's, or by its own again at an odd end |
| Merkle.RootBytes | wire/src/pow.rs:65-101 | the root of two is the hash of the first followed by the second, and a longer level's is the root of the level above |
| Merkle.BranchCount | wire/src/pow.rs:82-101 | the number of branches is ceil(log2(n + 1)) |
| Target.ShrLe | wire/src/pow.rs:262-275 | the in-place byte and bit shift is floor division by a power of two |
| Target.ShareTargetLe | wire/src/pow.rs:252-260 | the share target is floor((2^224 - 1) / 2^pot), and there is none from 224 on |
| Target.MeetsTarget | wire/src/pow.rs:308-315 | comparing bytes from the top is comparing the numbers |
| Target.TopByteDecides | wire/src/pow.rs:309-313 | numbers that agree above a byte are ordered by that byte |
| Target.HashPot | wire/src/pow.rs:319-330 | for every power from 1 to 223 the counted difficulty is at least it exactly when the hash meets its share target |
| Target.PotMeetsTarget | wire/src/pow.rs:252-330 | from 1 to 223 a hash meets the share target exactly when its difficulty is at least that power; at 0 exactly when it has 32 leading zeros |
| Target.NbitsToTargetLe | wire/src/pow.rs:279-304 | a compact target decodes to floor(mantissa * 256^(exp - 3)), and exactly when it is positive and its exponent at most 32 |
| Target.NbitsRefusedThoughFits | wire/src/pow.rs:289-301 | which mantissas fit 256 bits at which exponent, and hence which fitting targets are refused |
| Bits.OrDisjoint | wire/src/pow.rs:271 | or-ing numbers that share no bit is adding them |
| CoinbasePolicy.ClassifyCoinbase | wire/src/verify.rs:196-294 | the loops, counters, map and early exits give the specified verdict |
| CoinbasePolicy.CheckMiners | wire/src/verify.rs:256-277 | stopping at the first overpaid script finds one exactly when there is one, and otherwise counts paid and short outputs exactly |
| CoinbasePolicyLaws.SplitIff | wire/src/verify.rs:196-294 | a coinbase is a full split if and only if all is sanctioned, every commitment is there, every miner is paid, none short, no script over its ceiling, and somebody but burnt outputs is paid |
| CoinbasePolicyLaws.SplitExactly | wire/src/verify.rs:196-294 | the same in bytes and sums: a paid miner's total is at least its listed amount less the tolerance, scaled down when the coinbase is worth less than the list, and at most its script's listed total plus the slack, scaled up when it is worth more |
| CoinbasePolicyLaws.OutOfBoundsRefused | wire/src/verify.rs:232-277 | a coinbase that pays a miner outside those bounds is never a split, and foreign if its commitments are present |
| CoinbasePolicyLaws.NoDiversion | wire/src/verify.rs:215-285 | a full split pays nobody outside the list, each miner between its scaled floor and its script's ceiling, and leaves the pool at least the value less burnt outputs, the miners' scaled total and a slack per script |
| CoinbasePolicyLaws.AcceptedIsSanctioned | wire/src/verify.rs:199-214 | whatever is not foreign pays only the pool, issued scripts and burnt outputs |
| CoinbasePolicyLaws.PartialMeans | wire/src/verify.rs:279-284 | a partial payment with its commitments pays somebody and holds each paid miner to floor and ceiling |
| CoinbasePolicyLaws.PoolOnlyMeans | wire/src/verify.rs:287-290 | a pool-only coinbase puts value nowhere but on the pool and burnt outputs, and pays the pool unless a commitment is missing |
| CoinbasePolicyLaws.PoolOnlyPaysIff | wire/src/verify.rs:220-224 | every pool-only coinbase pays the pool if and only if the issued list holds no commitment |
| CoinbasePolicyLaws.BurningPassesAsPoolOnly | wire/src/verify.rs:220-224 | against any list that holds a commitment, burning everything is pool-only too |
| CoinbasePolicyLaws.PoolCountsAsPaid | wire/src/verify.rs:220-224 | with a commitment missing, a coinbase that pays only the pool is a partial payment of every entry with the pool's script |
| HonestGateway.IssueList | primed/src/session.rs:409-457 | the appended list is the specified one |
| HonestGateway.ListByFields | primed/src/session.rs:409-457 | commitment first with nothing on it, every payee with its own amount and script, then the pool with what is left for it, or one sat where nothing else is listed |
| HonestGateway.ListSumsToValue | primed/src/session.rs:445-457 | for every split the issued list sums to the block value if and only if it is not the one-sat placeholder of an empty list at value zero |
| HonestGateway.HonestIsSplit | wire/src/verify.rs:232-285 | a coinbase paying a list rescaled to any block value, remainder on the last output, is a full split if and only if no miner script was rounded to nothing, shared scripts included |
| HonestGateway.HonestGatewayPasses | primed/src/session.rs:409-457 | the same for the list issued from any window, carry and parameters |
| HonestGateway.ClassicVerbatimPasses | wire/src/verify.rs:279-281 | in classic mode with a minimum payout, paying the list verbatim is always a full split |
| Coinbaser.EncodeProgram | wire/src/coinbaser.rs:31-41 | the loop writes the id and the first 512 outputs |
| Coinbaser.DecodeProgram | wire/src/coinbaser.rs:43-58 | the cursor loop reads outputs to the end of the bytes, refusing bad lengths and a 513th output |
| Coinbaser.DecodeEncode | wire/src/coinbaser.rs:31-58 | decoding gives back exactly the first 512 outputs |
| Coinbaser.DecodeEncodeWhole | wire/src/coinbaser.rs:31-58 | a list is read back whole if and only if it has at most 512 outputs |
| Coinbaser.DecodeEncodeIff | wire/src/coinbaser.rs:31-58 | any list is read back if and only if every script written has 2 to 64 bytes |
| Coinbaser.TooManyRefused | wire/src/coinbaser.rs:51-53 | a 513th entry makes the reader refuse the whole list |
| Coinbaser.ListReachesGateway | primed/src/session.rs:439-459 | an issued list survives the wire if and only if commitment, payees and pool are at most 512 |
| Coinbaser.LongScriptsReachGateway | primed/src/main.rs:279-289 | with the pool's limits and scripts of 19 bytes or more they always are |
| Coinbaser.PoolCutOff | wire/src/coinbaser.rs:34 | with 511 payees and a commitment the entry cut off is the pool's, and the gateway's list is short of the value by exactly it |
| Coinbaser.CrowdIsCutOff | primed/src/main.rs:279-289 | a window of 511 miners with short scripts, within the pool's limits, to which that happens |
| Coinbaser.ListIsJudgeable | wire/src/verify.rs:234-268 | every issued list is short and small enough for the policy's counter and total |
| Wire.Cursor.TakeBytes | wire/src/lib.rs:79-86 | a read returns the next bytes and moves behind them, or fails without moving |
| Wire.Cursor.TakeCStr | wire/src/lib.rs:107-113 | a string ends at the first NUL within its limit, which is consumed |
| Wire.CStrWritten | wire/src/lib.rs:107-113 | a NUL-free string is read back from anything it is written in front of |
| CoinbaseTx.VarintWritten | wire/src/coinbase.rs:80-102 | every u64 is read back from its varint, whatever follows |
| CoinbaseTx.VarintShortest | wire/src/coinbase.rs:89-102 | of all the ways a number can be read the shortest is written: 1, 3, 5 or 9 bytes |
| CoinbaseTx.Bip34HeightProgram | wire/src/coinbase.rs:104-117 | or-ing the pushed bytes into place gives the little-endian height |
| CoinbaseTx.ParseProgram | wire/src/coinbase.rs:122-159 | the cursor walk computes the specified parse, same errors in the same order |
| CoinbaseTx.ParseSerialize | wire/src/coinbase.rs:122-159 | every printed coinbase with legal outputs is parsed back field by field, unless its scriptSig is over 100 bytes |
| CoinbaseTx.ParseSerializeIff | wire/src/coinbase.rs:122-159 | any printed coinbase parses if and only if its scriptSig has 2 to 100 bytes, it has 1 to 10000 outputs and no script is over 10000 bytes, with the error of the first of these that fails |
| CoinbaseBuild.BuildProgram | wire/src/coinbase.rs:178-210 | the builder's appends give the serialized coinbase and the index of its target byte |
| CoinbaseBuild.BuildParses | wire/src/coinbase.rs:178-210 | what is built parses to its height, outputs and lock time exactly when height push and tag leave the scriptSig within 100 bytes: always for tags of 81 bytes |
| CoinbaseBuild.CutAndReassembled | wire/src/coinbase.rs:66-78 | cut at the 12-byte slot and put back together with any target byte, it is the coinbase built with that byte |
| CoinbaseBuild.AssembledBytes | wire/src/coinbase.rs:66-78 | every byte of an assembled coinbase: the halves around twelve zeros and the target byte at its position, or one piece as it is |
| CoinbaseBuild.ReassembledParses | wire/src/coinbase.rs:66-159 | for every height, tag of at most 81 bytes, legal output list and target byte, the reassembled coinbase parses to the height, outputs and lock time it was built with |
| CoinbaseWitness.WitnessStrips | wire/src/coinbase.rs:163-173 | for every coinbase that parses, reading the segwit form as BIP 144 lays it out and dropping marker, flag and witness gives the legacy bytes |
| CoinbaseWitness.StripsOnlyWitness | wire/src/coinbase.rs:163-173 | what strips has exactly these bytes in these places and loses them and no other |
| CoinbaseWitness.WitnessBytes | wire/src/coinbase.rs:163-173 | the marker and flag behind the version, and one stack item of 32 zeros in front of the lock time |
| CoinbaseWitness.BodyLocal | wire/src/coinbase.rs:122-159 | inputs and outputs are read the same whatever follows them |
| PowMessage.EncodeProgram | wire/src/mining.rs:223-281 | the pushes give the encoded share |
| PowMessage.DecodeProgram | wire/src/mining.rs:284-366 | for any bytes the section loop ends, never reads past them, and computes the specified decoding |
| PowMessage.ParseEncode | wire/src/mining.rs:223-366 | every well-formed share is parsed back exactly, whatever padding follows |
| PowMessage.ParseEncodeCut | wire/src/mining.rs:223-366 | of any other share the username arrives cut to 384 bytes and the wire time only behind a BLAKE2b section |
| PowMessage.ShareBytes | wire/src/mining.rs:223-246 | where each fixed field of a share is, and its first and last byte |
| PowMessage.SectionBytes | wire/src/mining.rs:236-276 | the tag each section is written under |
| PowMessage.ClientBytes | wire/src/mining.rs:450-471 | what the first byte of a client's message makes of the rest, errors included |
| PowMessage.JobWritten | wire/src/mining.rs:248-266 | a job section of up to 255 branches is read back whole |
| Frame.HeaderWord | wire/src/frame.rs:85-104 | a header survives its packed word if and only if its length has 22 bits and its command five |
| Frame.HeaderRoundTrip | wire/src/frame.rs:107-119 | the same under any key of the rolling mask |
| Frame.NeverTooLong | wire/src/frame.rs:113-116 | decoding never fails: no length field exceeds the limit |
| Frame.KeyStream.Decode | wire/src/frame.rs:113-119 | decoding uses the current key and advances it once |
| KeyMixing.MaskedHeader | wire/src/frame.rs:85-110 | on the wire every bit of the packed header is turned over exactly where the key has one |
| KeyMixing.FeedbackBack | wire/src/frame.rs:30-44 | the mixer is undone step by step with the inverse of each of its constants, so it is one to one |
| KeyMixing.KeysStayApart | wire/src/frame.rs:53-57 | two ends whose keys differ differ before every later frame: keys out of step never fall back into it |
| KeyMixing.DirectionsApart | wire/src/frame.rs:59-65 | the two directions of a session never use the same key for the same frame |
| FrameReader.InBuf.MakeRoom | primed/src/session.rs:899-907 | making room never changes the unread bytes |
| FrameReader.Reader.OnRead | primed/src/session.rs:244-267 | the inner loop ends, on zero-length frames too, and cuts everything that can be cut |
| FrameReader.DrainThenMore | primed/src/session.rs:244-267 | cutting early and receiving more is receiving all and cutting once |
| FrameReader.ChunkingIndependent | primed/src/session.rs:239-267 | any frames, cut into any reads, are handed on as exactly those frames with nothing left over and the keys in step |
| FrameReader.PartialStream | primed/src/session.rs:239-267 | at every point what has been handed on is a prefix of what was sent |
| FrameReader.ReadSession | primed/src/session.rs:229-267 | the reader loop, keyed from the hello's seed, hands on exactly the frames the client wrote, for every chunking |
| Share.ClaimedWorkMatchesTarget | wire/src/mining.rs:213-219 | the work credited for a share times the number of hashes meeting its target is the number meeting difficulty one, exactly below power 64; the saturated figure never credits too much |
| JobSlotModel.AbsorbAtomic | wire/src/verify.rs:78-108 | exactly when a share's sections are refused, and that the slot is then unchanged even if the share carried a new job |
| JobSlots.JobSlot.Absorb | wire/src/verify.rs:78-108 | the in-place edits give the specified slot |
| JobSlots.JobSlot.ForgetCoinbase | wire/src/verify.rs:112-116 | a section goes with everything derived from it |
| JobSlots.Drive | wire/src/verify.rs:56-424 | any operations on a fresh slot object are answered as by a verifier without caches, if the shares of a job agree |
| JobSlots.JobSlot.VerifyWithTarget | wire/src/verify.rs:308-424 | the method, with its cache fills, hints and marker root, computes the specified cached verification |
| JobSlots.JobSlot.Verify | wire/src/verify.rs:299-305 | against the target the share claims, refused below the pool's minimum and from 2^224 on |
| ShareFields.VerdictByFields | wire/src/verify.rs:308-405 | every answer to a share and its exact occasion, in the order of the checks, over the share's fields, the job's, the section's bytes and the clock |
| ShareFields.AcceptedTime | wire/src/pow.rs:333-338 | an accepted share is reported at its wire time, plus its first four ntime bytes modulo 2^32 exactly if the lowest bit of its first reserved byte is set, and that is at most two hours ahead of the clock and one behind |
| ShareFields.TimelyNeverRefused | wire/src/verify.rs:341-346 | a share is refused for its time if and only if its coinbase is sanctioned and its time outside those bounds |
| ShareFields.AcceptedHeader | wire/src/verify.rs:360-405 | the commitment reported is made of the share's, the job's and the section's bytes, under the first reading of the transaction count that meets the target, and the hash is its |
| ShareFields.AcceptedWork | wire/src/verify.rs:409-423 | it is credited 2 to its power, saturating, at the job's height, for the coinbase of its own section |
| ShareFields.CandidateByFields | wire/src/verify.rs:406-407 | it is a block candidate exactly when its hash is within the target that the job's four nBits bytes stand for |
| ShareFields.AbsorbByFields | wire/src/verify.rs:78-108 | what a share's sections leave in the slot and when they are refused: over 20000 bytes, or a ninth id |
| ShareFields.AbsorbKeepsCaches | wire/src/verify.rs:78-108 | what was derived from other sections of the same job stays cached, and nothing else |
| ShareFields.ForgetByFields | wire/src/verify.rs:112-125 | forgetting a section, or evicting all, keeps the job and its pinned reading and drops exactly what was derived |
| ShareFields.StepBounded | wire/src/verify.rs:37-40 | whatever shares choose, the caches stay within 32 and 64 entries |
| JobSlotRefinement.VerifyRefines | wire/src/verify.rs:308-424 | verification through the caches answers what verification without them answers, in every field, and keeps the caches true |
| JobSlotRefinement.AbsorbRefines | wire/src/verify.rs:78-129 | absorbing sections never leaves a stale cache entry |
| JobSlotRefinement.CachesAreInvisible | wire/src/verify.rs:56-424 | after any sequence of absorb, forget, evict and verify the answers are those of a verifier without caches, if shares of one job agree on time and flag |
| JobSlotRefinement.SecondShare | wire/src/verify.rs:371-405 | a second share under the same cache key is judged by the first one's commitment, whatever its own time and flags |
| JobSlotRefinement.StaleCommitment | wire/src/verify.rs:59-61 | an accepted share sent again with another wire time or flag is accepted with the same hash and a report that commits to the other time |
| JobSlotRefinement.TwoSharesAgree | wire/src/verify.rs:308-424 | two presentable shares of one job, section, target and version get the cache-free answers under every choice of hashes if and only if they agree on time and flags |
| JobSlotRefinement.AcceptedShareMeans | wire/src/verify.rs:350-424 | an accepted share's hash is that of the reported commitment, meets the target, commits to the whole transaction tree, and pins one reading of the transaction count |
| SessionBudget.Session.TakeSections | primed/src/session.rs:566-591 | a section is refused and dropped again, with the one of the same id it replaced, if and only if all slots with it in place hold more than the budget; otherwise everything the share brought stays, and the count is exact |
| SessionBudget.Session.TouchSlot | primed/src/session.rs:511-520 | the slot that started a job becomes the newest; the oldest loses its sections exactly when sixteen others were live, and no slot else changes |
| SessionBudget.Session.DropCoinbase | primed/src/session.rs:499-506 | undoing a section keeps the count exact without saturating |
| SessionBudget.PlacedBytes | primed/src/session.rs:573-577 | without a new job the total is what was held, less this slot's sections before, plus after |
| SessionBudget.DisplacedBytes | primed/src/session.rs:511-520 | with one, what the oldest of sixteen other slots held is gone from it too, and nothing else |
| SessionBudget.HeldIsHalves | wire/src/verify.rs:127-129 | a slot holds the two halves of each of its sections |
| SessionBudget.SlotBytes | wire/src/verify.rs:31-36 | a slot never holds more than eight sections of 20000 bytes |
| SessionBudget.VerifyHoldsBytes | wire/src/verify.rs:308-424 | verifying a share never adds or drops a section, so it leaves the count exact |
| SessionBudget.AbsorbedBytes | wire/src/verify.rs:78-108 | without the section just added a slot holds no more than before, so dropping it always returns under budget |
| SeenShares.Shares.InsertShare | primed/src/state.rs:118-129 | a share is fresh, duplicate or refused as specified, with the total exact and both caps kept |
| SeenShares.Shares.PruneBelow | primed/src/state.rs:132-141 | pruning forgets exactly the heights below, and the total never underflows |
| SeenShares.InsertRecords | primed/src/state.rs:118-129 | duplicate exactly when already recorded, refused exactly when not recorded, and nothing recorded is lost |
| SeenShares.InsertByFields | primed/src/state.rs:118-129 | the verdict over the set of the height: duplicate if in it, full at a million there or two and a half million in all, and otherwise the hash is added and nothing else changes |
| SeenShares.AcceptedHeights | primed/src/session.rs:592-598 | with a tip, work is taken for the next two heights, for the tip's own within the grace period, and for no other |
| SeenShares.HousekeepingKeeps | primed/src/stats.rs:348-350 | housekeeping forgets exactly the heights more than two below the tip |
| SeenShares.CreditedOnce | primed/src/session.rs:592-641 | while the process runs, over any submissions, tip moves and housekeeping, no share is credited twice if the tip never falls more than two below a height at which housekeeping ran |
| SeenShares.CreditedAgainIff | primed/src/state.rs:118-141 | over any events, restarts included, a credited share is credited again if and only if one of them forgot its height and the stale check lets it through |
| SeenShares.AlwaysSound | primed/src/state.rs:95-141 | in every reachable state the total is exact and the caps hold |
| SeenShares.DeeperFallForgets | primed/src/stats.rs:348-350 | for every fall past two, every share at a height that the tip accepts and pruning reached is credited again |
| SeenShares.RestartForgets | primed/src/main.rs:300 | after a restart every share within the stale window is credited again |

## Left out

- Sockets, tasks, HTTP statistics, JSON-RPC, configuration, keys and logging: plumbing around the modelled steps.
- SHA256, BLAKE2b, NaCl boxes, signatures and address decoding: arbitrary functions here. The preimages of H1, H2 and the work header are therefore not modelled; the XOR mask is zero on every share the verifier rebuilds.
- Floating-point difficulty and hashrate.
- Crash points inside a flush: a ledger is reopened only after a completed flush. `open` truncates its reading of a torn log, not the file, so a row appended behind a torn tail is not modelled.
- The last-seen time and the row count in the listing; live credits assign the time while replay takes a maximum.
- Files: the identity file is a list of lines, the log a sequence of bytes, the meta file a record.
- JSON snapshots: the auditor reads a record of the published fields; optional fields have their defaults, and its signature, chain and block checks are not part of this model.
- CoinbasePolicyLaws.PartialMeans: does not claim the upper bound when a commitment is missing, because that path returns before it is checked.
- AuditorTheorem.AuditVerdict: takes it that nobody on the list before carry earned nothing. Without carry the remaining case is settled by AuditExact; with carry, an identity that earned nothing and is raised by carry is listed by the auditor in another place, and when that place happens to be the same is not stated.
- AuditorAgreement.CutAgrees: the same.
- Custody.RunCustody: is stated for the classic mode, because amounts below the cut of a capped split are recorded as unpaid like any other and would be owed on top of a split that already paid everything out; foreign and unknown blocks record nothing.
- PowMessage.ParseEncode: a username is NUL-free bytes; the lossy conversion to text is not modelled, and neither is the decoding of job-validation replies.
- CoinbasePolicy.ClassifyCoinbase: takes lists of at most 65535 outputs and 64 bits of value, beyond which the program's counter and sum would wrap or panic; every list a session issues is one (Coinbaser.ListIsJudgeable).
- CoinbasePolicy.CheckMiners: the same.
- JobSlots.JobSlot.VerifyWithTarget: the same.
- JobSlots.JobSlot.Verify: the same.
- SessionBudget.Session.TakeSections: slots are values held in a sequence rather than objects; identity checks and the rejects before and after the sections are not part of it.
- SeenShares.CreditedOnce: takes reading the tip and inserting the hash as one step.
- FrameReader.ChunkingIndependent: hands frames on without decrypting them; a frame whose handling fails ends the session.
- Header serialization, configure messages, receipts, bans and counters: one-branch facts.
