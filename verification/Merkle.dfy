// Stratum merkle branches: the hashes a coinbase txid is folded through instead of
// rebuilding the whole transaction tree. The hash is any function of its preimage.
module Merkle {
  import opened Prelude

  // ---- the tree -----------------------------------------------------------------------

  function Joined(a: seq<byte>, b: seq<byte>): seq<byte> { a + b }

  // One level up: neighbours are hashed together, an odd last node with itself.
  function Paired(sha: seq<byte> -> Hash, level: seq<Hash>): (r: seq<Hash>)
    ensures |r| == (|level| + 1) / 2
  {
    seq((|level| + 1) / 2, i requires 0 <= i < (|level| + 1) / 2 =>
      sha(Joined(level[2 * i], level[Min(2 * i + 1, |level| - 1)])))
  }

  function TreeRoot(sha: seq<byte> -> Hash, level: seq<Hash>): Hash
    requires level != []
    decreases |level|
  {
    if |level| == 1 then level[0] else TreeRoot(sha, Paired(sha, level))
  }

  // ---- the path -----------------------------------------------------------------------

  function Fold(sha: seq<byte> -> Hash, txid: Hash, branches: seq<Hash>): Hash
    decreases |branches|
  {
    if branches == [] then txid
    else sha(Joined(Fold(sha, txid, branches[..|branches| - 1]), branches[|branches| - 1]))
  }

  // The level above, seen without its first node.
  function Parents(sha: seq<byte> -> Hash, rest: seq<Hash>): (r: seq<Hash>)
    ensures |r| == |rest| / 2
  {
    seq(|rest| / 2, i requires 0 <= i < |rest| / 2 =>
      sha(Joined(rest[2 * i + 1], rest[Min(2 * i + 2, |rest| - 1)])))
  }

  // The siblings met on the way up from the first leaf.
  function Branches(sha: seq<byte> -> Hash, rest: seq<Hash>): seq<Hash>
    decreases |rest|
  {
    if rest == [] then [] else [rest[0]] + Branches(sha, Parents(sha, rest))
  }

  lemma {:induction false} FoldFirst(sha: seq<byte> -> Hash, txid: Hash, first: Hash, branches: seq<Hash>)
    ensures Fold(sha, txid, [first] + branches) == Fold(sha, sha(Joined(txid, first)), branches)
    decreases |branches|
  {
    var all := [first] + branches;
    if branches == [] {
      assert all == [first] && [first][..0] == [];
    } else {
      var init := branches[..|branches| - 1];
      FoldFirst(sha, txid, first, init);
      assert all[..|all| - 1] == [first] + init;
    }
  }

  lemma PairedPath(sha: seq<byte> -> Hash, first: Hash, rest: seq<Hash>)
    requires rest != []
    ensures Paired(sha, [first] + rest) == [sha(Joined(first, rest[0]))] + Parents(sha, rest)
  {
    var level, up := [first] + rest, Parents(sha, rest);
    forall i | 1 <= i < (|level| + 1) / 2 ensures Paired(sha, level)[i] == up[i - 1] {
      assert level[2 * i] == rest[2 * (i - 1) + 1];
    }
  }

  // Folding a coinbase through its branches gives the root of the full tree, whatever the
  // coinbase and however many transactions follow it.
  lemma {:induction false} BranchesReachTheRoot(sha: seq<byte> -> Hash, coinbase: Hash, txids: seq<Hash>)
    ensures Fold(sha, coinbase, Branches(sha, txids)) == TreeRoot(sha, [coinbase] + txids)
    decreases |txids|
  {
    if txids != [] {
      var up, rest := sha(Joined(coinbase, txids[0])), Parents(sha, txids);
      FoldFirst(sha, coinbase, txids[0], Branches(sha, rest));
      BranchesReachTheRoot(sha, up, rest);
      PairedPath(sha, coinbase, txids);
    } else {
      assert [coinbase] + txids == [coinbase];
    }
  }

  // The number of branches is the height of the tree: the least k with n + 1 leaves in 2^k.
  lemma {:induction false} BranchCount(sha: seq<byte> -> Hash, txids: seq<Hash>)
    ensures var k := |Branches(sha, txids)|;
            |txids| + 1 <= Pow2(k) && (k > 0 ==> Pow2(k - 1) < |txids| + 1)
    decreases |txids|
  {
    if txids != [] {
      BranchCount(sha, Parents(sha, txids));
    }
  }

  // ---- byte for byte ------------------------------------------------------------------

  // A pair of nodes is hashed left before right, from the 64 bytes of both.
  lemma FoldBytes(sha: seq<byte> -> Hash, txid: Hash, branches: seq<Hash>, b: Hash)
    ensures Fold(sha, txid, []) == txid
    ensures var root: seq<byte> := Fold(sha, txid, branches);
            var right: seq<byte> := b;
            |root + right| == 64 && Fold(sha, txid, branches + [b]) == sha(root + right)
  {
    assert (branches + [b])[..|branches|] == branches;
  }

  lemma LevelBytes(sha: seq<byte> -> Hash, level: seq<Hash>, i: nat)
    requires 2 * i < |level|
    ensures |Paired(sha, level)| == (|level| + 1) / 2
    ensures var left: seq<byte> := level[2 * i];
            var right: seq<byte> := if 2 * i + 1 < |level| then level[2 * i + 1] else level[2 * i];
            Paired(sha, level)[i] == sha(left + right)
  {
  }

  // The root of one leaf is the leaf, of two the hash of both, of more the root of the
  // level above.
  lemma RootBytes(sha: seq<byte> -> Hash, a: Hash, b: Hash, level: seq<Hash>)
    ensures TreeRoot(sha, [a]) == a
    ensures var left: seq<byte> := a;
            var right: seq<byte> := b;
            TreeRoot(sha, [a, b]) == sha(left + right)
    ensures |level| > 1 ==> TreeRoot(sha, level) == TreeRoot(sha, Paired(sha, level))
  {
    assert Paired(sha, [a, b]) == [Paired(sha, [a, b])[0]];
    LevelBytes(sha, [a, b], 0);
  }

  // ---- the programs -------------------------------------------------------------------

  method MerkleRoot(sha: seq<byte> -> Hash, txid: Hash, branches: seq<Hash>) returns (acc: Hash)
    ensures acc == Fold(sha, txid, branches)
  {
    acc := txid;
    for i := 0 to |branches|
      invariant acc == Fold(sha, txid, branches[..i])
    {
      assert branches[..i + 1][..i] == branches[..i];
      var buf := Joined(acc, branches[i]);
      acc := sha(buf);
    }
    assert branches[..|branches|] == branches;
  }

  // A level whose first node waits for the coinbase.
  ghost predicate Awaiting(level: seq<Option<Hash>>, rest: seq<Hash>) {
    && |level| == |rest| + 1
    && level[0].None?
    && forall i :: 0 <= i < |rest| ==> level[i + 1] == Some(rest[i])
  }

  // Hash one level, already padded to even length, into the next.
  method NextLevel(sha: seq<byte> -> Hash, level: seq<Option<Hash>>, ghost rest: seq<Hash>)
    returns (next: seq<Option<Hash>>)
    requires |rest| % 2 == 1 && Awaiting(level, rest)
    ensures Awaiting(next, Parents(sha, rest))
  {
    next := [];
    for i := 0 to |level| / 2
      invariant |next| == i
      invariant i > 0 ==> next[0].None?
      invariant forall j :: 1 <= j < i ==> next[j] == Some(Parents(sha, rest)[j - 1])
    {
      var a, b := level[2 * i], level[2 * i + 1];
      if a.Some? && b.Some? {
        assert a == Some(rest[2 * (i - 1) + 1]) && b == Some(rest[2 * (i - 1) + 2]);
        next := next + [Some(sha(Joined(a.value, b.value)))];
      } else {
        next := next + [None];
      }
    }
  }

  // Duplicating an odd last node first does not change the level above.
  lemma PaddedParents(sha: seq<byte> -> Hash, rest: seq<Hash>)
    requires rest != [] && |rest| % 2 == 0
    ensures Parents(sha, rest + [rest[|rest| - 1]]) == Parents(sha, rest)
  {
  }

  // One pass of the loop: duplicate an odd last node, then hash the pairs.
  method Climb(sha: seq<byte> -> Hash, level: seq<Option<Hash>>, ghost rest: seq<Hash>)
    returns (next: seq<Option<Hash>>)
    requires rest != [] && Awaiting(level, rest)
    ensures Awaiting(next, Parents(sha, rest))
  {
    if |level| % 2 == 1 {
      PaddedParents(sha, rest);
      next := NextLevel(sha, level + [level[|level| - 1]], rest + [rest[|rest| - 1]]);
    } else {
      next := NextLevel(sha, level, rest);
    }
  }

  method MerkleBranches(sha: seq<byte> -> Hash, txids: seq<Hash>) returns (branches: seq<Hash>)
    ensures branches == Branches(sha, txids)
  {
    branches := [];
    var level: seq<Option<Hash>> := [None] + seq(|txids|, i requires 0 <= i < |txids| => Some(txids[i]));
    ghost var rest := txids;
    while |level| > 1
      invariant Awaiting(level, rest)
      invariant Branches(sha, txids) == branches + Branches(sha, rest)
      decreases |rest|
    {
      // The sibling on the coinbase's path is always a real hash.
      assert level[1] == Some(rest[0]);
      BranchesUnfold(sha, branches, rest);
      branches := branches + [level[1].value];
      level := Climb(sha, level, rest);
      rest := Parents(sha, rest);
    }
  }

  lemma BranchesUnfold(sha: seq<byte> -> Hash, done: seq<Hash>, rest: seq<Hash>)
    requires rest != []
    ensures done + Branches(sha, rest) == (done + [rest[0]]) + Branches(sha, Parents(sha, rest))
  {
    var tail := Branches(sha, Parents(sha, rest));
    assert done + ([rest[0]] + tail) == (done + [rest[0]]) + tail;
  }
}
