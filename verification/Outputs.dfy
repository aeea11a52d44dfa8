// Transaction outputs as a coinbase carries them, and as the pool issues them.
module Outputs {
  import opened Prelude

  datatype TxOut = TxOut(value: u64, script: Script)

  datatype Output = Output(sats: u64, script: Script)

  predicate OpReturn(script: Script) {
    script != [] && script[0] == 0x6A
  }
}
