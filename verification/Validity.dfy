/** The checks a protocol transaction passes before it is pooled. */
module Validity {
  import opened Binary
  import opened Wire

  const MAX_SIGNATURE_BYTES: nat := 8 * 1024
  const MAX_SENDER_KEY_BYTES: nat := 4 * 1024
  const MAX_DATA_SMALL: nat := 60
  const MAX_DATA_CONTRACT: nat := 48 * 1024

  /** A marker names its sender in one entry of amount zero; anything else has two entries. */
  predicate EntriesInShape(core: TxCore) {
    if core.txType.WorkerRegistration? || core.txType.SmartContract?
    then |core.entries| == 1 && core.entries[0].amount == NonConfidential(0)
    else |core.entries| >= 2
  }

  predicate BasicallyValid(tx: Transaction) {
    && EntriesInShape(tx.core)
    && tx.core.nonce != 0
    && |tx.core.data| <= (if tx.core.txType.SmartContract? then MAX_DATA_CONTRACT else MAX_DATA_SMALL)
    && 0 < |tx.signature| <= MAX_SIGNATURE_BYTES
    && (tx.senderKey.Some? ==> |tx.senderKey.value| <= MAX_SENDER_KEY_BYTES)
  }

  function MinFee(core: TxCore): U64 {
    var base := if core.txType.SmartContract? then 5 else 1;
    if |core.entries| > MAX_U64 then MAX_U64 else SatAdd(base, |core.entries|)
  }

  /** Well shaped, paying the minimum fee, and unlocked. */
  predicate Acceptable(tx: Transaction, nowSecs: U64) {
    BasicallyValid(tx) && tx.core.fees >= MinFee(tx.core) && tx.core.lockTime <= nowSecs
  }

  /** Exactly what is accepted: one zero entry for a registration or contract call and two entries or
      more for anything else, a nonce, data and signature and key within their bounds, the minimum
      fee of one unit (five for a contract call) plus one per entry, and a lock time that has come. */
  lemma AcceptableExactly(tx: Transaction, nowSecs: U64)
    requires |tx.core.entries| < 1_000_000
    ensures Acceptable(tx, nowSecs) <==>
              && (if tx.core.txType.WorkerRegistration? || tx.core.txType.SmartContract?
                  then |tx.core.entries| == 1 && tx.core.entries[0].amount == NonConfidential(0)
                  else |tx.core.entries| >= 2)
              && tx.core.nonce > 0
              && |tx.core.data| <= (if tx.core.txType.SmartContract? then 49_152 else 60)
              && 1 <= |tx.signature| <= 8_192 && (tx.senderKey.None? || |tx.senderKey.value| <= 4_096)
              && tx.core.fees >= |tx.core.entries| + (if tx.core.txType.SmartContract? then 5 else 1)
              && nowSecs >= tx.core.lockTime
  {}

  /** A transaction does not become unacceptable by waiting or by paying more. */
  lemma AcceptableLater(tx: Transaction, richer: Transaction, nowSecs: U64, later: U64)
    requires Acceptable(tx, nowSecs) && nowSecs <= later
    requires richer == tx.(core := tx.core.(fees := richer.core.fees)) && richer.core.fees >= tx.core.fees
    ensures Acceptable(richer, later)
  {}
}
