/** Protocol transactions: the tagged wire format and the payloads that are signed. */
module Wire {
  import opened Binary
  import opened Codec

  datatype TransactionType =
    | NonConfidentialTransfer
    | ConfidentialTransfer
    | DataStorageRequest
    | DataStorageRetrieve
    | SmartContract
    | WorkerRegistration

  datatype EntryAmount =
    | NonConfidential(value: I64)
    | Confidential(commitment: Hash, rangeProof: Octets)

  datatype TxEntry = TxEntry(publicKey: Hash, amount: EntryAmount)

  datatype TxCore = TxCore(
    txType: TransactionType,
    entries: seq<TxEntry>,
    nonce: U64,
    lockTime: U32,
    fees: U64,
    data: Octets)

  datatype TransactionV1 = TransactionV1(core: TxCore, signature: Octets, timestamp: U64)

  datatype Transaction = Transaction(
    core: TxCore,
    scheme: U8,
    signature: Octets,
    senderKey: Option<Octets>,
    timestamp: U64)

  const SCHNORR_V1: U8 := 0
  const MAGIC_V1: Octets := [67, 84, 88, 49]  // CTX1
  const MAGIC_V2: Octets := [67, 84, 88, 50]  // CTX2
  const MAX_WIRE_BYTES: nat := 64 * 1024

  datatype WireResult = Ok(tx: Transaction) | TooLarge | BadV2 | BadV1 | BadLegacy

  // ---------- tagged codecs ----------

  function EncType(t: TransactionType): Octets {
    match t
    case NonConfidentialTransfer => [0]
    case ConfidentialTransfer => [1]
    case DataStorageRequest => [2]
    case DataStorageRetrieve => [3]
    case SmartContract => [4]
    case WorkerRegistration => [5]
  }

  function DecType(b: Octets): Parsed<TransactionType> {
    if b == [] then Failed
    else match b[0]
      case 0 => Parsed(NonConfidentialTransfer, b[1..])
      case 1 => Parsed(ConfidentialTransfer, b[1..])
      case 2 => Parsed(DataStorageRequest, b[1..])
      case 3 => Parsed(DataStorageRetrieve, b[1..])
      case 4 => Parsed(SmartContract, b[1..])
      case 5 => Parsed(WorkerRegistration, b[1..])
      case _ => Failed
  }

  function EncAmount(a: EntryAmount): Octets {
    match a
    case NonConfidential(v) => [0] + EncI64(v)
    case Confidential(c, proof) => [1] + (EncHash(c) + EncBytes(proof))
  }

  function DecAmount(l: Limits, b: Octets): Parsed<EntryAmount> {
    if b == [] then Failed
    else if b[0] == 0 then
      match DecI64(b[1..])
      case Failed => Failed
      case Parsed(v, rest) => Parsed(NonConfidential(v), rest)
    else if b[0] == 1 then
      match DecHash(b[1..])
      case Failed => Failed
      case Parsed(c, b1) =>
        match DecBytes(l.items, b1)
        case Failed => Failed
        case Parsed(proof, rest) => Parsed(Confidential(c, proof), rest)
    else Failed
  }

  function EncTxEntry(e: TxEntry): Octets { EncHash(e.publicKey) + EncAmount(e.amount) }

  function DecTxEntry(l: Limits, b: Octets): Parsed<TxEntry> {
    match DecHash(b)
    case Failed => Failed
    case Parsed(key, b1) =>
      match DecAmount(l, b1)
      case Failed => Failed
      case Parsed(amount, rest) => Parsed(TxEntry(key, amount), rest)
  }

  function TxEntryDecoder(l: Limits): Decoder<TxEntry> { b => DecTxEntry(l, b) }

  function EncNumbers(c: TxCore): Octets {
    EncU64(c.nonce) + (EncU32(c.lockTime) + (EncU64(c.fees) + EncBytes(c.data)))
  }

  function EncCore(c: TxCore): Octets {
    EncType(c.txType) + (EncVec(EncTxEntry, c.entries) + EncNumbers(c))
  }

  function DecNumbers(l: Limits, t: TransactionType, entries: seq<TxEntry>, b: Octets): Parsed<TxCore> {
    match DecU64(b)
    case Failed => Failed
    case Parsed(nonce, b1) =>
      match DecU32(b1)
      case Failed => Failed
      case Parsed(lock, b2) =>
        match DecU64(b2)
        case Failed => Failed
        case Parsed(fees, b3) =>
          match DecBytes(l.items, b3)
          case Failed => Failed
          case Parsed(data, rest) => Parsed(TxCore(t, entries, nonce, lock, fees, data), rest)
  }

  function DecCore(l: Limits, b: Octets): Parsed<TxCore> {
    match DecType(b)
    case Failed => Failed
    case Parsed(t, b1) =>
      match DecVec(TxEntryDecoder(l), l.items, b1)
      case Failed => Failed
      case Parsed(entries, b2) => DecNumbers(l, t, entries, b2)
  }

  function EncOptional(k: Option<Octets>): Octets {
    match k
    case None => [0]
    case Some(x) => [1] + EncBytes(x)
  }

  function DecOptional(l: Limits, b: Octets): Parsed<Option<Octets>> {
    if b == [] then Failed
    else if b[0] == 0 then Parsed(None, b[1..])
    else if b[0] == 1 then
      match DecBytes(l.items, b[1..])
      case Failed => Failed
      case Parsed(x, rest) => Parsed(Some(x), rest)
    else Failed
  }

  function EncV1(t: TransactionV1): Octets {
    EncCore(t.core) + (EncBytes(t.signature) + EncU64(t.timestamp))
  }

  function DecV1(l: Limits, b: Octets): Parsed<TransactionV1> {
    match DecCore(l, b)
    case Failed => Failed
    case Parsed(core, b1) =>
      match DecBytes(l.items, b1)
      case Failed => Failed
      case Parsed(sig, b2) =>
        match DecU64(b2)
        case Failed => Failed
        case Parsed(time, rest) => Parsed(TransactionV1(core, sig, time), rest)
  }

  function EncV2(t: Transaction): Octets {
    EncCore(t.core) + ([t.scheme] + (EncBytes(t.signature) + (EncOptional(t.senderKey) + EncU64(t.timestamp))))
  }

  function DecV2(l: Limits, b: Octets): Parsed<Transaction> {
    match DecCore(l, b)
    case Failed => Failed
    case Parsed(core, b1) =>
      match DecU8(b1)
      case Failed => Failed
      case Parsed(scheme, b2) =>
        match DecBytes(l.items, b2)
        case Failed => Failed
        case Parsed(sig, b3) =>
          match DecOptional(l, b3)
          case Failed => Failed
          case Parsed(key, b4) =>
            match DecU64(b4)
            case Failed => Failed
            case Parsed(time, rest) => Parsed(Transaction(core, scheme, sig, key, time), rest)
  }

  // ---------- the wire ----------

  function EncodeWireV1(t: Transaction): Octets {
    MAGIC_V1 + EncV1(TransactionV1(t.core, t.signature, t.timestamp))
  }

  function EncodeWireV2(t: Transaction): Octets { MAGIC_V2 + EncV2(t) }

  function FromV1(t: TransactionV1): Transaction {
    Transaction(t.core, SCHNORR_V1, t.signature, None, t.timestamp)
  }

  /** Dispatch on the magic; anything else goes to the legacy decoder, which is not modelled. */
  function DecodeWire(bytes: Octets, legacy: Octets -> Option<TransactionV1>): WireResult {
    if |bytes| > MAX_WIRE_BYTES then TooLarge
    else if |bytes| >= 4 && bytes[..4] == MAGIC_V2 then
      match DecV2(READER, bytes[4..])
      case Failed => BadV2
      case Parsed(t, _) => Ok(t)
    else if |bytes| >= 4 && bytes[..4] == MAGIC_V1 then
      match DecV1(READER, bytes[4..])
      case Failed => BadV1
      case Parsed(t, _) => Ok(FromV1(t))
    else
      match legacy(bytes)
      case None => BadLegacy
      case Some(t) => Ok(FromV1(t))
  }

  /** Which decoder answers: by the first four bytes, and only within 64 KiB. */
  lemma DispatchExactly(bytes: Octets, legacy: Octets -> Option<TransactionV1>)
    ensures var r := DecodeWire(bytes, legacy);
            var tag := if |bytes| >= 4 then bytes[..4] else [];
            && (r == TooLarge <==> |bytes| > 65_536)
            && (r == BadV2 ==> tag == [67, 84, 88, 50]) && (r == BadV1 ==> tag == [67, 84, 88, 49])
            && (r == BadLegacy <==>
                  |bytes| <= 65_536 && tag != [67, 84, 88, 50] && tag != [67, 84, 88, 49] && legacy(bytes).None?)
            && (r.Ok? && tag != [67, 84, 88, 50] ==> r.tx.scheme == 0 && r.tx.senderKey.None?)
            && (r.Ok? && tag != [67, 84, 88, 50] && tag != [67, 84, 88, 49] ==>
                  legacy(bytes) == Some(TransactionV1(r.tx.core, r.tx.signature, r.tx.timestamp)))
  {}

  // ---------- reading back ----------

  ghost predicate AmountFits(l: Limits, a: EntryAmount) {
    a.Confidential? ==> |a.rangeProof| <= l.items
  }

  ghost predicate CoreFits(l: Limits, c: TxCore) {
    && |c.entries| <= l.items && |c.data| <= l.items
    && forall i :: 0 <= i < |c.entries| ==> AmountFits(l, c.entries[i].amount)
  }

  ghost predicate KeyFits(l: Limits, k: Option<Octets>) { k.Some? ==> |k.value| <= l.items }

  ghost predicate TransactionFits(l: Limits, t: Transaction) {
    CoreFits(l, t.core) && |t.signature| <= l.items && KeyFits(l, t.senderKey)
  }

  lemma ReadsType(t: TransactionType, rest: Octets)
    ensures DecType(EncType(t) + rest) == Parsed(t, rest)
  {
    assert (EncType(t) + rest)[1..] == rest;
  }

  lemma ReadsAmount(l: Limits, a: EntryAmount, rest: Octets)
    requires AmountFits(l, a)
    ensures DecAmount(l, EncAmount(a) + rest) == Parsed(a, rest)
  {
    match a
    case NonConfidential(v) =>
      Tagged(0, EncI64(v), rest);
      ReadsI64(v, rest);
    case Confidential(c, proof) =>
      Tagged(1, EncHash(c) + EncBytes(proof), rest);
      Regroup2(EncHash(c), EncBytes(proof), rest);
      ReadsHash(c, EncBytes(proof) + rest);
      ReadsBytes(l.items, proof, rest);
  }

  lemma ReadsTxEntry(l: Limits, e: TxEntry)
    requires AmountFits(l, e.amount)
    ensures Reads(EncTxEntry, TxEntryDecoder(l), e)
  {
    forall rest: Octets ensures DecTxEntry(l, EncTxEntry(e) + rest) == Parsed(e, rest) {
      ReadsTxEntryBefore(l, e, rest);
    }
  }

  lemma ReadsTxEntryBefore(l: Limits, e: TxEntry, rest: Octets)
    requires AmountFits(l, e.amount)
    ensures DecTxEntry(l, EncTxEntry(e) + rest) == Parsed(e, rest)
  {
    Regroup2(EncHash(e.publicKey), EncAmount(e.amount), rest);
    ReadsHash(e.publicKey, EncAmount(e.amount) + rest);
    ReadsAmount(l, e.amount, rest);
  }

  lemma ReadsNumbers(l: Limits, c: TxCore, rest: Octets)
    requires |c.data| <= l.items
    ensures DecNumbers(l, c.txType, c.entries, EncNumbers(c) + rest) == Parsed(c, rest)
  {
    var b3 := EncBytes(c.data) + rest;
    var b2 := EncU64(c.fees) + b3;
    var b1 := EncU32(c.lockTime) + b2;
    Regroup4(EncU64(c.nonce), EncU32(c.lockTime), EncU64(c.fees), EncBytes(c.data), rest);
    ReadsU64(c.nonce, b1);
    ReadsU32(c.lockTime, b2);
    ReadsU64(c.fees, b3);
    ReadsBytes(l.items, c.data, rest);
  }

  lemma ReadsCore(l: Limits, c: TxCore, rest: Octets)
    requires CoreFits(l, c)
    ensures DecCore(l, EncCore(c) + rest) == Parsed(c, rest)
  {
    forall i | 0 <= i < |c.entries| ensures Reads(EncTxEntry, TxEntryDecoder(l), c.entries[i]) {
      ReadsTxEntry(l, c.entries[i]);
    }
    var b2 := EncNumbers(c) + rest;
    var b1 := EncVec(EncTxEntry, c.entries) + b2;
    assert EncCore(c) + rest == EncType(c.txType) + b1;
    ReadsType(c.txType, b1);
    ReadsVec(EncTxEntry, TxEntryDecoder(l), l.items, c.entries, b2);
    ReadsNumbers(l, c, rest);
  }

  lemma ReadsOptional(l: Limits, k: Option<Octets>, rest: Octets)
    requires KeyFits(l, k)
    ensures DecOptional(l, EncOptional(k) + rest) == Parsed(k, rest)
  {
    match k
    case None => assert (EncOptional(k) + rest)[1..] == rest;
    case Some(x) =>
      Tagged(1, EncBytes(x), rest);
      ReadsBytes(l.items, x, rest);
  }

  lemma ReadsV1(l: Limits, t: TransactionV1, rest: Octets)
    requires CoreFits(l, t.core) && |t.signature| <= l.items
    ensures DecV1(l, EncV1(t) + rest) == Parsed(t, rest)
  {
    var b2 := EncU64(t.timestamp) + rest;
    var b1 := EncBytes(t.signature) + b2;
    Regroup3(EncCore(t.core), EncBytes(t.signature), EncU64(t.timestamp), rest);
    ReadsCore(l, t.core, b1);
    ReadsBytes(l.items, t.signature, b2);
    ReadsU64(t.timestamp, rest);
  }

  lemma ReadsV2(l: Limits, t: Transaction, rest: Octets)
    requires TransactionFits(l, t)
    ensures DecV2(l, EncV2(t) + rest) == Parsed(t, rest)
  {
    var b4 := EncU64(t.timestamp) + rest;
    var b3 := EncOptional(t.senderKey) + b4;
    var b2 := EncBytes(t.signature) + b3;
    var b1 := [t.scheme] + b2;
    Regroup5(EncCore(t.core), [t.scheme], EncBytes(t.signature), EncOptional(t.senderKey), EncU64(t.timestamp), rest);
    ReadsCore(l, t.core, b1);
    assert b1[1..] == b2;
    ReadsBytes(l.items, t.signature, b3);
    ReadsOptional(l, t.senderKey, b4);
    ReadsU64(t.timestamp, rest);
  }

  // ---------- a short encoding has short parts ----------

  lemma {:induction false} FlatLength<T>(enc: Encoder<T>, items: seq<T>, i: nat)
    requires i < |items|
    requires forall j :: 0 <= j < |items| ==> |enc(items[j])| > 0
    ensures |Flat(enc, items)| >= |items|
    ensures |Flat(enc, items)| >= |enc(items[i])|
  {
    if |items| > 1 { FlatLength(enc, items[1..], if i == 0 then 0 else i - 1); }
  }

  lemma {:induction false} FlatOfBytes(x: Octets)
    ensures |Flat(EncU8, x)| == |x|
  {
    if x != [] { FlatOfBytes(x[1..]); }
  }

  lemma CoreShort(c: TxCore)
    requires |EncCore(c)| <= MAX_WIRE_BYTES
    ensures CoreFits(READER, c)
  {
    FlatOfBytes(c.data);
    var body := Flat(EncTxEntry, c.entries);
    forall i | 0 <= i < |c.entries| ensures |c.entries| <= |body| && AmountFits(READER, c.entries[i].amount) {
      FlatLength(EncTxEntry, c.entries, i);
      if c.entries[i].amount.Confidential? { FlatOfBytes(c.entries[i].amount.rangeProof); }
    }
    if c.entries != [] { assert AmountFits(READER, c.entries[0].amount); }
  }

  lemma V2Short(t: Transaction)
    requires |EncodeWireV2(t)| <= MAX_WIRE_BYTES
    ensures TransactionFits(READER, t)
  {
    assert |EncCore(t.core)| <= |EncV2(t)|;
    CoreShort(t.core);
    FlatOfBytes(t.signature);
    if t.senderKey.Some? { FlatOfBytes(t.senderKey.value); }
  }

  lemma SplitMagic(magic: Octets, body: Octets, extra: Octets)
    requires |magic| == 4
    ensures ((magic + body) + extra)[..4] == magic && ((magic + body) + extra)[4..] == body + extra
  {}

  /** A v2 encoding decodes to the transaction it came from exactly when it fits 64 KiB. */
  lemma WireV2RoundTrip(t: Transaction, legacy: Octets -> Option<TransactionV1>)
    ensures DecodeWire(EncodeWireV2(t), legacy) == if |EncodeWireV2(t)| <= 65_536 then Ok(t) else TooLarge
  {
    var b := EncodeWireV2(t);
    if |b| <= MAX_WIRE_BYTES {
      V2Short(t);
      ReadsV2(READER, t, []);
      assert b[..4] == MAGIC_V2 && b[4..] == EncV2(t) + [];
    }
  }

  lemma V1Short(v1: TransactionV1)
    requires |EncV1(v1)| <= MAX_WIRE_BYTES
    ensures DecV1(READER, EncV1(v1)) == Parsed(v1, [])
  {
    assert |EncCore(v1.core)| <= |EncV1(v1)|;
    CoreShort(v1.core);
    FlatOfBytes(v1.signature);
    ReadsV1(READER, v1, []);
    assert EncV1(v1) + [] == EncV1(v1);
  }

  lemma DecodesV1(body: Octets, v1: TransactionV1, legacy: Octets -> Option<TransactionV1>)
    requires |body| <= MAX_WIRE_BYTES - 4 && DecV1(READER, body) == Parsed(v1, [])
    ensures DecodeWire(MAGIC_V1 + body, legacy) == Ok(FromV1(v1))
  {
    var b := MAGIC_V1 + body;
    assert b[..4] == MAGIC_V1 && b[4..] == body;
    assert MAGIC_V1 != MAGIC_V2 by { assert MAGIC_V1[3] != MAGIC_V2[3]; }
  }

  /** A v1 encoding decodes to the transaction with the Schnorr scheme and no key blob. */
  lemma WireV1RoundTrip(t: Transaction, legacy: Octets -> Option<TransactionV1>)
    ensures DecodeWire(EncodeWireV1(t), legacy) ==
              if |EncodeWireV1(t)| <= 65_536 then Ok(t.(scheme := 0, senderKey := None)) else TooLarge
  {
    var v1 := TransactionV1(t.core, t.signature, t.timestamp);
    if |EncodeWireV1(t)| <= 65_536 {
      V1Short(v1);
      DecodesV1(EncV1(v1), v1, legacy);
    }
  }

  /** The decoder ignores what follows a complete transaction. */
  lemma TrailingBytesIgnored(t: Transaction, extra: Octets, legacy: Octets -> Option<TransactionV1>)
    requires |EncodeWireV2(t) + extra| <= MAX_WIRE_BYTES
    ensures DecodeWire(EncodeWireV2(t) + extra, legacy) == Ok(t)
  {
    V2Short(t);
    ReadsV2(READER, t, extra);
    SplitMagic(MAGIC_V2, EncV2(t), extra);
  }

  // ---------- signing payloads ----------

  // CATALYST_SIG_V1 and CATALYST_SIG_V2
  const DOMAIN_V1: Octets := [67, 65, 84, 65, 76, 89, 83, 84, 95, 83, 73, 71, 95, 86, 49]
  const DOMAIN_V2: Octets := [67, 65, 84, 65, 76, 89, 83, 84, 95, 83, 73, 71, 95, 86, 50]

  function SigningPayloadV1(core: TxCore, timestamp: U64, chainId: U64, genesis: Hash): Octets {
    DOMAIN_V1 + (EncU64(chainId) + (EncHash(genesis) + (EncCore(core) + EncU64(timestamp))))
  }

  function SigningPayloadV2(
    core: TxCore, timestamp: U64, chainId: U64, genesis: Hash, scheme: U8, key: Option<Octets>): Octets
  {
    DOMAIN_V2 + (EncU64(chainId) + (EncHash(genesis) +
      ([scheme] + (EncOptional(key) + (EncCore(core) + EncU64(timestamp))))))
  }

  lemma SameSuffix(prefix: Octets, a: Octets, b: Octets)
    requires prefix + a == prefix + b
    ensures a == b
  {
    assert a == (prefix + a)[|prefix|..] && b == (prefix + b)[|prefix|..];
  }

  lemma CoreAndTimeInjective(c: TxCore, s: U64, d: TxCore, t: U64)
    requires CoreFits(FIELD, c) && CoreFits(FIELD, d)
    requires EncCore(c) + EncU64(s) == EncCore(d) + EncU64(t)
    ensures c == d && s == t
  {
    ReadsCore(FIELD, c, EncU64(s));
    ReadsCore(FIELD, d, EncU64(t));
    ReadsU64(s, []);
    ReadsU64(t, []);
    assert EncU64(s) + [] == EncU64(s) && EncU64(t) + [] == EncU64(t);
  }

  lemma HeaderInjective(chain: U64, genesis: Hash, a: Octets, chain': U64, genesis': Hash, b: Octets)
    requires EncU64(chain) + (EncHash(genesis) + a) == EncU64(chain') + (EncHash(genesis') + b)
    ensures chain == chain' && genesis == genesis' && a == b
  {
    ReadsU64(chain, EncHash(genesis) + a);
    ReadsU64(chain', EncHash(genesis') + b);
    ReadsHash(genesis, a);
    ReadsHash(genesis', b);
  }

  /** A v2 payload determines every field that was signed. */
  lemma SigningV2Injective(
    core: TxCore, timestamp: U64, chain: U64, genesis: Hash, scheme: U8, key: Option<Octets>,
    core': TxCore, timestamp': U64, chain': U64, genesis': Hash, scheme': U8, key': Option<Octets>)
    requires CoreFits(FIELD, core) && KeyFits(FIELD, key)
    requires CoreFits(FIELD, core') && KeyFits(FIELD, key')
    requires SigningPayloadV2(core, timestamp, chain, genesis, scheme, key)
          == SigningPayloadV2(core', timestamp', chain', genesis', scheme', key')
    ensures core == core' && timestamp == timestamp' && chain == chain'
    ensures genesis == genesis' && scheme == scheme' && key == key'
  {
    var tail, tail' := EncCore(core) + EncU64(timestamp), EncCore(core') + EncU64(timestamp');
    var a, b := [scheme] + (EncOptional(key) + tail), [scheme'] + (EncOptional(key') + tail');
    SameSuffix(DOMAIN_V2, EncU64(chain) + (EncHash(genesis) + a), EncU64(chain') + (EncHash(genesis') + b));
    HeaderInjective(chain, genesis, a, chain', genesis', b);
    assert a[0] == b[0] && a[1..] == EncOptional(key) + tail && b[1..] == EncOptional(key') + tail';
    ReadsOptional(FIELD, key, tail);
    ReadsOptional(FIELD, key', tail');
    CoreAndTimeInjective(core, timestamp, core', timestamp');
  }

  lemma SigningV1Injective(
    core: TxCore, timestamp: U64, chain: U64, genesis: Hash,
    core': TxCore, timestamp': U64, chain': U64, genesis': Hash)
    requires CoreFits(FIELD, core) && CoreFits(FIELD, core')
    requires SigningPayloadV1(core, timestamp, chain, genesis) == SigningPayloadV1(core', timestamp', chain', genesis')
    ensures core == core' && timestamp == timestamp' && chain == chain' && genesis == genesis'
  {
    var tail, tail' := EncCore(core) + EncU64(timestamp), EncCore(core') + EncU64(timestamp');
    SameSuffix(DOMAIN_V1, EncU64(chain) + (EncHash(genesis) + tail), EncU64(chain') + (EncHash(genesis') + tail'));
    HeaderInjective(chain, genesis, tail, chain', genesis', tail');
    CoreAndTimeInjective(core, timestamp, core', timestamp');
  }

  /** No v1 payload is a v2 payload. */
  lemma SigningVersionsDisjoint(
    core: TxCore, timestamp: U64, chain: U64, genesis: Hash,
    core': TxCore, timestamp': U64, chain': U64, genesis': Hash, scheme: U8, key: Option<Octets>)
    ensures SigningPayloadV1(core, timestamp, chain, genesis)
         != SigningPayloadV2(core', timestamp', chain', genesis', scheme, key)
  {
    assert SigningPayloadV1(core, timestamp, chain, genesis)[14] == 49;
    assert SigningPayloadV2(core', timestamp', chain', genesis', scheme, key)[14] == 50;
  }

  // ---------- what the bytes look like ----------

  /** The order of the fields, on a transaction with one entry. */
  lemma TransactionLayout(key: Hash, blob: Byte)
    ensures var e := TxEntry(key, NonConfidential(-1));
            EncTxEntry(e) == key + ([0] + [255, 255, 255, 255, 255, 255, 255, 255])
    ensures var e := TxEntry(key, NonConfidential(-1));
            EncCore(TxCore(WorkerRegistration, [e], 2, 3, 4, [5])) ==
              [5] + (([1, 0, 0, 0] + EncTxEntry(e)) +
                     ([2, 0, 0, 0, 0, 0, 0, 0] + ([3, 0, 0, 0] + ([4, 0, 0, 0, 0, 0, 0, 0] + [1, 0, 0, 0, 5]))))
    ensures var core := TxCore(SmartContract, [], 2, 3, 4, []);
            EncodeWireV2(Transaction(core, 6, [7], Some([blob]), 8)) ==
              [67, 84, 88, 50] + (EncCore(core) + ([6] + ([1, 0, 0, 0, 7] +
                (([1] + [1, 0, 0, 0, blob]) + [8, 0, 0, 0, 0, 0, 0, 0]))))
    ensures var core := TxCore(SmartContract, [], 2, 3, 4, []);
            EncodeWireV1(Transaction(core, 6, [7], Some([blob]), 8)) ==
              [67, 84, 88, 49] + (EncCore(core) + ([1, 0, 0, 0, 7] + [8, 0, 0, 0, 0, 0, 0, 0]))
  {
    var e := TxEntry(key, NonConfidential(-1));
    MinusOne();
    OneItem(EncTxEntry, e);
    SmallNumbers(2);
    SmallNumbers(3);
    SmallNumbers(4);
    SmallNumbers(8);
    OneByteText(5);
    OneByteText(7);
    OneByteText(blob);
  }

  /** What is signed: the domain, the chain and its genesis come before the transaction. */
  lemma SigningLayout(core: TxCore, genesis: Hash, blob: Byte)
    ensures SigningPayloadV1(core, 8, 9, genesis) ==
              DOMAIN_V1 + ([9, 0, 0, 0, 0, 0, 0, 0] + (genesis + (EncCore(core) + [8, 0, 0, 0, 0, 0, 0, 0])))
    ensures SigningPayloadV2(core, 8, 9, genesis, 6, Some([blob])) ==
              DOMAIN_V2 + ([9, 0, 0, 0, 0, 0, 0, 0] + (genesis + ([6] + (([1] + [1, 0, 0, 0, blob]) +
                (EncCore(core) + [8, 0, 0, 0, 0, 0, 0, 0])))))
    ensures DOMAIN_V1[..14] == DOMAIN_V2[..14] && DOMAIN_V1[14] == 49 && DOMAIN_V2[14] == 50
  {
    SmallNumbers(8);
    SmallNumbers(9);
    OneByteText(blob);
  }
}
