/** The node's database as far as recovery and retention use it: metadata by key, account state,
    and named snapshots of everything. */
module Store {
  import opened Binary

  /** The four values kept for an applied cycle. */
  datatype Field = LsuBytes | LsuHash | LsuStateRoot | LsuCid

  /** The formatted metadata keys; different formats never produce the same string. */
  datatype Key =
    | History(field: Field, cycle: U64)
    | CheckpointAt(cycle: U64)
    | CheckpointLatest
    | AppliedCycle
    | AppliedRoot
    | AppliedHash
    | PrunedUpTo
    | TxIds(cycle: U64)
    | TxBatchCommit(cycle: U64)
    | CycleByHash(hash: Hash)
    | TxRaw(txid: Hash)
    | TxMeta(txid: Hash)
    | OtherKey(name: Octets)

  type Meta = map<Key, Octets>

  function Get(m: Meta, k: Key): Option<Octets> { if k in m then Some(m[k]) else None }

  function GetU64(m: Meta, k: Key): Option<U64> {
    match Get(m, k)
    case None => None
    case Some(b) => U64FromBytes(b)
  }

  datatype Database = Database(meta: Meta, accounts: map<Octets, Octets>)

  class Storage {
    var db: Database
    var snapshots: map<Octets, Database>
    var rootCache: Hash

    constructor ()
      ensures db == Database(map[], map[]) && snapshots == map[]
    {
      db := Database(map[], map[]);
      snapshots := map[];
      rootCache := ZERO_HASH;
    }

    method SetMetadata(k: Key, v: Octets)
      modifies this
      ensures db == old(db).(meta := old(db).meta[k := v])
      ensures snapshots == old(snapshots) && rootCache == old(rootCache)
    {
      db := db.(meta := db.meta[k := v]);
    }

    method DeleteMetadata(k: Key)
      modifies this
      ensures db == old(db).(meta := old(db).meta - {k})
      ensures snapshots == old(snapshots) && rootCache == old(rootCache)
    {
      db := db.(meta := db.meta - {k});
    }

    /** A name is used once. */
    method CreateSnapshot(name: Octets) returns (ok: bool)
      modifies this
      ensures ok <==> name !in old(snapshots)
      ensures db == old(db) && rootCache == old(rootCache)
      ensures snapshots == if ok then old(snapshots)[name := old(db)] else old(snapshots)
    {
      ok := name !in snapshots;
      if ok { snapshots := snapshots[name := db]; }
    }

    /** Everything reverts, metadata included. */
    method LoadSnapshot(name: Octets) returns (ok: bool)
      modifies this
      ensures ok <==> name in old(snapshots)
      ensures db == if ok then old(snapshots)[name] else old(db)
      ensures snapshots == old(snapshots) && rootCache == old(rootCache)
    {
      ok := name in snapshots;
      if ok { db := snapshots[name]; }
    }
  }
}
