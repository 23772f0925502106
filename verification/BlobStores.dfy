/** The blob store a vault was created with: one interface, two backends. */
module BlobStores {
  import opened Wrappers
  import opened Keys
  import opened Versions
  import opened BlobSpec
  import PebbleBlobStore
  import SqliteBlobStore

  datatype BlobStore = OnPebble(pebble: PebbleBlobStore.Store) | OnSqlite(sqlite: SqliteBlobStore.Store) {

    function Repr(): object {
      match this
      case OnPebble(store) => store
      case OnSqlite(store) => store
    }

    ghost predicate Valid()
      reads Repr()
    {
      match this
      case OnPebble(store) => store.Valid()
      case OnSqlite(store) => store.Valid()
    }

    predicate InTx()
      reads Repr()
    {
      match this
      case OnPebble(store) => store.isTransaction
      case OnSqlite(store) => store.isTransaction
    }

    ghost function Kind(): Backend {
      match this
      case OnPebble(store) => store.Kind()
      case OnSqlite(store) => store.Kind()
    }

    /** What a caller reads: the open transaction's view, or what is committed. */
    ghost function Current(): State
      reads Repr()
    {
      match this
      case OnPebble(store) => store.current
      case OnSqlite(store) => store.Current()
    }

    method BeginTx()
      requires Valid() && !InTx()
      modifies Repr()
      ensures Valid() && InTx() && Current() == old(Current())
    {
      match this
      case OnPebble(store) => var outer := store.BeginTx();
      case OnSqlite(store) => var outer := store.BeginTx();
    }

    /** Ends a transaction whose function succeeded. */
    method Commit()
      requires Valid() && InTx()
      modifies Repr()
      ensures Valid() && !InTx() && Current() == old(Current())
    {
      match this
      case OnPebble(store) => store.EndTx(true, Done);
      case OnSqlite(store) => store.EndTx(true, Done);
    }

    method Put(rid: RID, v: Version, up: Upload) returns (outcome: Outcome)
      requires Valid() && !InTx()
      modifies Repr()
      ensures Valid() && !InTx()
      ensures var (st, o) := BlobSpec.Put(Kind(), old(Current()), rid, v, up);
              outcome == o && Current() == if o == Done then st else old(Current())
    {
      match this
      case OnPebble(store) => outcome := store.PutVersion(rid, v, up);
      case OnSqlite(store) => outcome := store.PutVersion(rid, v, up);
    }

    method Delete(rid: RID) returns (outcome: Outcome)
      requires Valid() && InTx()
      modifies Repr()
      ensures Valid() && InTx()
      ensures outcome == if Accepts(Kind(), rid) then Done else Failed
      ensures Current() == if outcome == Done then DropCard(old(Current()), rid) else old(Current())
    {
      match this
      case OnPebble(store) =>
        store.DeleteCard(rid);
        outcome := Done;
      case OnSqlite(store) =>
        outcome := store.DeleteCard(rid);
    }

    method RIDs() returns (rids: seq<int>)
      requires Valid()
      ensures rids == Listed(RidsOf(Kind(), Current()))
    {
      match this
      case OnPebble(store) => rids := store.GetRIDs();
      case OnSqlite(store) => rids := store.GetRIDs();
    }

    method GetCardBytes(rid: RID, v: Version) returns (card: Option<Card>)
      requires Valid()
      ensures card == if Accepts(Kind(), rid) && (rid, v) in Current().cards
                      then Some(Current().cards[(rid, v)]) else None
    {
      match this
      case OnPebble(store) => card := store.GetRawCardBytes(rid, v);
      case OnSqlite(store) => card := store.GetRawCardBytes(rid, v);
    }

    method ThumbnailBytes(rid: RID) returns (image: Option<string>)
      requires Valid()
      ensures image == if Accepts(Kind(), rid) && rid in Current().thumbs then Some(Current().thumbs[rid]) else None
    {
      match this
      case OnPebble(store) => image := store.ThumbnailBytes(rid);
      case OnSqlite(store) => image := store.ThumbnailBytes(rid);
    }
  }
}
