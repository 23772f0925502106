/** The catalog: one record store and one blob store, written together. */
module Catalog {
  import opened Wrappers
  import opened Keys
  import opened Records
  import opened BlobSpec
  import opened BlobStores
  import opened CatalogSpec
  import RecordStore

  /** A decoded card, shared with the caller, whose tags a save overwrites. */
  class CharacterCard {
    var upload: Upload

    constructor (up: Upload)
      ensures upload == up
    {
      upload := up;
    }
  }

  method TagNamesOf(tags: seq<Tag>) returns (names: seq<string>)
    ensures names == TagNames(tags)
  {
    names := [];
    for i := 0 to |tags|
      invariant names == TagNames(tags)[..i]
    {
      names := names + [tags[i].name];
    }
  }

  method CollectDistinct(rids: seq<RID>) returns (seen: set<RID>)
    requires RecordStore.NoDuplicates(rids)
    ensures |seen| == |rids|
  {
    seen := {};
    for i := 0 to |rids|
      invariant |seen| == i && forall r :: r in seen ==> r in rids[..i]
    {
      seen := seen + {rids[i]};
    }
  }

  /** The blob store and the outcome when the steps of a save or a restore that started
      from t and st are done, and the open record transaction is yet to end. */
  ghost function ImageStep(be: Backend, t: Tables, st: State, e: Event): (State, Outcome)
    requires Sound(t) && (e.SaveCard? || e.RestoreCard?)
  {
    match Written(t, e)
    case None => (st, Failed)
    case Some((_, rid)) =>
      var (put, o) := Put(be, st, rid, VersionOf(e), CardAfter(t, e));
      (if o == Done then put else st, o)
  }

  /** The card as it is stored, once the record is written. */
  lemma SavedUpload(t: Tables, e: Event, t': Tables, rid: RID)
    requires Sound(t) && (e.SaveCard? || e.RestoreCard?) && Written(t, e) == Some((t', rid))
    ensures ReferencesOk(t') && rid in t'.records && t'.records[rid].info.updateTime == VersionOf(e)
    ensures CardAfter(t, e) == Tagged(e.up, CardTags(t', e, rid))
  {
    WrittenSound(t, e);
  }

  /** The record tables are written, or the call has failed; with the version and the
      tag names to store the image with. */
  ghost predicate RowWritten(t: Tables, e: Event, t': Tables, rid: Option<RID>, version: Version, tags: seq<string>)
    requires Sound(t) && (e.SaveCard? || e.RestoreCard?)
  {
    if rid.None? then Written(t, e) == None
    else
      && Written(t, e) == Some((t', rid.value)) && version == VersionOf(e)
      && e.up.(card := e.up.card.(tags := tags)) == CardAfter(t, e)
  }

  /** Ending the record transaction turns those steps into a whole write or none. */
  lemma ImageStepIsWrite(be: Backend, v: Vault, e: Event, t': Tables, commits: bool)
    requires Sound(v.tables) && (e.SaveCard? || e.RestoreCard?)
    requires Written(v.tables, e).Some? ==> t' == Written(v.tables, e).value.0
    ensures var (st', outcome) := ImageStep(be, v.tables, v.blobs, e);
            Write(be, v, e, commits) ==
            (Vault(if outcome == Done && commits then t' else v.tables, st'),
             if outcome == Done && !commits then Failed else outcome)
  {
    WriteParts(be, v, e, commits);
    if Written(v.tables, e).Some? {
      SavedUpload(v.tables, e, t', Written(v.tables, e).value.1);
    }
  }

  method SameCount(recordRids: seq<RID>, blobRids: seq<int>) returns (rids: Option<seq<RID>>)
    requires RecordStore.NoDuplicates(recordRids)
    ensures rids == if |recordRids| == |blobRids| then Some(recordRids) else None
  {
    if |recordRids| != |blobRids| {
      return None;
    }
    var seen := CollectDistinct(recordRids);
    if |seen| != |blobRids| || |seen| != |recordRids| {
      return None;
    }
    rids := Some(recordRids);
  }

  class Catalog {
    const records: RecordStore.Store
    const blobs: BlobStore

    ghost predicate Valid()
      reads records, blobs.Repr()
    {
      && blobs.Repr() != records
      && records.Valid() && !records.isTransaction
      && blobs.Valid() && !blobs.InTx()
    }

    ghost function Contents(): (v: Vault)
      reads records, blobs.Repr()
    {
      Vault(records.db, blobs.Current())
    }

    constructor (records: RecordStore.Store, blobs: BlobStore)
      requires blobs.Repr() != records && records.Valid() && !records.isTransaction && blobs.Valid() && !blobs.InTx()
      ensures Valid() && this.records == records && this.blobs == blobs
    {
      this.records := records;
      this.blobs := blobs;
    }

    method SaveCard(meta: Metadata, card: CharacterCard, time: int, index: int, commits: bool)
        returns (rid: RID, outcome: Outcome)
      requires Valid() && blobs.Repr() != card
      modifies records, blobs.Repr(), card
      ensures Valid()
      ensures var e := Event.SaveCard(meta, old(card.upload), time, index);
              && (Contents(), outcome) == CatalogSpec.Write(blobs.Kind(), old(Contents()), e, commits)
              && card.upload == CardAfter(old(records.db), e) && rid == GivenRid(old(records.db), e)
    {
      ghost var e := Event.SaveCard(meta, card.upload, time, index);
      var outer := records.BeginTx();
      rid, outcome := SaveInTx(meta, card, time, index);
      ImageStepIsWrite(blobs.Kind(), old(Contents()), e, records.tx, commits);
      outcome := records.EndTx(outer, outcome, commits);
    }

    /** What a save does inside the record transaction; the image comes last. */
    method SaveInTx(meta: Metadata, card: CharacterCard, time: int, index: int) returns (rid: RID, outcome: Outcome)
      requires blobs.Repr() != records && blobs.Repr() != card && blobs.Valid() && !blobs.InTx()
      requires records.Valid() && records.isTransaction
      modifies records`tx, blobs.Repr(), card
      ensures records.Valid() && blobs.Valid() && !blobs.InTx()
      ensures var e := Event.SaveCard(meta, old(card.upload), time, index);
              && (blobs.Current(), outcome) == ImageStep(blobs.Kind(), old(records.tx), old(blobs.Current()), e)
              && (Written(old(records.tx), e).Some? ==> records.tx == Written(old(records.tx), e).value.0)
              && card.upload == CardAfter(old(records.tx), e) && rid == GivenRid(old(records.tx), e)
    {
      ghost var before, e := records.tx, Event.SaveCard(meta, card.upload, time, index);
      var saved, version, tags := SaveRow(e, meta, time, index);
      if saved.None? {
        return 0, Failed;
      }
      rid := saved.value;
      outcome := StoreImage(before, e, rid, version, card, tags);
    }

    /** The record is written and read back for its version and tags. */
    method SaveRow(ghost e: Event, meta: Metadata, time: int, index: int)
        returns (saved: Option<RID>, version: Version, tags: seq<string>)
      requires records.Valid() && records.isTransaction
      requires e.SaveCard? && e == Event.SaveCard(meta, e.up, time, index)
      modifies records`tx
      ensures records.Valid()
      ensures RowWritten(old(records.tx), e, records.tx, saved, version, tags)
    {
      ghost var before := records.tx;
      saved := records.SaveRecord(meta, time, index);
      if saved.None? {
        return None, 0, [];
      }
      SavedUpload(before, e, records.tx, saved.value);
      var rec := records.FindRecord(saved.value);
      tags := TagNamesOf(rec.value.tags);
      version := rec.value.info.updateTime;
    }

    method RestoreCard(rec: Record, card: CharacterCard, commits: bool) returns (rid: RID, outcome: Outcome)
      requires Valid() && blobs.Repr() != card
      modifies records, blobs.Repr(), card
      ensures Valid()
      ensures var e := Event.RestoreCard(rec, old(card.upload));
              && (Contents(), outcome) == CatalogSpec.Write(blobs.Kind(), old(Contents()), e, commits)
              && card.upload == CardAfter(old(records.db), e) && rid == GivenRid(old(records.db), e)
    {
      ghost var e := Event.RestoreCard(rec, card.upload);
      var outer := records.BeginTx();
      rid, outcome := RestoreInTx(rec, card);
      ImageStepIsWrite(blobs.Kind(), old(Contents()), e, records.tx, commits);
      outcome := records.EndTx(outer, outcome, commits);
    }

    method RestoreInTx(rec: Record, card: CharacterCard) returns (rid: RID, outcome: Outcome)
      requires blobs.Repr() != records && blobs.Repr() != card && blobs.Valid() && !blobs.InTx()
      requires records.Valid() && records.isTransaction
      modifies records`tx, blobs.Repr(), card
      ensures records.Valid() && blobs.Valid() && !blobs.InTx()
      ensures var e := Event.RestoreCard(rec, old(card.upload));
              && (blobs.Current(), outcome) == ImageStep(blobs.Kind(), old(records.tx), old(blobs.Current()), e)
              && (Written(old(records.tx), e).Some? ==> records.tx == Written(old(records.tx), e).value.0)
              && card.upload == CardAfter(old(records.tx), e) && rid == GivenRid(old(records.tx), e)
    {
      ghost var before, e := records.tx, Event.RestoreCard(rec, card.upload);
      var restored, tags := RestoreRow(e, rec);
      if restored.None? {
        return 0, Failed;
      }
      rid := restored.value;
      outcome := StoreImage(before, e, rid, rec.info.updateTime, card, tags);
    }

    method RestoreRow(ghost e: Event, rec: Record) returns (restored: Option<RID>, tags: seq<string>)
      requires records.Valid() && records.isTransaction
      requires e.RestoreCard? && e == Event.RestoreCard(rec, e.up)
      modifies records`tx
      ensures records.Valid()
      ensures RowWritten(old(records.tx), e, records.tx, restored, rec.info.updateTime, tags)
    {
      ghost var before := records.tx;
      restored := records.RestoreRecord(rec);
      tags := TagNamesOf(rec.tags);
      if restored.Some? {
        SavedUpload(before, e, records.tx, restored.value);
      }
    }

    /** Overwrites the card's tags and stores its image: the last step of either. */
    method StoreImage(ghost t: Tables, ghost e: Event, rid: RID, version: Version, card: CharacterCard,
                      tags: seq<string>)
        returns (outcome: Outcome)
      requires blobs.Repr() != card && blobs.Valid() && !blobs.InTx()
      requires Sound(t) && (e.SaveCard? || e.RestoreCard?) && card.upload == e.up
      requires RowWritten(t, e, records.tx, Some(rid), version, tags)
      modifies blobs.Repr(), card
      ensures blobs.Valid() && !blobs.InTx() && card.upload == CardAfter(t, e)
      ensures (blobs.Current(), outcome) == ImageStep(blobs.Kind(), t, old(blobs.Current()), e)
    {
      card.upload := card.upload.(card := card.upload.card.(tags := tags));
      outcome := blobs.Put(rid, version, card.upload);
    }

    method Delete(rids: seq<RID>, commits: bool) returns (deleted: nat, outcome: Outcome)
      requires Valid()
      modifies records, blobs.Repr()
      ensures Valid()
      ensures (Contents(), outcome) == CatalogSpec.Delete(old(Contents()), rids, commits)
      ensures deleted == |old(records.db).records| - |records.db.records|
    {
      ghost var v := Contents();
      var outer := records.BeginTx();
      deleted, outcome := DeleteInTx(rids, v.blobs);
      outcome := records.EndTx(outer, outcome, commits);
      if outcome != Done {
        deleted := 0;
      }
    }

    method DeleteInTx(rids: seq<RID>, ghost st: State) returns (count: nat, outcome: Outcome)
      requires blobs.Repr() != records && blobs.Valid() && !blobs.InTx()
      requires records.Valid() && records.isTransaction && blobs.Current() == st
      modifies records`tx, blobs.Repr()
      ensures records.Valid() && blobs.Valid() && !blobs.InTx()
      ensures outcome == if Refused(rids) then Failed else Done
      ensures blobs.Current() == if outcome == Done then DropCards(st, rids) else st
      ensures records.tx == if outcome == Done then DeleteRecords(old(records.tx), Members(rids)) else old(records.tx)
      ensures outcome == Done ==> count == |old(records.tx).records| - |records.tx.records|
    {
      var deleted := records.Delete(rids);
      assert blobs.Current() == st;
      if deleted.None? {
        return 0, Failed;
      }
      count := deleted.value;
      outcome := DeleteBlobs(rids, st);
    }

    method DeleteBlobs(rids: seq<RID>, ghost st: State) returns (outcome: Outcome)
      requires blobs.Valid() && !blobs.InTx() && blobs.Current() == st
      requires !Refused(rids)
      modifies blobs.Repr()
      ensures blobs.Valid() && !blobs.InTx() && outcome == Done
      ensures blobs.Current() == DropCards(st, rids)
    {
      blobs.BeginTx();
      for i := 0 to |rids|
        invariant blobs.Valid() && blobs.InTx()
        invariant blobs.Current() == DropCards(st, rids[..i])
      {
        assert rids[..i + 1][..i] == rids[..i];
        assert rids[i] in rids && rids[i] < SIGN_BIT;
        outcome := blobs.Delete(rids[i]);
        assert outcome == Done;
      }
      assert rids[..|rids|] == rids;
      blobs.Commit();
      outcome := Done;
    }

    /** Only the number of identifiers is compared. */
    method BasicIntegrity() returns (rids: Option<seq<RID>>)
      requires Valid()
      ensures rids.Some? <==> CountsAgree(blobs.Kind(), Contents())
      ensures rids.Some? ==> forall r :: r in rids.value <==> r in Contents().tables.records
    {
      var recordRids := records.FindRIDs();
      var blobRids := blobs.RIDs();
      rids := SameCount(recordRids, blobRids);
    }

    method GetCardBytes(rid: RID, version: Version) returns (card: Option<Card>)
      requires Valid()
      ensures card == if Accepts(blobs.Kind(), rid) && (rid, version) in Contents().blobs.cards
                      then Some(Contents().blobs.cards[(rid, version)]) else None
    {
      card := blobs.GetCardBytes(rid, version);
    }

    method ThumbnailBytes(rid: RID) returns (image: Option<string>)
      requires Valid()
      ensures image == if Accepts(blobs.Kind(), rid) && rid in Contents().blobs.thumbs
                       then Some(Contents().blobs.thumbs[rid]) else None
    {
      image := blobs.ThumbnailBytes(rid);
    }
  }
}
