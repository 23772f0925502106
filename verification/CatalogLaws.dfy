/** What single calls of the catalog leave, said of the rows and images themselves. */
module CatalogLaws {
  import opened Wrappers
  import opened Bytes
  import opened Keys
  import opened Records
  import opened RecordLaws
  import opened BlobSpec
  import opened CatalogSpec

  // ---- what a deletion leaves

  /** Every other card holds the same images and the same thumbnail. */
  ghost predicate SameImages(st: State, st': State, r: RID) {
    && (forall version: Version :: (r, version) in st'.cards <==> (r, version) in st.cards)
    && (forall version: Version :: (r, version) in st.cards && (r, version) in st'.cards ==>
          st'.cards[(r, version)] == st.cards[(r, version)])
    && (r in st'.thumbs <==> r in st.thumbs)
    && (r in st.thumbs && r in st'.thumbs ==> st'.thumbs[r] == st.thumbs[r])
  }

  ghost predicate NoImages(st: State, r: RID) {
    (forall version: Version :: (r, version) !in st.cards) && r !in st.thumbs
  }

  /** After a deletion no record and no image of the given identifiers is left; every
      other record has the very same row and every other card the same images; the
      creators, the tags and the last identifier are untouched. Refused identifiers
      delete nothing. */
  lemma DeletionLeavesTheRest(v: Vault, rids: seq<RID>)
    ensures var (v', outcome) := CatalogSpec.Delete(v, rids, true);
            if exists r :: r in rids && r >= SIGN_BIT then v' == v && outcome == Failed
            else
              && outcome == Done
              && (forall r :: r in v'.tables.records <==> r in v.tables.records && r !in rids)
              && (forall r :: r in v'.tables.records ==> v'.tables.records[r] == v.tables.records[r])
              && v'.tables.creators == v.tables.creators && v'.tables.tags == v.tables.tags
              && v'.tables.lastRid == v.tables.lastRid
              && (forall r :: r in rids ==> NoImages(v'.blobs, r))
              && (forall r: RID :: r !in rids ==> SameImages(v.blobs, v'.blobs, r))
  {
    if !Refused(rids) {
      RecordsDeleted(v.tables, Members(rids));
      DropCardsFrame(v.blobs, rids);
      DropCardsValues(v.blobs, rids);
    }
  }

  /** A deletion whose record transaction does not commit takes the images alone. */
  lemma FailedDeletionTakesImages(v: Vault, rids: seq<RID>)
    requires forall r :: r in rids ==> r < SIGN_BIT
    ensures var (v', outcome) := CatalogSpec.Delete(v, rids, false);
            && outcome == Failed && v'.tables == v.tables
            && (forall r :: r in rids ==> NoImages(v'.blobs, r))
            && (forall r: RID :: r !in rids ==> SameImages(v.blobs, v'.blobs, r))
  {
    DropCardsFrame(v.blobs, rids);
    DropCardsValues(v.blobs, rids);
  }

  lemma {:induction false} DropCardsValues(st: State, rids: seq<RID>)
    ensures forall p :: p in DropCards(st, rids).cards ==> p in st.cards && DropCards(st, rids).cards[p] == st.cards[p]
    ensures forall r :: r in DropCards(st, rids).thumbs ==>
              r in st.thumbs && DropCards(st, rids).thumbs[r] == st.thumbs[r]
  {
    if rids != [] {
      DropCardsValues(st, rids[..|rids| - 1]);
    }
  }

  // ---- what a save or a restore leaves

  function UrlOf(e: Event): string
    requires e.SaveCard? || e.RestoreCard?
  {
    if e.SaveCard? then e.meta.info.normalizedURL else e.rec.info.normalizedURL
  }

  /** The identifier returned by a save or restore that succeeds is that of the one
      record that has the card's URL afterwards; without a record it is 0. */
  lemma ReturnedRid(be: Backend, v: Vault, e: Event)
    requires Sound(v.tables) && (e.SaveCard? || e.RestoreCard?)
    ensures Write(be, v, e, true).1 == Done ==>
              var v', rid := Write(be, v, e, true).0, GivenRid(v.tables, e);
              forall r :: r in v'.tables.records ==>
                (v'.tables.records[r].info.normalizedURL == UrlOf(e) <==> r == rid)
    ensures Write(be, v, e, true).1 == Done ==> GivenRid(v.tables, e) in Write(be, v, e, true).0.tables.records
    ensures Written(v.tables, e) == None ==> GivenRid(v.tables, e) == 0
  {
    WriteParts(be, v, e, true);
    if Write(be, v, e, true).1 == Done {
      WrittenSound(v.tables, e);
      var (t, rid) := Written(v.tables, e).value;
      WrittenInfo(v.tables, e);
      forall r | r in t.records && t.records[r].info.normalizedURL == UrlOf(e) ensures r == rid {
        OneRowPerUrl(t, r, rid);
      }
    }
  }

  lemma WrittenInfo(t: Tables, e: Event)
    requires Sound(t) && (e.SaveCard? || e.RestoreCard?) && Written(t, e).Some?
    ensures var (t', rid) := Written(t, e).value;
            rid in t'.records && t'.records[rid].info == if e.SaveCard? then e.meta.info else e.rec.info
  {
    match e
    case SaveCard(meta, _, time, index) => SaveKeepsIdentity(t, meta, time, index, 0);
    case RestoreCard(rec, _) => RestoreSound(t, rec);
  }

  /** A save or restore that succeeds touches no other record, no other creator, no
      name of a known tag, and no image of any other card. */
  lemma SaveLeavesTheRest(be: Backend, v: Vault, e: Event)
    requires be.max >= 1 && Sound(v.tables) && (e.SaveCard? || e.RestoreCard?) && Write(be, v, e, true).1 == Done
    ensures var v', rid := Write(be, v, e, true).0, GivenRid(v.tables, e);
            && (forall r :: r in v.tables.records && r != rid ==>
                  r in v'.tables.records && v'.tables.records[r] == v.tables.records[r])
            && (forall r :: r in v'.tables.records ==> r in v.tables.records || r == rid)
            && (forall c :: c in v.tables.creators && c != CreatorOf(e) ==>
                  c in v'.tables.creators && v'.tables.creators[c] == v.tables.creators[c])
            && (forall c :: c in v'.tables.creators ==> c in v.tables.creators || c == CreatorOf(e))
            && (forall id :: id in v.tables.tags ==>
                  id in v'.tables.tags && v'.tables.tags[id] == v.tables.tags[id])
            && (forall r: RID :: r != rid ==> SameImages(v.blobs, v'.blobs, r))
  {
    WriteParts(be, v, e, true);
    WrittenSound(v.tables, e);
    WrittenOthers(v.tables, e);
    var (t, rid) := Written(v.tables, e).value;
    PutLeavesOthers(be, v.blobs, rid, VersionOf(e), Tagged(e.up, CardTags(t, e, rid)));
  }

  lemma PutLeavesOthers(be: Backend, st: State, rid: RID, version: Version, up: Upload)
    ensures forall r: RID :: r != rid ==> SameImages(st, Put(be, st, rid, version, up).0, r)
  {
    PutFrame(be, st, rid, version, up);
  }

  function CreatorOf(e: Event): CID
    requires e.SaveCard? || e.RestoreCard?
  {
    if e.SaveCard? then CreatorId(e.meta.source, e.meta.creator.platformID)
    else CreatorId(e.rec.creator.source, e.rec.creator.info.platformID)
  }

  lemma WrittenOthers(t: Tables, e: Event)
    requires Sound(t) && (e.SaveCard? || e.RestoreCard?) && Written(t, e).Some?
    ensures var t' := Written(t, e).value.0;
            && (forall c :: c in t.creators && c != CreatorOf(e) ==>
                  c in t'.creators && t'.creators[c] == t.creators[c])
            && (forall c :: c in t'.creators ==> c in t.creators || c == CreatorOf(e))
            && (forall id :: id in t.tags ==> id in t'.tags && t'.tags[id] == t.tags[id])
  {
    match e
    case SaveCard(meta, _, time, index) =>
      WriteResult(t, meta.tags, Creator(meta.source, meta.creator), SavedRow(meta, time, index), false);
      InsertTagsMeaning(t.tags, meta.tags);
    case RestoreCard(rec, _) =>
      WriteResult(t, rec.tags, rec.creator, RestoredRow(rec), true);
      InsertTagsMeaning(t.tags, rec.tags);
  }

  /** The names that a save embeds in the image are those of the record's tags, one
      for one, in ascending order of their slugs. */
  lemma SavedNamesInOrder(be: Backend, v: Vault, e: Event)
    requires be.max >= 1 && Sound(v.tables) && Bounded(be, v.blobs) && e.SaveCard?
    requires Write(be, v, e, true).1 == Done && !TooOld(be, v.blobs, Written(v.tables, e).value.1, VersionOf(e))
    ensures var v', rid := Write(be, v, e, true).0, GivenRid(v.tables, e);
            && Sound(v'.tables) && rid in v'.tables.records && (rid, VersionOf(e)) in v'.blobs.cards
            && var names, tags := v'.blobs.cards[(rid, VersionOf(e))].tags, FindRecord(v'.tables, rid).value.tags;
               && |names| == |tags| && (forall i :: 0 <= i < |tags| ==> names[i] == tags[i].name)
               && forall i, j :: 0 <= i < j < |tags| ==> Less(tags[i].id, tags[j].id)
  {
    WriteSound(be, v, e, true);
    SavedCardReadsBack(be, v, e);
    FoundRecord(Write(be, v, e, true).0.tables, GivenRid(v.tables, e));
  }

  /** The names that a restore embeds are those of the given record, in its order. */
  lemma RestoredNames(be: Backend, v: Vault, e: Event)
    requires be.max >= 1 && Sound(v.tables) && Bounded(be, v.blobs) && e.RestoreCard?
    requires Write(be, v, e, true).1 == Done && !TooOld(be, v.blobs, Written(v.tables, e).value.1, VersionOf(e))
    ensures var v', rid := Write(be, v, e, true).0, GivenRid(v.tables, e);
            && (rid, VersionOf(e)) in v'.blobs.cards
            && var names := v'.blobs.cards[(rid, VersionOf(e))].tags;
               |names| == |e.rec.tags| && forall i :: 0 <= i < |e.rec.tags| ==> names[i] == e.rec.tags[i].name
  {
    SavedCardReadsBack(be, v, e);
  }

  // ---- the other calls

  /** The remaining calls leave every image alone, and write what RecordLaws says. */
  lemma OtherCalls(be: Backend, v: Vault, e: Event, commits: bool)
    requires Sound(v.tables) && !e.SaveCard? && !e.RestoreCard? && !e.DeleteCards?
    ensures var (v', outcome) := Apply(be, v, e, commits);
            && v'.blobs == v.blobs
            && (e.CleanupCreators? ==> outcome == Done && v'.tables.records == v.tables.records)
            && (e.UpdateSyncData? ==>
                  if e.rid in v.tables.records && ValidStatus(e.sync.status)
                  then outcome == Done && OneRowChanged(v.tables, e.rid, v'.tables)
                       && v'.tables.records[e.rid] == v.tables.records[e.rid].(sync := e.sync)
                  else outcome == Failed && v' == v)
            && (e.UpdateExportData? ==>
                  if e.rid in v.tables.records
                  then outcome == Done && OneRowChanged(v.tables, e.rid, v'.tables)
                       && v'.tables.records[e.rid] == v.tables.records[e.rid].(exported := e.exported)
                  else outcome == Failed && v' == v)
            && (e.UpdateFavoriteData? && (forall r :: r in e.rids ==> r < SIGN_BIT) ==>
                  && outcome == Done && v'.tables.records.Keys == v.tables.records.Keys
                  && forall r :: r in v.tables.records ==>
                       v'.tables.records[r] ==
                       if r in e.rids then v.tables.records[r].(favorite := e.favorite) else v.tables.records[r])
  {
  }
}
