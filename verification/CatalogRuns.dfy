/** Runs of the catalog in which something goes wrong. */
module CatalogRuns {
  import opened Wrappers
  import opened Keys
  import opened Versions
  import opened Records
  import opened BlobSpec
  import opened CatalogSpec

  function SomeInfo(url: string, version: Version): CardInfo {
    CardInfo(url, url, url, url, "", "", "", 0, version, 0, 0, false)
  }

  /** Saving a card under a URL of its own. */
  function SaveUrl(url: string, version: Version): Event {
    SaveCard(Metadata(Local, SomeInfo(url, version), CreatorInfo("", "", ""), []),
             Upload(Card("", []), true, Some(""), true), 0, 0)
  }

  ghost predicate NobodyKnows(t: Tables, url: string) {
    forall r :: r in t.records ==>
      && t.records[r].info.normalizedURL != url
      && t.records[r].info.characterID != url && t.records[r].info.platformID != url
  }

  /** A new card is written under the next identifier. */
  lemma NewCardIsWritten(t: Tables, url: string, version: Version)
    requires Sound(t) && t.lastRid < SIGN_BIT - 1 && NobodyKnows(t, url)
    ensures var e := SaveUrl(url, version);
            && Written(t, e).Some? && Written(t, e).value.1 == t.lastRid + 1 && t.lastRid + 1 !in t.records
            && Written(t, e).value.0.lastRid == t.lastRid + 1
            && Written(t, e).value.0.records[t.lastRid + 1].info == SomeInfo(url, version)
  {
    var e := SaveUrl(url, version);
    var row := SavedRow(e.meta, 0, 0);
    UnknownIsFree(t, row);
    WriteOutcome(t, [], Creator(Local, e.meta.creator), row, false, t.lastRid + 1);
    WriteResult(t, [], Creator(Local, e.meta.creator), row, false);
  }

  /** The blob store afterwards, as far as the runs below look at it. */
  lemma NewImageIsStored(be: Backend, v: Vault, e: Event, commits: bool)
    requires be.max >= 1 && Sound(v.tables) && e.SaveCard? && Storable(e.up)
    requires Written(v.tables, e).Some? && VersionsOf(v.blobs, Written(v.tables, e).value.1) == {}
    ensures var (v', outcome) := Write(be, v, e, commits);
            var (t, rid) := Written(v.tables, e).value;
            && RidsOf(be, v'.blobs) == RidsOf(be, v.blobs) + {rid}
            && VersionsOf(v'.blobs, rid) == Kept(be, {}, VersionOf(e))
            && v'.tables == if commits then t else v.tables
  {
    WrittenSound(v.tables, e);
    WriteParts(be, v, e, commits);
    var (t, rid) := Written(v.tables, e).value;
    var up := Tagged(e.up, CardTags(t, e, rid));
    PutOutcome(be, v.blobs, rid, VersionOf(e), up);
    PutKeeps(be, v.blobs, rid, VersionOf(e), up);
    PutRids(be, v.blobs, rid, VersionOf(e), up);
  }

  lemma RunOneMore(be: Backend, steps: seq<Step>, step: Step)
    ensures Run(be, steps + [step]) == Apply(be, Run(be, steps), step.event, step.commits).0
  {
    assert (steps + [step])[..|steps|] == steps;
  }

  /** One card, and nothing else. */
  ghost predicate OnlyCard(be: Backend, v: Vault, url: string, version: Version) {
    && v.tables.records.Keys == {1} && v.tables.records[1].info == SomeInfo(url, version) && v.tables.lastRid == 1
    && RidsOf(be, v.blobs) == {1} && VersionsOf(v.blobs, 1) == Kept(be, {}, version)
  }

  lemma AfterFirstSave(be: Backend, url: string, version: Version)
    requires be.max >= 1
    ensures OnlyCard(be, Run(be, [Step(SaveUrl(url, version), true)]), url, version)
  {
    var e := SaveUrl(url, version);
    RunOneMore(be, [], Step(e, true));
    assert [] + [Step(e, true)] == [Step(e, true)];
    NothingHeld(be);
    SavedFirst(be, EMPTY_VAULT, url, version);
  }

  lemma NothingHeld(be: Backend)
    ensures VersionsOf(EMPTY, 1) == {} && RidsOf(be, EMPTY) == {}
  {
  }

  lemma SavedFirst(be: Backend, v: Vault, url: string, version: Version)
    requires be.max >= 1 && Sound(v.tables) && v.tables.records == map[] && v.tables.lastRid == 0
    requires VersionsOf(v.blobs, 1) == {} && RidsOf(be, v.blobs) == {}
    ensures OnlyCard(be, Write(be, v, SaveUrl(url, version), true).0, url, version)
  {
    var e := SaveUrl(url, version);
    NewCardIsWritten(v.tables, url, version);
    WrittenSound(v.tables, e);
    NewImageIsStored(be, v, e, true);
  }

  // ---- a run that misleads

  lemma AfterFailedDelete(be: Backend, steps: seq<Step>, url: string, version: Version)
    requires OnlyCard(be, Run(be, steps), url, version)
    ensures var v := Run(be, steps + [Step(DeleteCards([1]), false)]);
            v.tables == Run(be, steps).tables && RidsOf(be, v.blobs) == {} && v.blobs.cards == map[]
  {
    RunOneMore(be, steps, Step(DeleteCards([1]), false));
    var st := Run(be, steps).blobs;
    DropCardsRids(be, st, [1]);
    DropCardsFrame(st, [1]);
    forall p | p in st.cards ensures p.0 == 1 {
      assert p.0 in RidsOf(be, st);
    }
  }

  lemma AfterFailedSave(be: Backend, steps: seq<Step>, url: string, version: Version, other: string)
    requires be.max >= 1 && url != other
    requires var v := Run(be, steps);
             && v.tables.records.Keys == {1} && v.tables.records[1].info == SomeInfo(url, version)
             && v.tables.lastRid == 1 && v.blobs.cards == map[] && RidsOf(be, v.blobs) == {}
    ensures var v := Run(be, steps + [Step(SaveUrl(other, version), false)]);
            v.tables == Run(be, steps).tables && RidsOf(be, v.blobs) == {2}
  {
    RunOneMore(be, steps, Step(SaveUrl(other, version), false));
    NewCardIsWritten(Run(be, steps).tables, other, version);
    NewImageIsStored(be, Run(be, steps), SaveUrl(other, version), false);
  }

  /** Two failed commits mislead BasicIntegrity: one record without a card, one card
      without a record, and it finds nothing wrong. */
  lemma CountsCanMislead(be: Backend, url: string, version: Version, other: string)
    requires be.max >= 1 && url != other
    ensures var v := Run(be, [Step(SaveUrl(url, version), true)] + [Step(DeleteCards([1]), false)] +
                             [Step(SaveUrl(other, version), false)]);
            CountsAgree(be, v) && RecordRids(v) == {1} && RidsOf(be, v.blobs) == {2}
  {
    var steps := [Step(SaveUrl(url, version), true)];
    AfterFirstSave(be, url, version);
    AfterFailedDelete(be, steps, url, version);
    AfterFailedSave(be, steps + [Step(DeleteCards([1]), false)], url, version, other);
    var v := Run(be, steps + [Step(DeleteCards([1]), false)] + [Step(SaveUrl(other, version), false)]);
    RecordCount(v);
    assert RecordRids(v) == {1};
    ElementCount(Listed(RidsOf(be, v.blobs)));
  }

  // ---- a run that loses a save

  lemma SavedOver(v: Vault, url: string, newer: Version, older: Version)
    requires Sound(v.tables) && OnlyCard(Sqlite(1), v, url, newer) && older < newer
    ensures var v' := Write(Sqlite(1), v, SaveUrl(url, older), true).0;
            1 in v'.tables.records && v'.tables.records[1].info.updateTime == older && !Readable(v', 1)
  {
    var e := SaveUrl(url, older);
    WriteOutcome(v.tables, [], Creator(Local, e.meta.creator), SavedRow(e.meta, 0, 0), false, 1);
    SaveKeepsIdentity(v.tables, e.meta, 0, 0, 1);
    WrittenSound(v.tables, e);
    WriteParts(Sqlite(1), v, e, true);
    OlderIsDropped(v.blobs, newer, older, Tagged(e.up, CardTags(Written(v.tables, e).value.0, e, 1)));
  }

  lemma OlderIsDropped(st: State, newer: Version, older: Version, up: Upload)
    requires VersionsOf(st, 1) == Kept(Sqlite(1), {}, newer) && older < newer && Storable(up)
    ensures Put(Sqlite(1), st, 1, older, up).1 == Done && (1, older) !in Put(Sqlite(1), st, 1, older, up).0.cards
  {
    PutOutcome(Sqlite(1), st, 1, older, up);
    PutKeeps(Sqlite(1), st, 1, older, up);
    NewestCount({newer}, 1);
    assert {} + {newer} == {newer};
    TooOldIsDropped({newer}, 1, older);
    HeldIffListed(Put(Sqlite(1), st, 1, older, up).0, 1, older);
  }

  /** With sqlblob set to one version, saving a card and then an older version of it
      leaves a record whose current version cannot be read. */
  lemma StaleSaveInARun(url: string, newer: Version, older: Version)
    requires older < newer
    ensures var v := Run(Sqlite(1), [Step(SaveUrl(url, newer), true)] + [Step(SaveUrl(url, older), true)]);
            1 in v.tables.records && v.tables.records[1].info.updateTime == older && !Readable(v, 1)
  {
    AfterFirstSave(Sqlite(1), url, newer);
    RunOneMore(Sqlite(1), [Step(SaveUrl(url, newer), true)], Step(SaveUrl(url, older), true));
    SavedOver(Run(Sqlite(1), [Step(SaveUrl(url, newer), true)]), url, newer, older);
  }

  // ---- a run after which saving what is read changes a creator

  function SomeRecord(url: string, source: Source, creatorSource: Source, version: Version): Record {
    Record(1, ImportData(0, 0), source, SomeInfo(url, version), [], Creator(creatorSource, CreatorInfo("", "", "")),
           SyncData(Success, 0), ExportData(-1, -1), false)
  }

  /** Restoring a record of one source whose creator is of another leaves a readable
      record for which saving what was read does change the creator. */
  lemma CreatorOfAnotherSource(be: Backend, url: string, source: Source, other: Source, version: Version)
    requires be.max >= 1 && ValidSource(source) && ValidSource(other) && source != other
    ensures var up := Upload(Card("", []), true, Some(""), true);
            var v := Run(be, [Step(RestoreCard(SomeRecord(url, source, other, version), up), true)]);
            && 1 in v.tables.records && Readable(v, 1)
            && FindRecord(v.tables, 1).value.source == source && FindRecord(v.tables, 1).value.creator.source == other
  {
    var rec := SomeRecord(url, source, other, version);
    var e := RestoreCard(rec, Upload(Card("", []), true, Some(""), true));
    RunOneMore(be, [], Step(e, true));
    assert [] + [Step(e, true)] == [Step(e, true)];
    RestoreSucceeds(NO_RECORDS, rec);
    NothingHeld(be);
    RestoredFirst(be, EMPTY_VAULT, e);
  }

  /** Saving that record as it was read files it under another creator. */
  lemma SavingChangesCreator(be: Backend, url: string, source: Source, other: Source, version: Version)
    requires be.max >= 1 && ValidSource(source) && ValidSource(other) && source != other
    ensures var up := Upload(Card("", []), true, Some(""), true);
            var v := Run(be, [Step(RestoreCard(SomeRecord(url, source, other, version), up), true)]);
            && 1 in v.tables.records
            && var rec := FindRecord(v.tables, 1).value;
               var (v', outcome) := Write(be, v, SaveCard(ToMetadata(rec), up, rec.info.updateTime, 0), true);
               && outcome == Done && 1 in v'.tables.records
               && v'.tables.records[1].creatorID != v.tables.records[1].creatorID
  {
    var up := Upload(Card("", []), true, Some(""), true);
    var steps := [Step(RestoreCard(SomeRecord(url, source, other, version), up), true)];
    CreatorOfAnotherSource(be, url, source, other, version);
    EveryRunIsBounded(be, steps);
    var rec := FindRecord(Run(be, steps).tables, 1).value;
    RepairTouchesLittle(be, Run(be, steps), 1, rec.info.bookUpdateTime, rec.info.greetingsCount, up);
  }

  lemma RestoredFirst(be: Backend, v: Vault, e: Event)
    requires be.max >= 1 && Sound(v.tables) && e.RestoreCard? && Storable(e.up) && VersionsOf(v.blobs, 1) == {}
    requires Written(v.tables, e).Some? && Written(v.tables, e).value.1 == 1
    ensures var v' := Write(be, v, e, true).0;
            v'.tables == Written(v.tables, e).value.0 && 1 in v'.tables.records && Readable(v', 1)
  {
    WrittenSound(v.tables, e);
    WriteParts(be, v, e, true);
    var (t, rid) := Written(v.tables, e).value;
    var up := Tagged(e.up, CardTags(t, e, rid));
    PutOutcome(be, v.blobs, 1, VersionOf(e), up);
    PutKeeps(be, v.blobs, 1, VersionOf(e), up);
    FirstVersionKept(be, VersionOf(e));
    HeldIffListed(Put(be, v.blobs, 1, VersionOf(e), up).0, 1, VersionOf(e));
  }

  lemma FirstVersionKept(be: Backend, v: int)
    requires be.max >= 1
    ensures v in Kept(be, {}, v)
  {
    SavedVersionSurvives({}, be.max, v);
  }
}
