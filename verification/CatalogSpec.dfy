/** What a vault means: its records and its card images, written together. */
module CatalogSpec {
  import opened Wrappers
  import opened Keys
  import opened Versions
  import opened Records
  import opened BlobSpec

  datatype Vault = Vault(tables: Tables, blobs: State)

  const EMPTY_VAULT := Vault(NO_RECORDS, EMPTY)

  /** A card's embedded tags are replaced by the names of the record's. */
  function Tagged(up: Upload, tags: seq<Tag>): Upload {
    up.(card := up.card.(tags := TagNames(tags)))
  }

  datatype Event =
    | SaveCard(meta: Metadata, up: Upload, time: int, index: int)
    | RestoreCard(rec: Record, up: Upload)
    | DeleteCards(rids: seq<RID>)
    | CleanupCreators
    | UpdateSyncData(rid: RID, sync: SyncData)
    | UpdateExportData(rid: RID, exported: ExportData)
    | UpdateFavoriteData(favorite: bool, rids: seq<RID>)

  // ---- single calls

  /** What a save or a restore writes into the record tables. */
  ghost function Written(t: Tables, e: Event): Option<(Tables, RID)>
    requires e.SaveCard? || e.RestoreCard?
  {
    match e
    case SaveCard(meta, _, time, index) => SaveRecord(t, meta, time, index)
    case RestoreCard(rec, _) => RestoreRecord(t, rec)
  }

  function VersionOf(e: Event): Version
    requires e.SaveCard? || e.RestoreCard?
  {
    if e.SaveCard? then e.meta.info.updateTime else e.rec.info.updateTime
  }

  /** A save embeds the tags as the database lists them, a restore as they were given. */
  ghost function CardTags(t: Tables, e: Event, rid: RID): seq<Tag>
    requires e.SaveCard? || e.RestoreCard?
    requires ReferencesOk(t) && rid in t.records
  {
    if e.SaveCard? then FindRecord(t, rid).value.tags else e.rec.tags
  }

  lemma WrittenSound(t: Tables, e: Event)
    requires Sound(t) && (e.SaveCard? || e.RestoreCard?) && Written(t, e).Some?
    ensures var (t', rid) := Written(t, e).value;
            && Sound(t') && rid in t'.records && t'.records.Keys == t.records.Keys + {rid}
            && t'.records[rid].info.updateTime == VersionOf(e)
            && (forall r :: r in t.records && r != rid ==> t'.records[r] == t.records[r])
            && rid < SIGN_BIT
  {
    match e
    case SaveCard(meta, _, time, index) =>
      SaveSound(t, meta, time, index);
      SaveKeepsIdentity(t, meta, time, index, 0);
    case RestoreCard(rec, _) =>
      RestoreSound(t, rec);
  }

  /** The image is stored inside the record transaction; `commits` says whether that
      transaction's own commit, which comes last, succeeds. */
  ghost function Write(be: Backend, v: Vault, e: Event, commits: bool): (Vault, Outcome)
    requires Sound(v.tables) && (e.SaveCard? || e.RestoreCard?)
  {
    match Written(v.tables, e)
    case None => (v, Failed)
    case Some((t, rid)) =>
      WrittenSound(v.tables, e);
      var (blobs, outcome) := Put(be, v.blobs, rid, VersionOf(e), Tagged(e.up, CardTags(t, e, rid)));
      if outcome != Done then (v, outcome)
      else if commits then (Vault(t, blobs), Done)
      else (Vault(v.tables, blobs), Failed)
  }

  /** A write takes place in both stores or, as long as its commit works, in neither. */
  lemma WriteParts(be: Backend, v: Vault, e: Event, commits: bool)
    requires Sound(v.tables) && (e.SaveCard? || e.RestoreCard?)
    ensures var (v', outcome) := Write(be, v, e, commits);
            if Written(v.tables, e).None? then v' == v && outcome == Failed
            else
              var (t, rid) := Written(v.tables, e).value;
              && ReferencesOk(t) && rid in t.records
              && var (blobs, o) := Put(be, v.blobs, rid, VersionOf(e), Tagged(e.up, CardTags(t, e, rid)));
                 if o != Done then v' == v && outcome == o
                 else v' == Vault(if commits then t else v.tables, blobs) && outcome == if commits then Done else Failed
  {
    if Written(v.tables, e).Some? {
      WrittenSound(v.tables, e);
    }
  }

  /** The caller's card after the call: its tags are overwritten once the record is
      written, whether or not the image is then stored. */
  ghost function CardAfter(t: Tables, e: Event): Upload
    requires Sound(t) && (e.SaveCard? || e.RestoreCard?)
  {
    match Written(t, e)
    case None => e.up
    case Some((u, rid)) => WrittenSound(t, e); Tagged(e.up, CardTags(u, e, rid))
  }

  /** The identifier the call returns: the record's, even if storing its image fails. */
  ghost function GivenRid(t: Tables, e: Event): RID
    requires e.SaveCard? || e.RestoreCard?
  {
    if Written(t, e).Some? then Written(t, e).value.1 else 0
  }

  ghost function DropCards(st: State, rids: seq<RID>): State {
    if rids == [] then st else DropCard(DropCards(st, rids[..|rids| - 1]), rids[|rids| - 1])
  }

  ghost function Delete(v: Vault, rids: seq<RID>, commits: bool): (Vault, Outcome) {
    if Refused(rids) then (v, Failed)
    else
      var blobs := DropCards(v.blobs, rids);
      if commits then (Vault(DeleteRecords(v.tables, Members(rids)), blobs), Done)
      else (Vault(v.tables, blobs), Failed)
  }

  function OrSame(v: Vault, t: Option<Tables>): (Vault, Outcome) {
    if t.Some? then (v.(tables := t.value), Done) else (v, Failed)
  }

  ghost function Apply(be: Backend, v: Vault, e: Event, commits: bool): (Vault, Outcome)
    requires Sound(v.tables)
  {
    match e
    case SaveCard(_, _, _, _) => Write(be, v, e, commits)
    case RestoreCard(_, _) => Write(be, v, e, commits)
    case DeleteCards(rids) => Delete(v, rids, commits)
    case CleanupCreators => (v.(tables := CleanCreators(v.tables)), Done)
    case UpdateSyncData(rid, sync) => OrSame(v, SetSync(v.tables, rid, sync))
    case UpdateExportData(rid, exported) => OrSame(v, SetExported(v.tables, rid, exported))
    case UpdateFavoriteData(favorite, rids) =>
      if Refused(rids) then (v, Failed)
      else (v.(tables := SetFavorite(v.tables, Members(rids), favorite)), Done)
  }

  lemma WriteSound(be: Backend, v: Vault, e: Event, commits: bool)
    requires Sound(v.tables) && (e.SaveCard? || e.RestoreCard?)
    ensures var (v', outcome) := Write(be, v, e, commits);
            if outcome == Done then Written(v.tables, e).Some? && v'.tables == Written(v.tables, e).value.0
            else v'.tables == v.tables
    ensures Sound(Write(be, v, e, commits).0.tables)
  {
    if Written(v.tables, e).Some? {
      WrittenSound(v.tables, e);
    }
  }

  lemma ApplySound(be: Backend, v: Vault, e: Event, commits: bool)
    requires Sound(v.tables)
    ensures Sound(Apply(be, v, e, commits).0.tables)
  {
    match e
    case SaveCard(_, _, _, _) => WriteSound(be, v, e, commits);
    case RestoreCard(_, _) => WriteSound(be, v, e, commits);
    case DeleteCards(rids) => DeleteSound(v.tables, Members(rids));
    case CleanupCreators => CleanCreatorsSound(v.tables);
    case UpdateFavoriteData(favorite, rids) => FavoriteSound(v.tables, Members(rids), favorite);
    case UpdateSyncData(rid, sync) =>
      if SetSync(v.tables, rid, sync).Some? {
        RowUpdateSound(v.tables, rid, v.tables.records[rid].(sync := sync));
      }
    case UpdateExportData(rid, exported) =>
      if rid in v.tables.records {
        RowUpdateSound(v.tables, rid, v.tables.records[rid].(exported := exported));
      }
  }

  // ---- every run

  datatype Step = Step(event: Event, commits: bool)

  /** The vault after a run, from an empty one. */
  ghost function Run(be: Backend, steps: seq<Step>): (v: Vault)
    ensures Sound(v.tables)
  {
    if steps == [] then EMPTY_VAULT
    else
      var v := Run(be, steps[..|steps| - 1]);
      var step := steps[|steps| - 1];
      ApplySound(be, v, step.event, step.commits);
      Apply(be, v, step.event, step.commits).0
  }

  predicate DeletesCommit(steps: seq<Step>) {
    forall step :: step in steps && step.event.DeleteCards? ==> step.commits
  }

  predicate AllCommit(steps: seq<Step>) {
    forall step :: step in steps ==> step.commits
  }

  /** In every run, whatever fails, an identifier made of a source and a platform
      identifier finds that very creator, and no creator is filed twice. */
  lemma CreatorsInEveryRun(be: Backend, steps: seq<Step>, source: Source, platformID: string, c: CID)
    requires ValidSource(source)
    ensures var creators := Run(be, steps).tables.creators;
            c in creators ==>
              (creators[c].source == source && creators[c].info.platformID == platformID
               <==> c == CreatorId(source, platformID))
  {
    var creators := Run(be, steps).tables.creators;
    if c in creators {
      CreatorIdInjective(source, platformID, creators[c].source, creators[c].info.platformID);
    }
  }

  // ---- the current version of every record

  ghost predicate Readable(v: Vault, r: RID)
    requires r in v.tables.records
  {
    (r, v.tables.records[r].info.updateTime) in v.blobs.cards
  }

  /** sqlblob drops a version at once when it already holds as many as it may, all of them newer. */
  ghost predicate TooOld(be: Backend, st: State, rid: RID, version: Version) {
    && be.Sqlite? && (rid, version) !in st.cards
    && |VersionsOf(st, rid)| >= be.max && forall w :: w in VersionsOf(st, rid) ==> version < w
  }

  /** sqlblob never holds more versions of a card than configured. */
  ghost predicate Bounded(be: Backend, st: State) {
    be.Sqlite? ==> forall r: RID :: |VersionsOf(st, r)| <= be.max
  }

  lemma HeldIffListed(st: State, rid: RID, v: Version)
    ensures (rid, v) in st.cards <==> v in VersionsOf(st, rid)
  {
  }

  /** After a successful Put the new version is there unless it was too old, every
      other card is as it was, and the card is listed. */
  lemma PutReadable(be: Backend, st: State, rid: RID, version: Version, up: Upload)
    requires be.max >= 1 && Bounded(be, st) && Put(be, st, rid, version, up).1 == Done
    ensures var st' := Put(be, st, rid, version, up).0;
            && ((rid, version) in st'.cards <==> !TooOld(be, st, rid, version))
            && (forall r: RID, w: Version :: r != rid ==> ((r, w) in st'.cards <==> (r, w) in st.cards))
            && Bounded(be, st')
  {
    var st' := Put(be, st, rid, version, up).0;
    var held := VersionsOf(st, rid);
    PutKeeps(be, st, rid, version, up);
    PutFrame(be, st, rid, version, up);
    HeldIffListed(st, rid, version);
    HeldIffListed(st', rid, version);
    KeptUnlessTooOld(be, st, rid, version);
    if be.Sqlite? {
      PoliciesBounded(held, be.max, version);
    }
  }

  lemma KeptUnlessTooOld(be: Backend, st: State, rid: RID, version: Version)
    requires be.max >= 1 && Bounded(be, st)
    ensures version in Kept(be, VersionsOf(st, rid), version) <==> !TooOld(be, st, rid, version)
  {
    HeldIffListed(st, rid, version);
    if be.Sqlite? {
      SavedVersionSurvives(VersionsOf(st, rid), be.max, version);
    }
  }

  /** The records whose current version a run has lost, by a test made before each
      call: whether the version the record will have is among those kept. */
  ghost function Lost(be: Backend, steps: seq<Step>): set<RID> {
    if steps == [] then {}
    else
      var before, step := Run(be, steps[..|steps| - 1]), steps[|steps| - 1];
      LostAfter(be, before, step, Lost(be, steps[..|steps| - 1]))
  }

  ghost function LostAfter(be: Backend, v: Vault, step: Step, lost: set<RID>): set<RID>
    requires Sound(v.tables)
  {
    match step.event
    case SaveCard(_, _, _, _) => LostByWrite(be, v, step.event, step.commits, lost)
    case RestoreCard(_, _) => LostByWrite(be, v, step.event, step.commits, lost)
    case DeleteCards(rids) => lost + OrphanedBy(v, rids, step.commits)
    case _ => lost
  }

  /** A deletion whose record transaction does not commit has deleted the images only. */
  ghost function OrphanedBy(v: Vault, rids: seq<RID>, commits: bool): set<RID> {
    if commits || Refused(rids) then {} else Members(rids) * v.tables.records.Keys
  }

  ghost function LostByWrite(be: Backend, v: Vault, e: Event, commits: bool, lost: set<RID>): set<RID>
    requires Sound(v.tables) && (e.SaveCard? || e.RestoreCard?)
  {
    if Write(be, v, e, true).1 != Done then lost
    else
      var (t, rid) := Written(v.tables, e).value;
      var after := if commits then t else v.tables;
      if rid !in after.records then lost
      else if after.records[rid].info.updateTime in Kept(be, VersionsOf(v.blobs, rid), VersionOf(e)) then lost - {rid}
      else lost + {rid}
  }

  ghost predicate ReadableExcept(v: Vault, lost: set<RID>) {
    forall r :: r in v.tables.records ==> (Readable(v, r) <==> r !in lost)
  }

  lemma WriteReadable(be: Backend, v: Vault, e: Event, commits: bool, lost: set<RID>)
    requires be.max >= 1 && Sound(v.tables) && ReadableExcept(v, lost) && (e.SaveCard? || e.RestoreCard?)
    ensures ReadableExcept(Write(be, v, e, commits).0, LostByWrite(be, v, e, commits, lost))
  {
    WriteParts(be, v, e, true);
    WriteParts(be, v, e, commits);
    if Write(be, v, e, true).1 == Done {
      WrittenSound(v.tables, e);
      var (t, rid) := Written(v.tables, e).value;
      var up := Tagged(e.up, CardTags(t, e, rid));
      var st' := Put(be, v.blobs, rid, VersionOf(e), up).0;
      PutKeeps(be, v.blobs, rid, VersionOf(e), up);
      PutFrame(be, v.blobs, rid, VersionOf(e), up);
      var kept := Kept(be, VersionsOf(v.blobs, rid), VersionOf(e));
      WrittenReadable(be, v, if commits then t else v.tables, rid, st', kept, lost);
    }
  }

  /** Changing one record and its images: the others stay as readable as they were. */
  lemma WrittenReadable(be: Backend, v: Vault, t: Tables, rid: RID, st': State, kept: set<int>, lost: set<RID>)
    requires ReadableExcept(v, lost) && VersionsOf(st', rid) == kept
    requires forall r: RID, w: Version :: r != rid ==> ((r, w) in st'.cards <==> (r, w) in v.blobs.cards)
    requires forall r :: r in t.records && r != rid ==> r in v.tables.records && t.records[r] == v.tables.records[r]
    ensures ReadableExcept(Vault(t, st'),
              if rid !in t.records then lost
              else if t.records[rid].info.updateTime in kept then lost - {rid} else lost + {rid})
  {
    if rid in t.records {
      HeldIffListed(st', rid, t.records[rid].info.updateTime);
    }
    forall r | r in t.records && r != rid ensures Readable(Vault(t, st'), r) <==> r !in lost {
      assert Readable(v, r) <==> r !in lost;
    }
  }

  lemma {:induction false} DropCardsFrame(st: State, rids: seq<RID>)
    ensures forall p :: p in DropCards(st, rids).cards <==> p in st.cards && p.0 !in rids
    ensures forall r :: r in DropCards(st, rids).thumbs <==> r in st.thumbs && r !in rids
  {
    if rids != [] {
      DropCardsFrame(st, rids[..|rids| - 1]);
      assert rids == rids[..|rids| - 1] + [rids[|rids| - 1]];
    }
  }

  lemma DeleteReadable(v: Vault, rids: seq<RID>, commits: bool, lost: set<RID>)
    requires ReadableExcept(v, lost)
    ensures ReadableExcept(Delete(v, rids, commits).0, lost + OrphanedBy(v, rids, commits))
  {
    DropCardsFrame(v.blobs, rids);
  }

  lemma OthersReadable(be: Backend, v: Vault, e: Event, commits: bool, lost: set<RID>)
    requires Sound(v.tables) && !e.SaveCard? && !e.RestoreCard? && !e.DeleteCards?
    requires ReadableExcept(v, lost)
    ensures ReadableExcept(Apply(be, v, e, commits).0, lost) && Apply(be, v, e, commits).0.blobs == v.blobs
  {
    var v' := Apply(be, v, e, commits).0;
    forall r | r in v'.tables.records
      ensures r in v.tables.records && v'.tables.records[r].info == v.tables.records[r].info
    {
    }
  }

  /** In every run, whatever commits fail, a record's current version can be read
      exactly when the run has not lost it. */
  lemma {:induction false} CurrentVersionsReadable(be: Backend, steps: seq<Step>)
    requires be.max >= 1
    ensures ReadableExcept(Run(be, steps), Lost(be, steps))
  {
    if steps != [] {
      var front, step := steps[..|steps| - 1], steps[|steps| - 1];
      CurrentVersionsReadable(be, front);
      var v := Run(be, front);
      match step.event
      case SaveCard(_, _, _, _) => WriteReadable(be, v, step.event, step.commits, Lost(be, front));
      case RestoreCard(_, _) => WriteReadable(be, v, step.event, step.commits, Lost(be, front));
      case DeleteCards(rids) => DeleteReadable(v, rids, step.commits, Lost(be, front));
      case _ => OthersReadable(be, v, step.event, step.commits, Lost(be, front));
    }
  }

  // ---- what is lost when every commit succeeds

  lemma DropCardsBounded(be: Backend, st: State, rids: seq<RID>)
    requires Bounded(be, st)
    ensures Bounded(be, DropCards(st, rids))
  {
    DropCardsFrame(st, rids);
    forall r: RID ensures |VersionsOf(DropCards(st, rids), r)| <= |VersionsOf(st, r)| {
      assert VersionsOf(DropCards(st, rids), r) <= VersionsOf(st, r);
      SubsetCount(VersionsOf(DropCards(st, rids), r), VersionsOf(st, r));
    }
  }

  lemma WriteBounded(be: Backend, v: Vault, e: Event, commits: bool)
    requires be.max >= 1 && Sound(v.tables) && Bounded(be, v.blobs) && (e.SaveCard? || e.RestoreCard?)
    ensures Bounded(be, Write(be, v, e, commits).0.blobs)
  {
    WriteParts(be, v, e, commits);
    if Written(v.tables, e).Some? {
      var (t, rid) := Written(v.tables, e).value;
      var up := Tagged(e.up, CardTags(t, e, rid));
      if Put(be, v.blobs, rid, VersionOf(e), up).1 == Done {
        PutReadable(be, v.blobs, rid, VersionOf(e), up);
      }
    }
  }

  /** sqlblob never holds too many versions, in any run. */
  lemma {:induction false} EveryRunIsBounded(be: Backend, steps: seq<Step>)
    requires be.max >= 1
    ensures Bounded(be, Run(be, steps).blobs)
  {
    if steps != [] {
      var front, step := steps[..|steps| - 1], steps[|steps| - 1];
      EveryRunIsBounded(be, front);
      var v := Run(be, front);
      match step.event
      case SaveCard(_, _, _, _) => WriteBounded(be, v, step.event, step.commits);
      case RestoreCard(_, _) => WriteBounded(be, v, step.event, step.commits);
      case DeleteCards(rids) => DropCardsBounded(be, v.blobs, rids);
      case _ =>
    } else {
      assert forall r: RID :: VersionsOf(EMPTY, r) == {};
    }
  }

  /** No card holds more versions than configured, and none is negative. */
  ghost predicate SmallCards(be: Backend, st: State) {
    forall r: RID :: |VersionsOf(st, r)| <= be.max && forall v :: v in VersionsOf(st, r) ==> v >= 0
  }

  lemma PutKeepsSmall(be: Backend, st: State, rid: RID, version: Version, up: Upload)
    requires be.max >= 1 && SmallCards(be, st) && version >= 0 && Put(be, st, rid, version, up).1 == Done
    ensures SmallCards(be, Put(be, st, rid, version, up).0)
  {
    PutKeeps(be, st, rid, version, up);
    PutStaysBounded(be, st, rid, version, up);
  }

  lemma DropCardsSmall(be: Backend, st: State, rids: seq<RID>)
    requires SmallCards(be, st)
    ensures SmallCards(be, DropCards(st, rids))
  {
    DropCardsFrame(st, rids);
    var st' := DropCards(st, rids);
    forall r: RID ensures VersionsOf(st', r) <= VersionsOf(st, r) && |VersionsOf(st', r)| <= |VersionsOf(st, r)| {
      assert VersionsOf(st', r) <= VersionsOf(st, r);
      SubsetCount(VersionsOf(st', r), VersionsOf(st, r));
    }
  }

  lemma WriteKeepsSmall(be: Backend, v: Vault, e: Event, commits: bool)
    requires be.max >= 1 && Sound(v.tables) && SmallCards(be, v.blobs) && (e.SaveCard? || e.RestoreCard?)
    requires VersionOf(e) >= 0
    ensures SmallCards(be, Write(be, v, e, commits).0.blobs)
  {
    WriteParts(be, v, e, commits);
    if Written(v.tables, e).Some? {
      var (t, rid) := Written(v.tables, e).value;
      var up := Tagged(e.up, CardTags(t, e, rid));
      if Put(be, v.blobs, rid, VersionOf(e), up).1 == Done {
        PutKeepsSmall(be, v.blobs, rid, VersionOf(e), up);
      }
    }
  }

  predicate NoNegativeVersions(steps: seq<Step>) {
    forall step :: step in steps && (step.event.SaveCard? || step.event.RestoreCard?) ==> VersionOf(step.event) >= 0
  }

  lemma {:induction false} NonNegativeRunsAreSmall(be: Backend, steps: seq<Step>)
    requires be.max >= 1 && NoNegativeVersions(steps)
    ensures SmallCards(be, Run(be, steps).blobs)
  {
    if steps != [] {
      var front, step := steps[..|steps| - 1], steps[|steps| - 1];
      assert step in steps && forall s :: s in front ==> s in steps;
      NonNegativeRunsAreSmall(be, front);
      var v := Run(be, front);
      match step.event
      case SaveCard(_, _, _, _) => WriteKeepsSmall(be, v, step.event, step.commits);
      case RestoreCard(_, _) => WriteKeepsSmall(be, v, step.event, step.commits);
      case DeleteCards(rids) => DropCardsSmall(be, v.blobs, rids);
      case _ =>
    } else {
      assert forall r: RID :: VersionsOf(EMPTY, r) == {};
    }
  }

  /** In every run sqlblob holds at most the configured number of versions of a card,
      and so does pblob as long as no negative version is saved. */
  lemma VersionsInEveryRun(be: Backend, steps: seq<Step>, r: RID)
    requires be.max >= 1 && (be.Pebble? ==> NoNegativeVersions(steps))
    ensures |VersionsOf(Run(be, steps).blobs, r)| <= be.max
  {
    if be.Sqlite? {
      EveryRunIsBounded(be, steps);
    } else {
      NonNegativeRunsAreSmall(be, steps);
    }
  }

  /** A write that commits loses its record exactly when the version was too old. */
  lemma LostIffTooOld(be: Backend, v: Vault, e: Event, lost: set<RID>)
    requires be.max >= 1 && Sound(v.tables) && Bounded(be, v.blobs) && (e.SaveCard? || e.RestoreCard?)
    requires Write(be, v, e, true).1 == Done
    ensures var rid := Written(v.tables, e).value.1;
            LostByWrite(be, v, e, true, lost) ==
            if TooOld(be, v.blobs, rid, VersionOf(e)) then lost + {rid} else lost - {rid}
  {
    WriteParts(be, v, e, true);
    WrittenSound(v.tables, e);
    KeptUnlessTooOld(be, v.blobs, Written(v.tables, e).value.1, VersionOf(e));
  }

  /** As long as every commit succeeds pblob loses nothing, and sqlblob only what
      was too old when it was saved. */
  lemma {:induction false} CommittingRunsLose(be: Backend, steps: seq<Step>)
    requires be.max >= 1 && AllCommit(steps)
    ensures be.Pebble? ==> Lost(be, steps) == {}
    ensures Lost(be, steps) == TooOldSaves(be, steps)
  {
    if steps != [] {
      var front, step := steps[..|steps| - 1], steps[|steps| - 1];
      assert step in steps && forall s :: s in front ==> s in steps;
      CommittingRunsLose(be, front);
      EveryRunIsBounded(be, front);
      var v, e := Run(be, front), step.event;
      if (e.SaveCard? || e.RestoreCard?) && Write(be, v, e, true).1 == Done {
        LostIffTooOld(be, v, e, Lost(be, front));
      }
    }
  }

  /** The records whose latest save was too old. */
  ghost function TooOldSaves(be: Backend, steps: seq<Step>): set<RID> {
    if steps == [] then {}
    else
      var v, e := Run(be, steps[..|steps| - 1]), steps[|steps| - 1].event;
      var before := TooOldSaves(be, steps[..|steps| - 1]);
      if !e.SaveCard? && !e.RestoreCard? then before
      else if Write(be, v, e, true).1 != Done then before
      else
        var rid := Written(v.tables, e).value.1;
        if TooOld(be, v.blobs, rid, VersionOf(e)) then before + {rid} else before - {rid}
  }

  /** It does happen: with sqlblob set to two versions, saving version 4 of a card
      that holds 5 and 6 leaves a record whose current version cannot be read. */
  lemma StaleSaveIsLost(v: Vault, e: Event)
    requires Sound(v.tables) && Bounded(Sqlite(2), v.blobs)
    requires (e.SaveCard? || e.RestoreCard?) && VersionOf(e) == 4 && Storable(e.up)
    requires Written(v.tables, e).Some? && VersionsOf(v.blobs, Written(v.tables, e).value.1) == {5, 6}
    ensures var (v', outcome) := Write(Sqlite(2), v, e, true);
            var rid := Written(v.tables, e).value.1;
            outcome == Done && rid in v'.tables.records && !Readable(v', rid)
  {
    WrittenSound(v.tables, e);
    var (t, rid) := Written(v.tables, e).value;
    StalePutIsLost(v.blobs, rid, Tagged(e.up, CardTags(t, e, rid)));
  }

  lemma StalePutIsLost(st: State, rid: RID, up: Upload)
    requires Bounded(Sqlite(2), st) && VersionsOf(st, rid) == {5, 6} && Storable(up) && rid < SIGN_BIT
    ensures Put(Sqlite(2), st, rid, 4, up).1 == Done && (rid, 4) !in Put(Sqlite(2), st, rid, 4, up).0.cards
  {
    PutOutcome(Sqlite(2), st, rid, 4, up);
    HeldIffListed(st, rid, 4);
    PutReadable(Sqlite(2), st, rid, 4, up);
  }

  /** A card that was saved or restored, and was not too old, reads back as it was
      given, tagged with the names of its record's tags; its thumbnail is replaced. */
  lemma SavedCardReadsBack(be: Backend, v: Vault, e: Event)
    requires be.max >= 1 && Sound(v.tables) && Bounded(be, v.blobs) && (e.SaveCard? || e.RestoreCard?)
    requires Write(be, v, e, true).1 == Done && !TooOld(be, v.blobs, Written(v.tables, e).value.1, VersionOf(e))
    ensures var (v', rid) := (Write(be, v, e, true).0, Written(v.tables, e).value.1);
            && ReferencesOk(v'.tables) && rid in v'.tables.records && Readable(v', rid) && rid in v'.blobs.thumbs
            && v'.tables.records[rid].info.updateTime == VersionOf(e)
            && v'.blobs.cards[(rid, VersionOf(e))].body == e.up.card.body
            && v'.blobs.thumbs[rid] == e.up.thumbnail.value
            && (e.SaveCard? ==>
                  v'.blobs.cards[(rid, VersionOf(e))].tags == TagNames(FindRecord(v'.tables, rid).value.tags))
            && (e.RestoreCard? ==> v'.blobs.cards[(rid, VersionOf(e))].tags == TagNames(e.rec.tags))
  {
    WrittenSound(v.tables, e);
    var (t, rid) := Written(v.tables, e).value;
    var up := Tagged(e.up, CardTags(t, e, rid));
    PutReadable(be, v.blobs, rid, VersionOf(e), up);
    PutFrame(be, v.blobs, rid, VersionOf(e), up);
  }

  /** A call that fails with its commits working leaves both stores unchanged. */
  lemma FailureChangesNothing(be: Backend, v: Vault, e: Event)
    requires Sound(v.tables)
    ensures Apply(be, v, e, true).1 != Done ==> Apply(be, v, e, true).0 == v
  {
  }

  // ---- the identifiers in both stores

  ghost function RecordRids(v: Vault): set<int> {
    set r | r in v.tables.records
  }

  /** Some version of the card is there after a Put, whichever it is. */
  lemma PutListsCard(be: Backend, st: State, rid: RID, version: Version, up: Upload)
    requires be.max >= 1 && Put(be, st, rid, version, up).1 == Done
    ensures rid in RidsOf(be, Put(be, st, rid, version, up).0)
  {
    var st' := Put(be, st, rid, version, up).0;
    PutVersions(be, st, rid, version, up);
    if be.Sqlite? {
      NewestCount(VersionsOf(st, rid) + {version}, be.max);
      assert version in VersionsOf(st, rid) + {version};
      assert |VersionsOf(st', rid)| > 0;
    }
    var w := SomeMember(VersionsOf(st', rid));
    assert (rid, w) in st'.cards;
  }

  lemma PutRids(be: Backend, st: State, rid: RID, version: Version, up: Upload)
    requires be.max >= 1 && Put(be, st, rid, version, up).1 == Done
    ensures RidsOf(be, Put(be, st, rid, version, up).0) == RidsOf(be, st) + {rid}
  {
    var st' := Put(be, st, rid, version, up).0;
    PutListsCard(be, st, rid, version, up);
    PutFrame(be, st, rid, version, up);
    SameRids(be, st, st', rid);
  }

  lemma SameRids(be: Backend, st: State, st': State, rid: RID)
    requires forall p :: p in st'.cards && p.0 != rid ==> p in st.cards
    requires forall p :: p in st.cards && p.0 != rid ==> p in st'.cards
    requires forall r :: r != rid ==> (r in st'.thumbs <==> r in st.thumbs)
    requires rid in RidsOf(be, st')
    ensures RidsOf(be, st') == RidsOf(be, st) + {rid}
  {
    forall r | r != rid ensures r in RidsOf(be, st) <==> r in RidsOf(be, st') {
      assert forall p: (RID, Version) :: p.0 == r ==> (p in st.cards <==> p in st'.cards);
    }
  }

  lemma DropCardsRids(be: Backend, st: State, rids: seq<RID>)
    ensures RidsOf(be, DropCards(st, rids)) == RidsOf(be, st) - Members(rids)
  {
    DropCardsFrame(st, rids);
    var st' := DropCards(st, rids);
    forall r | r in RidsOf(be, st) && r !in rids ensures r in RidsOf(be, st') {
      if p :| p in st.cards && p.0 == r {
        assert p in st'.cards;
      }
    }
  }

  lemma WrittenRids(v: Vault, e: Event, blobs: State)
    requires Sound(v.tables) && (e.SaveCard? || e.RestoreCard?) && Written(v.tables, e).Some?
    ensures var (t, rid) := Written(v.tables, e).value;
            RecordRids(Vault(t, blobs)) == RecordRids(v) + {rid}
  {
    WrittenSound(v.tables, e);
  }

  /** A write that can be stored lists its card in the blob store, and in the record
      tables if it commits; any other changes nothing. */
  lemma RidsAfterWrite(be: Backend, v: Vault, e: Event, commits: bool)
    requires be.max >= 1 && Sound(v.tables) && (e.SaveCard? || e.RestoreCard?)
    ensures var v' := Write(be, v, e, commits).0;
            if Write(be, v, e, true).1 != Done then v' == v && Write(be, v, e, commits).1 != Done
            else
              && Written(v.tables, e).Some?
              && var rid := Written(v.tables, e).value.1;
                 && RidsOf(be, v'.blobs) == RidsOf(be, v.blobs) + {rid}
                 && RecordRids(v') == (if commits then RecordRids(v) + {rid} else RecordRids(v))
                 && (!commits ==> v'.tables == v.tables)
                 && Write(be, v, e, commits).1 == if commits then Done else Failed
  {
    WriteParts(be, v, e, true);
    WriteParts(be, v, e, commits);
    if Write(be, v, e, true).1 == Done {
      var (t, rid) := Written(v.tables, e).value;
      var up := Tagged(e.up, CardTags(t, e, rid));
      PutRids(be, v.blobs, rid, VersionOf(e), up);
      WrittenRids(v, e, Put(be, v.blobs, rid, VersionOf(e), up).0);
    }
  }

  lemma WriteRids(be: Backend, v: Vault, e: Event, commits: bool)
    requires be.max >= 1 && Sound(v.tables) && (e.SaveCard? || e.RestoreCard?)
    ensures var (v', outcome) := Write(be, v, e, commits);
            if outcome == Done then
              var rid := Written(v.tables, e).value.1;
              RecordRids(v') == RecordRids(v) + {rid} && RidsOf(be, v'.blobs) == RidsOf(be, v.blobs) + {rid}
            else
              && v'.tables == v.tables && RidsOf(be, v'.blobs) >= RidsOf(be, v.blobs)
              && (commits ==> v' == v)
  {
    RidsAfterWrite(be, v, e, commits);
  }

  lemma StepRids(be: Backend, v: Vault, e: Event, commits: bool)
    requires be.max >= 1 && Sound(v.tables) && commits
    requires RecordRids(v) == RidsOf(be, v.blobs)
    ensures var v' := Apply(be, v, e, commits).0;
            RecordRids(v') == RidsOf(be, v'.blobs)
  {
    var v' := Apply(be, v, e, commits).0;
    match e
    case SaveCard(_, _, _, _) => WriteRids(be, v, e, commits);
    case RestoreCard(_, _) => WriteRids(be, v, e, commits);
    case DeleteCards(rids) =>
      DropCardsRids(be, v.blobs, rids);
      assert v' != v ==> RecordRids(v') == RecordRids(v) - Members(rids);
    case _ =>
      assert v'.tables.records.Keys == v.tables.records.Keys && v'.blobs == v.blobs;
  }

  /** If every commit succeeds, the two stores hold the same identifiers. */
  lemma {:induction false} SameRidsIfAllCommit(be: Backend, steps: seq<Step>)
    requires be.max >= 1 && AllCommit(steps)
    ensures RecordRids(Run(be, steps)) == RidsOf(be, Run(be, steps).blobs)
  {
    if steps != [] {
      var front, step := steps[..|steps| - 1], steps[|steps| - 1];
      assert step in steps && forall s :: s in front ==> s in steps;
      SameRidsIfAllCommit(be, front);
      StepRids(be, Run(be, front), step.event, step.commits);
    }
  }

  /** The records that a run has left without any card: those of deletions whose
      record transaction did not commit, until they are saved again or deleted. */
  ghost function Orphans(be: Backend, steps: seq<Step>): set<int> {
    if steps == [] then {}
    else
      OrphansAfter(be, Run(be, steps[..|steps| - 1]), steps[|steps| - 1], Orphans(be, steps[..|steps| - 1]))
  }

  ghost function OrphansAfter(be: Backend, v: Vault, step: Step, orphans: set<int>): set<int>
    requires Sound(v.tables)
  {
    match step.event
    case SaveCard(_, _, _, _) => OrphansAfterWrite(be, v, step.event, orphans)
    case RestoreCard(_, _) => OrphansAfterWrite(be, v, step.event, orphans)
    case DeleteCards(rids) =>
      if Refused(rids) then orphans
      else if step.commits then orphans - Members(rids)
      else orphans + OrphanedBy(v, rids, false)
    case _ => orphans
  }

  ghost function OrphansAfterWrite(be: Backend, v: Vault, e: Event, orphans: set<int>): set<int>
    requires Sound(v.tables) && (e.SaveCard? || e.RestoreCard?)
  {
    if Write(be, v, e, true).1 != Done then orphans else orphans - {Written(v.tables, e).value.1}
  }

  ghost function WithoutCard(be: Backend, v: Vault): set<int> {
    RecordRids(v) - RidsOf(be, v.blobs)
  }

  lemma OrphansOfWrite(be: Backend, v: Vault, e: Event, commits: bool)
    requires be.max >= 1 && Sound(v.tables) && (e.SaveCard? || e.RestoreCard?)
    ensures WithoutCard(be, Write(be, v, e, commits).0) == OrphansAfterWrite(be, v, e, WithoutCard(be, v))
  {
    RidsAfterWrite(be, v, e, commits);
    if Write(be, v, e, true).1 == Done {
      CardGained(be, v, Write(be, v, e, commits).0, Written(v.tables, e).value.1);
    }
  }

  lemma CardGained(be: Backend, v: Vault, v': Vault, rid: int)
    requires RidsOf(be, v'.blobs) == RidsOf(be, v.blobs) + {rid}
    requires RecordRids(v') == RecordRids(v) || RecordRids(v') == RecordRids(v) + {rid}
    ensures WithoutCard(be, v') == WithoutCard(be, v) - {rid}
  {
  }

  lemma OrphansOfDelete(be: Backend, v: Vault, rids: seq<RID>, commits: bool)
    requires Sound(v.tables)
    ensures WithoutCard(be, Delete(v, rids, commits).0) ==
            OrphansAfter(be, v, Step(DeleteCards(rids), commits), WithoutCard(be, v))
  {
    DropCardsRids(be, v.blobs, rids);
    var v' := Delete(v, rids, commits).0;
    if !Refused(rids) {
      assert RecordRids(v') == if commits then RecordRids(v) - Members(rids) else RecordRids(v);
    }
  }

  /** In every run, whatever commits fail, the records without a card are exactly the orphans. */
  lemma {:induction false} OrphansInEveryRun(be: Backend, steps: seq<Step>)
    requires be.max >= 1
    ensures WithoutCard(be, Run(be, steps)) == Orphans(be, steps)
  {
    if steps != [] {
      var front, step := steps[..|steps| - 1], steps[|steps| - 1];
      OrphansInEveryRun(be, front);
      var v := Run(be, front);
      match step.event
      case SaveCard(_, _, _, _) => OrphansOfWrite(be, v, step.event, step.commits);
      case RestoreCard(_, _) => OrphansOfWrite(be, v, step.event, step.commits);
      case DeleteCards(rids) => OrphansOfDelete(be, v, rids, step.commits);
      case _ => OrphansOfOthers(be, v, step.event, step.commits);
    }
  }

  lemma OrphansOfOthers(be: Backend, v: Vault, e: Event, commits: bool)
    requires Sound(v.tables) && !e.SaveCard? && !e.RestoreCard? && !e.DeleteCards?
    ensures WithoutCard(be, Apply(be, v, e, commits).0) == WithoutCard(be, v)
  {
    var v' := Apply(be, v, e, commits).0;
    assert v'.tables.records.Keys == v.tables.records.Keys && v'.blobs == v.blobs;
    assert RecordRids(v') == RecordRids(v);
  }

  lemma {:induction false} NoOrphansIfDeletesCommit(be: Backend, steps: seq<Step>)
    requires DeletesCommit(steps)
    ensures Orphans(be, steps) == {}
  {
    if steps != [] {
      var front, step := steps[..|steps| - 1], steps[|steps| - 1];
      assert step in steps && forall s :: s in front ==> s in steps;
      NoOrphansIfDeletesCommit(be, front);
    }
  }

  /** The cards that a run has left without any record: those of writes whose record
      transaction did not commit, until they are written again or deleted. */
  ghost function Strays(be: Backend, steps: seq<Step>): set<int> {
    if steps == [] then {}
    else
      StraysAfter(be, Run(be, steps[..|steps| - 1]), steps[|steps| - 1], Strays(be, steps[..|steps| - 1]))
  }

  ghost function StraysAfter(be: Backend, v: Vault, step: Step, strays: set<int>): set<int>
    requires Sound(v.tables)
  {
    match step.event
    case SaveCard(_, _, _, _) => StraysAfterWrite(be, v, step.event, step.commits, strays)
    case RestoreCard(_, _) => StraysAfterWrite(be, v, step.event, step.commits, strays)
    case DeleteCards(rids) => if Refused(rids) then strays else strays - Members(rids)
    case _ => strays
  }

  ghost function StraysAfterWrite(be: Backend, v: Vault, e: Event, commits: bool, strays: set<int>): set<int>
    requires Sound(v.tables) && (e.SaveCard? || e.RestoreCard?)
  {
    if Write(be, v, e, true).1 != Done then strays
    else
      var rid := Written(v.tables, e).value.1;
      if commits then strays - {rid} else if rid in v.tables.records then strays else strays + {rid}
  }

  ghost function WithoutRecord(be: Backend, v: Vault): set<int> {
    RidsOf(be, v.blobs) - RecordRids(v)
  }

  lemma StraysOfWrite(be: Backend, v: Vault, e: Event, commits: bool)
    requires be.max >= 1 && Sound(v.tables) && (e.SaveCard? || e.RestoreCard?)
    ensures WithoutRecord(be, Write(be, v, e, commits).0) ==
            StraysAfterWrite(be, v, e, commits, WithoutRecord(be, v))
  {
    RidsAfterWrite(be, v, e, commits);
    if Write(be, v, e, true).1 == Done {
      CardListed(be, v, Write(be, v, e, commits).0, Written(v.tables, e).value.1, commits);
    }
  }

  lemma CardListed(be: Backend, v: Vault, v': Vault, rid: RID, commits: bool)
    requires RidsOf(be, v'.blobs) == RidsOf(be, v.blobs) + {rid}
    requires RecordRids(v') == if commits then RecordRids(v) + {rid} else RecordRids(v)
    ensures WithoutRecord(be, v') ==
            if commits then WithoutRecord(be, v) - {rid}
            else if rid in v.tables.records then WithoutRecord(be, v) else WithoutRecord(be, v) + {rid}
  {
  }

  lemma StraysOfDelete(be: Backend, v: Vault, rids: seq<RID>, commits: bool)
    requires Sound(v.tables)
    ensures WithoutRecord(be, Delete(v, rids, commits).0) ==
            StraysAfter(be, v, Step(DeleteCards(rids), commits), WithoutRecord(be, v))
  {
    DropCardsRids(be, v.blobs, rids);
    var v' := Delete(v, rids, commits).0;
    if !Refused(rids) {
      assert RecordRids(v') == if commits then RecordRids(v) - Members(rids) else RecordRids(v);
    }
  }

  lemma StraysOfOthers(be: Backend, v: Vault, e: Event, commits: bool)
    requires Sound(v.tables) && !e.SaveCard? && !e.RestoreCard? && !e.DeleteCards?
    ensures WithoutRecord(be, Apply(be, v, e, commits).0) == WithoutRecord(be, v)
  {
    var v' := Apply(be, v, e, commits).0;
    assert v'.tables.records.Keys == v.tables.records.Keys && v'.blobs == v.blobs;
    assert RecordRids(v') == RecordRids(v);
  }

  /** In every run, whatever commits fail, the cards without a record are exactly the strays. */
  lemma {:induction false} StraysInEveryRun(be: Backend, steps: seq<Step>)
    requires be.max >= 1
    ensures WithoutRecord(be, Run(be, steps)) == Strays(be, steps)
  {
    if steps != [] {
      var front, step := steps[..|steps| - 1], steps[|steps| - 1];
      StraysInEveryRun(be, front);
      var v := Run(be, front);
      match step.event
      case SaveCard(_, _, _, _) => StraysOfWrite(be, v, step.event, step.commits);
      case RestoreCard(_, _) => StraysOfWrite(be, v, step.event, step.commits);
      case DeleteCards(rids) => StraysOfDelete(be, v, rids, step.commits);
      case _ => StraysOfOthers(be, v, step.event, step.commits);
    }
  }

  /** In every run, every record has a card exactly when there are no orphans, and every
      card a record exactly when there are no strays: in particular if deletions
      commit, and if everything commits. */
  lemma RecordsHaveCards(be: Backend, steps: seq<Step>)
    requires be.max >= 1
    ensures RecordRids(Run(be, steps)) <= RidsOf(be, Run(be, steps).blobs) <==> Orphans(be, steps) == {}
    ensures RidsOf(be, Run(be, steps).blobs) <= RecordRids(Run(be, steps)) <==> Strays(be, steps) == {}
    ensures DeletesCommit(steps) ==> Orphans(be, steps) == {}
    ensures AllCommit(steps) ==> RecordRids(Run(be, steps)) == RidsOf(be, Run(be, steps).blobs)
  {
    OrphansInEveryRun(be, steps);
    StraysInEveryRun(be, steps);
    NothingLeftOver(RecordRids(Run(be, steps)), RidsOf(be, Run(be, steps).blobs));
    NothingLeftOver(RidsOf(be, Run(be, steps).blobs), RecordRids(Run(be, steps)));
    if DeletesCommit(steps) {
      NoOrphansIfDeletesCommit(be, steps);
    }
    if AllCommit(steps) {
      SameRidsIfAllCommit(be, steps);
    }
  }

  lemma NothingLeftOver(a: set<int>, b: set<int>)
    ensures a <= b <==> a - b == {}
  {
    if a - b == {} {
      forall r | r in a ensures r in b {
        assert r !in a - b;
      }
    }
  }

  /** Two sets are of one size exactly when each has as many members of its own. */
  lemma SizesDiffer(a: set<int>, b: set<int>)
    ensures |a| == |b| <==> |a - b| == |b - a|
  {
    assert a == (a - b) + (a * b) && b == (b - a) + (a * b);
    assert |a| == |a - b| + |a * b| && |b| == |b - a| + |a * b|;
  }

  /** What BasicIntegrity compares: how many identifiers each store lists. */
  ghost predicate CountsAgree(be: Backend, v: Vault) {
    |v.tables.records| == |Listed(RidsOf(be, v.blobs))|
  }

  lemma RecordCount(v: Vault)
    ensures |RecordRids(v)| == |v.tables.records|
  {
    assert RecordRids(v) == v.tables.records.Keys;
  }

  lemma CountsDecide(be: Backend, v: Vault)
    ensures CountsAgree(be, v) <==> |WithoutCard(be, v)| == |WithoutRecord(be, v)|
    ensures RecordRids(v) == RidsOf(be, v.blobs) <==> WithoutCard(be, v) == {} && WithoutRecord(be, v) == {}
  {
    RecordCount(v);
    ElementCount(Listed(RidsOf(be, v.blobs)));
    SizesDiffer(RecordRids(v), RidsOf(be, v.blobs));
    NothingLeftOver(RecordRids(v), RidsOf(be, v.blobs));
    NothingLeftOver(RidsOf(be, v.blobs), RecordRids(v));
  }

  /** In every run, by what failed commits have left behind: BasicIntegrity finds
      nothing wrong exactly when there are as many orphans as strays; the sets are
      equal exactly when there are none of either; so its answer is right exactly
      when there are no orphans or not as many orphans as strays. */
  lemma IntegrityInEveryRun(be: Backend, steps: seq<Step>)
    requires be.max >= 1
    ensures var v, orphans, strays := Run(be, steps), Orphans(be, steps), Strays(be, steps);
            && (CountsAgree(be, v) <==> |orphans| == |strays|)
            && (RecordRids(v) == RidsOf(be, v.blobs) <==> orphans == {} && strays == {})
            && ((CountsAgree(be, v) <==> RecordRids(v) == RidsOf(be, v.blobs))
                <==> orphans == {} || |orphans| != |strays|)
  {
    OrphansInEveryRun(be, steps);
    StraysInEveryRun(be, steps);
    CountsDecide(be, Run(be, steps));
  }

  /** Why deletions must commit: a deletion whose record transaction fails to commit
      after the images are gone leaves the record without them. */
  lemma FailedCommitOrphansRecord(be: Backend, v: Vault, r: RID)
    requires r in v.tables.records && r < SIGN_BIT
    ensures var (v', outcome) := Delete(v, [r], false);
            outcome == Failed && r in v'.tables.records && !Readable(v', r) && r !in RidsOf(be, v'.blobs)
  {
    DropCardsFrame(v.blobs, [r]);
  }

  // ---- saving what was read

  function ToMetadata(rec: Record): Metadata {
    Metadata(rec.source, rec.info, rec.creator.info, rec.tags)
  }

  /** Saving a record just read, with a repaired book time and greetings count, at
      its own version: the same row gets just those and a fresh sync mark, and no
      version is pruned. Its creator stays the same exactly when creator and record
      are of one source. */
  lemma RepairTouchesLittle(be: Backend, v: Vault, r: RID, book: int, greetings: int, up: Upload)
    requires be.max >= 1 && Sound(v.tables) && Bounded(be, v.blobs) && r in v.tables.records && Readable(v, r)
    requires Storable(up) && Accepts(be, r)
    ensures var rec := FindRecord(v.tables, r).value;
            var fixed := rec.(info := rec.info.(bookUpdateTime := book, greetingsCount := greetings));
            var (v', outcome) := Write(be, v, SaveCard(ToMetadata(fixed), up, rec.info.updateTime, 0), true);
            && outcome == Done && v'.tables.records.Keys == v.tables.records.Keys
            && VersionsOf(v'.blobs, r) == VersionsOf(v.blobs, r)
            && (forall q :: q in v.tables.records && q != r ==> v'.tables.records[q] == v.tables.records[q])
            && v'.tables.records[r] == v.tables.records[r].(
                 info := fixed.info, sync := SyncData(Success, rec.info.updateTime),
                 creatorID := CreatorId(rec.source, rec.creator.info.platformID))
            && (v'.tables.records[r].creatorID == v.tables.records[r].creatorID <==> rec.creator.source == rec.source)
  {
    RepairRecords(v.tables, r, book, greetings);
    var rec := FindRecord(v.tables, r).value;
    var fixed := rec.(info := rec.info.(bookUpdateTime := book, greetingsCount := greetings));
    var e := SaveCard(ToMetadata(fixed), up, rec.info.updateTime, 0);
    var t := Written(v.tables, e).value.0;
    WrittenSound(v.tables, e);
    RepairVersions(be, v.blobs, r, rec.info.updateTime, Tagged(up, CardTags(t, e, r)));
  }

  lemma RepairVersions(be: Backend, st: State, r: RID, version: Version, up: Upload)
    requires be.max >= 1 && Bounded(be, st) && (r, version) in st.cards && Storable(up) && Accepts(be, r)
    ensures Put(be, st, r, version, up).1 == Done
    ensures VersionsOf(Put(be, st, r, version, up).0, r) == VersionsOf(st, r)
  {
    PutOutcome(be, st, r, version, up);
    PutVersions(be, st, r, version, up);
    HeldIffListed(st, r, version);
    if be.Sqlite? {
      assert VersionsOf(st, r) + {version} == VersionsOf(st, r);
      NewestCount(VersionsOf(st, r), be.max);
    }
  }

  lemma RepairRecords(t: Tables, r: RID, book: int, greetings: int)
    requires Sound(t) && r in t.records
    ensures var rec := FindRecord(t, r).value;
            var fixed := rec.(info := rec.info.(bookUpdateTime := book, greetingsCount := greetings));
            var saved := SaveRecord(t, ToMetadata(fixed), rec.info.updateTime, 0);
            && saved.Some? && saved.value.1 == r && saved.value.0.records == t.records[r := t.records[r].(
                 info := fixed.info, sync := SyncData(Success, rec.info.updateTime),
                 creatorID := CreatorId(rec.source, rec.creator.info.platformID))]
            && (saved.value.0.records[r].creatorID == t.records[r].creatorID <==> rec.creator.source == rec.source)
  {
    var rec := FindRecord(t, r).value;
    var fixed := rec.(info := rec.info.(bookUpdateTime := book, greetingsCount := greetings));
    var meta := ToMetadata(fixed);
    var incoming := SavedRow(meta, rec.info.updateTime, 0);
    FoundRow(t, r);
    assert forall q :: q in t.records && q != r ==>
        && Distinct(t.records[q], t.records[r])
        && (Clashes(t.records[q], incoming) <==> Clashes(t.records[q], t.records[r]));
    WriteOutcome(t, meta.tags, Creator(meta.source, meta.creator), incoming, false, r);
    WriteResult(t, meta.tags, Creator(meta.source, meta.creator), incoming, false);
    SaveKeepsIdentity(t, meta, rec.info.updateTime, 0, r);
    CreatorIdInjective(rec.source, rec.creator.info.platformID, rec.creator.source, rec.creator.info.platformID);
  }
}
