/** Repairing a stored record: its image is read, record and sheet are repaired
    against each other, and the result is saved and checked again. */
module RecordRepair {
  import opened Wrappers
  import opened Keys
  import opened Records
  import opened BlobSpec
  import opened CatalogSpec
  import Integrity
  import Catalog

  /** The image library: the sheet inside a card, the card that carries a sheet, and
      whether a thumbnail can be shown. */
  datatype Library = Library(
    sheetOf: Card -> Option<Integrity.SheetData>,
    encode: (Card, Integrity.SheetData) -> Upload,
    thumbnailOk: string -> bool)

  function DataOf(rec: Record): Integrity.RecordData {
    Integrity.RecordData(
      SourceName(rec.source), rec.info.normalizedURL, rec.info.directURL, rec.info.platformID, rec.info.characterID,
      rec.info.name, rec.info.title, rec.info.tagline, rec.info.createTime, rec.info.updateTime,
      rec.info.bookUpdateTime, rec.info.greetingsCount, rec.creator.info.nickname, rec.creator.info.username,
      rec.creator.info.platformID, rec.tags)
  }

  /** A repair changes these two fields of a record only. */
  function Repaired(rec: Record, d: Integrity.RecordData): Record {
    rec.(info := rec.info.(bookUpdateTime := d.bookUpdateTime, greetingsCount := d.greetingsCount))
  }

  /** The stored card, if it can be read and decoded. */
  ghost function CardAt(be: Backend, lib: Library, st: State, rid: RID, version: Version): Option<Card> {
    if Accepts(be, rid) && (rid, version) in st.cards && lib.sheetOf(st.cards[(rid, version)]).Some?
    then Some(st.cards[(rid, version)]) else None
  }

  predicate ThumbnailOk(be: Backend, lib: Library, st: State, rid: RID) {
    Accepts(be, rid) && rid in st.thumbs && lib.thumbnailOk(st.thumbs[rid])
  }

  /** The last look at what was saved. */
  ghost function Recheck(be: Backend, env: Integrity.Env, lib: Library, st: State, rec: Record): Integrity.Verdict {
    match CardAt(be, lib, st, rec.id, rec.info.updateTime)
    case None => Integrity.BROKEN
    case Some(card) =>
      if ThumbnailOk(be, lib, st, rec.id) && Integrity.SheetOk(env, lib.sheetOf(card).value)
      then Integrity.FIXED else Integrity.BROKEN
  }

  ghost function SaveRepaired(be: Backend, env: Integrity.Env, lib: Library, v: Vault, rec: Record, card: Card,
                              sheet: Integrity.SheetData, commits: bool): (res: (Vault, Record, Integrity.Verdict))
    requires Sound(v.tables)
    ensures Sound(res.0.tables)
  {
    var e := SaveCard(ToMetadata(rec), lib.encode(card, sheet), rec.info.updateTime, 0);
    WriteSound(be, v, e, commits);
    var (v', outcome) := Write(be, v, e, commits);
    (v', rec, if outcome != Done then Integrity.BROKEN else Recheck(be, env, lib, v'.blobs, rec))
  }

  /** The vault, the caller's record and the answer after one call. */
  ghost function FixRecord(be: Backend, env: Integrity.Env, lib: Library, v: Vault, rec: Record, commits: bool):
      (res: (Vault, Record, Integrity.Verdict))
    requires Sound(v.tables)
    ensures Sound(res.0.tables)
  {
    match CardAt(be, lib, v.blobs, rec.id, rec.info.updateTime)
    case None => (v, rec, Integrity.BROKEN)
    case Some(card) =>
      var (d, sheet, verdict) := Integrity.Fix(env, DataOf(rec), lib.sheetOf(card).value);
      var rec' := Repaired(rec, d);
      if verdict == Integrity.BROKEN then (v, rec', Integrity.BROKEN)
      else if verdict == Integrity.OK && ThumbnailOk(be, lib, v.blobs, rec.id) then (v, rec', Integrity.OK)
      else SaveRepaired(be, env, lib, v, rec', card, sheet, commits)
  }

  // ---- the code

  method FixRecordIntegrity(cat: Catalog.Catalog, env: Integrity.Env, lib: Library, rec: Record, commits: bool)
      returns (rec': Record, verdict: Integrity.Verdict)
    requires cat.Valid()
    modifies cat.records, cat.blobs.Repr()
    ensures cat.Valid()
    ensures (cat.Contents(), rec', verdict) ==
            FixRecord(cat.blobs.Kind(), env, lib, old(cat.Contents()), rec, commits)
  {
    var card := GetCharacterCard(cat, lib, rec.id, rec.info.updateTime);
    if card.None? {
      return rec, Integrity.BROKEN;
    }
    var r := new Integrity.Record(DataOf(rec));
    var s := new Integrity.Sheet(lib.sheetOf(card.value).value);
    verdict := Integrity.FixIntegrity(env, r, s);
    rec' := Repaired(rec, r.Data());
    if verdict == Integrity.BROKEN {
      return rec', Integrity.BROKEN;
    }
    var thumbnailOk := IsThumbnailOk(cat, lib, rec.id);
    if !thumbnailOk {
      verdict := Integrity.FIXED;
    }
    if verdict == Integrity.OK {
      return rec', Integrity.OK;
    }
    verdict := SaveAndRecheck(cat, env, lib, rec', card.value, s.Data(), commits);
  }

  method GetCharacterCard(cat: Catalog.Catalog, lib: Library, rid: RID, version: Version) returns (card: Option<Card>)
    requires cat.Valid()
    ensures card == CardAt(cat.blobs.Kind(), lib, cat.Contents().blobs, rid, version)
  {
    card := cat.GetCardBytes(rid, version);
    if card.Some? && lib.sheetOf(card.value).None? {
      card := None;
    }
  }

  method IsThumbnailOk(cat: Catalog.Catalog, lib: Library, rid: RID) returns (ok: bool)
    requires cat.Valid()
    ensures ok <==> ThumbnailOk(cat.blobs.Kind(), lib, cat.Contents().blobs, rid)
  {
    var image := cat.ThumbnailBytes(rid);
    ok := image.Some? && lib.thumbnailOk(image.value);
  }

  method SaveAndRecheck(cat: Catalog.Catalog, env: Integrity.Env, lib: Library, rec: Record, card: Card,
                        sheet: Integrity.SheetData, commits: bool) returns (verdict: Integrity.Verdict)
    requires cat.Valid()
    modifies cat.records, cat.blobs.Repr()
    ensures cat.Valid()
    ensures (cat.Contents(), rec, verdict) ==
            SaveRepaired(cat.blobs.Kind(), env, lib, old(cat.Contents()), rec, card, sheet, commits)
  {
    var upload := new Catalog.CharacterCard(lib.encode(card, sheet));
    var rid, outcome := cat.SaveCard(ToMetadata(rec), upload, rec.info.updateTime, 0, commits);
    if outcome != Done {
      return Integrity.BROKEN;
    }
    var saved := GetCharacterCard(cat, lib, rec.id, rec.info.updateTime);
    var thumbnailOk := IsThumbnailOk(cat, lib, rec.id);
    if saved.None? || !thumbnailOk || !Integrity.SheetOk(env, lib.sheetOf(saved.value).value) {
      return Integrity.BROKEN;
    }
    verdict := Integrity.FIXED;
  }

  // ---- one call on a stored record

  /** The library stores what it is given: a sheet whose tags are those stored beside
      it is read back, and thumbnails it makes can be shown. */
  ghost predicate Stores(lib: Library) {
    forall card, sheet :: StoresSheet(lib, card, sheet)
  }

  ghost predicate StoresSheet(lib: Library, card: Card, sheet: Integrity.SheetData) {
    var up := lib.encode(card, sheet);
    && Storable(up) && lib.thumbnailOk(up.thumbnail.value)
    && lib.sheetOf(up.card.(tags := sheet.tags)) == Some(sheet)
  }

  /** A stored record with its image and sheet. */
  ghost predicate Intact(be: Backend, lib: Library, v: Vault, r: RID, d: Integrity.RecordData,
                         sheet: Integrity.SheetData) {
    && be.max >= 1 && Sound(v.tables) && Bounded(be, v.blobs) && Accepts(be, r)
    && r in v.tables.records
    && var rec := FindRecord(v.tables, r).value;
       && d == DataOf(rec)
       && CardAt(be, lib, v.blobs, r, rec.info.updateTime).Some?
       && lib.sheetOf(v.blobs.cards[(r, rec.info.updateTime)]) == Some(sheet)
  }

  /** A record saved with its own metadata reads back with nothing changed but the
      repaired fields, the sync mark and its creator's source, which becomes its own. */
  lemma RepairedReadsBack(t: Tables, r: RID, d: Integrity.RecordData)
    requires Sound(t) && r in t.records
    ensures var rec := FindRecord(t, r).value;
            var saved := SaveRecord(t, ToMetadata(Repaired(rec, d)), rec.info.updateTime, 0);
            && saved.Some? && saved.value.1 == r && Sound(saved.value.0)
            && FindRecord(saved.value.0, r) == Some(Repaired(rec, d).(
                 sync := SyncData(Success, rec.info.updateTime), creator := Creator(rec.source, rec.creator.info)))
  {
    var rec := FindRecord(t, r).value;
    RepairRecords(t, r, d.bookUpdateTime, d.greetingsCount);
    SaveSound(t, ToMetadata(Repaired(rec, d)), rec.info.updateTime, 0);
    RepairKeepsTags(t, r, d);
  }

  lemma RepairKeepsTags(t: Tables, r: RID, d: Integrity.RecordData)
    requires Sound(t) && r in t.records
    ensures var rec := FindRecord(t, r).value;
            var saved := SaveRecord(t, ToMetadata(Repaired(rec, d)), rec.info.updateTime, 0);
            saved.Some? ==> t.records[r].tags <= saved.value.0.tags.Keys
                            && TagList(saved.value.0.tags, t.records[r].tags) == rec.tags
  {
    var rec := FindRecord(t, r).value;
    var meta := ToMetadata(Repaired(rec, d));
    if SaveRecord(t, meta, rec.info.updateTime, 0).Some? {
      WriteResult(t, meta.tags, Creator(meta.source, meta.creator), SavedRow(meta, rec.info.updateTime, 0), false);
      InsertTagsMeaning(t.tags, meta.tags);
      TagListAgrees(t.tags, InsertTags(t.tags, meta.tags), t.records[r].tags);
    }
  }

  /** The image after such a save: the given sheet, and a thumbnail that can be shown. */
  lemma SavedImage(be: Backend, lib: Library, v: Vault, r: RID, d: Integrity.RecordData, card: Card,
                   sheet: Integrity.SheetData)
    requires be.max >= 1 && Sound(v.tables) && Bounded(be, v.blobs) && Accepts(be, r) && r in v.tables.records
    requires Readable(v, r) && StoresSheet(lib, card, sheet)
    requires sheet.tags == TagNames(FindRecord(v.tables, r).value.tags)
    ensures var rec := FindRecord(v.tables, r).value;
            var e := SaveCard(ToMetadata(Repaired(rec, d)), lib.encode(card, sheet), rec.info.updateTime, 0);
            var (v', outcome) := Write(be, v, e, true);
            && outcome == Done && Bounded(be, v'.blobs) && ThumbnailOk(be, lib, v'.blobs, r)
            && CardAt(be, lib, v'.blobs, r, rec.info.updateTime).Some?
            && lib.sheetOf(v'.blobs.cards[(r, rec.info.updateTime)]) == Some(sheet)
  {
    var rec := FindRecord(v.tables, r).value;
    var up := lib.encode(card, sheet);
    var e := SaveCard(ToMetadata(Repaired(rec, d)), up, rec.info.updateTime, 0);
    RepairedReadsBack(v.tables, r, d);
    RepairTouchesLittle(be, v, r, d.bookUpdateTime, d.greetingsCount, up);
    WriteBounded(be, v, e, true);
    SavedCardReadsBack(be, v, e);
    WriteParts(be, v, e, true);
    assert Write(be, v, e, true).0.blobs.cards[(r, rec.info.updateTime)] == up.card.(tags := sheet.tags);
  }

  lemma SavedTables(be: Backend, lib: Library, v: Vault, r: RID, d: Integrity.RecordData, up: Upload)
    requires Sound(v.tables) && r in v.tables.records
    ensures var rec := FindRecord(v.tables, r).value;
            var e := SaveCard(ToMetadata(Repaired(rec, d)), up, rec.info.updateTime, 0);
            var (v', outcome) := Write(be, v, e, true);
            && Sound(v'.tables) && r in v'.tables.records
            && (outcome == Done ==> FindRecord(v'.tables, r) == Some(Repaired(rec, d).(
                 sync := SyncData(Success, rec.info.updateTime), creator := Creator(rec.source, rec.creator.info))))
  {
    var rec := FindRecord(v.tables, r).value;
    RepairedReadsBack(v.tables, r, d);
    WriteParts(be, v, SaveCard(ToMetadata(Repaired(rec, d)), up, rec.info.updateTime, 0), true);
  }

  /** Saving what a repair has made of an intact record keeps it intact, with the
      repaired record and sheet, and answers FIXED. */
  lemma SavedIntact(be: Backend, env: Integrity.Env, lib: Library, v: Vault, r: RID, d: Integrity.RecordData,
                    sheet: Integrity.SheetData)
    requires Stores(lib) && Intact(be, lib, v, r, d, sheet) && Integrity.Fix(env, d, sheet).2 != Integrity.BROKEN
    ensures var rec := FindRecord(v.tables, r).value;
            var (d', sheet', _) := Integrity.Fix(env, d, sheet);
            var (v', _, answer) :=
              SaveRepaired(be, env, lib, v, Repaired(rec, d'), v.blobs.cards[(r, rec.info.updateTime)], sheet', true);
            answer == Integrity.FIXED && Intact(be, lib, v', r, d', sheet') && ThumbnailOk(be, lib, v'.blobs, r)
  {
    var rec := FindRecord(v.tables, r).value;
    var card := v.blobs.cards[(r, rec.info.updateTime)];
    var (d', sheet', _) := Integrity.Fix(env, d, sheet);
    assert StoresSheet(lib, card, sheet');
    FixKeepsTheRest(env, rec, sheet);
    SavedImage(be, lib, v, r, d', card, sheet');
    SavedTables(be, lib, v, r, d', lib.encode(card, sheet'));
  }

  /** A repair leaves all but the two fields alone, and the sheet has the record's tags. */
  lemma FixKeepsTheRest(env: Integrity.Env, rec: Record, sheet: Integrity.SheetData)
    requires Integrity.Fix(env, DataOf(rec), sheet).2 != Integrity.BROKEN
    ensures var (d', sheet', _) := Integrity.Fix(env, DataOf(rec), sheet);
            && (forall sync, source ::
                  DataOf(Repaired(rec, d').(sync := sync, creator := Creator(source, rec.creator.info))) == d')
            && sheet'.tags == TagNames(rec.tags) && Integrity.SheetOk(env, sheet')
  {
  }

  // ---- repeated calls on what is stored

  /** The vault after n calls, each on the record as it is then stored. */
  ghost function AfterRepairs(be: Backend, env: Integrity.Env, lib: Library, v: Vault, r: RID, n: nat): (u: Vault)
    requires Sound(v.tables)
    ensures Sound(u.tables)
  {
    if n == 0 then v
    else
      var u := AfterRepairs(be, env, lib, v, r, n - 1);
      if r !in u.tables.records then u
      else FixRecord(be, env, lib, u, FindRecord(u.tables, r).value, true).0
  }

  /** What call number n (from 0) answers. */
  ghost function AnswerAt(be: Backend, env: Integrity.Env, lib: Library, v: Vault, r: RID, n: nat): Integrity.Verdict
    requires Sound(v.tables)
  {
    var u := AfterRepairs(be, env, lib, v, r, n);
    if r !in u.tables.records then Integrity.BROKEN
    else FixRecord(be, env, lib, u, FindRecord(u.tables, r).value, true).2
  }

  /** Whether one call on an intact record saves. */
  lemma WhetherItSaves(be: Backend, env: Integrity.Env, lib: Library, v: Vault, r: RID, d: Integrity.RecordData,
                       sheet: Integrity.SheetData)
    requires Intact(be, lib, v, r, d, sheet) && Integrity.Fix(env, d, sheet).2 != Integrity.BROKEN
    ensures var rec := FindRecord(v.tables, r).value;
            var (d', sheet', verdict) := Integrity.Fix(env, d, sheet);
            var res := FixRecord(be, env, lib, v, rec, true);
            if verdict == Integrity.OK && ThumbnailOk(be, lib, v.blobs, r) then res.0 == v && res.2 == Integrity.OK
            else res == SaveRepaired(be, env, lib, v, Repaired(rec, d'), v.blobs.cards[(r, rec.info.updateTime)],
                                     sheet', true)
  {
  }

  /** One call on an intact, repairable record. */
  lemma OneRepair(be: Backend, env: Integrity.Env, lib: Library, v: Vault, r: RID, d: Integrity.RecordData,
                  sheet: Integrity.SheetData)
    requires Stores(lib) && Intact(be, lib, v, r, d, sheet) && Integrity.Repairable(env, d, sheet)
    ensures var (d', sheet', verdict) := Integrity.Fix(env, d, sheet);
            var (v', _, answer) := FixRecord(be, env, lib, v, FindRecord(v.tables, r).value, true);
            && Intact(be, lib, v', r, d', sheet') && ThumbnailOk(be, lib, v'.blobs, r)
            && answer == (if ThumbnailOk(be, lib, v.blobs, r) then verdict else Integrity.FIXED)
            && (answer == Integrity.OK ==> v' == v)
  {
    Integrity.OneRepairFewer(env, d, sheet);
    WhetherItSaves(be, env, lib, v, r, d, sheet);
    if Integrity.Fix(env, d, sheet).2 != Integrity.OK || !ThumbnailOk(be, lib, v.blobs, r) {
      SavedIntact(be, env, lib, v, r, d, sheet);
    }
  }

  lemma {:induction false} RepairsFollow(be: Backend, env: Integrity.Env, lib: Library, v: Vault, r: RID,
                                         d: Integrity.RecordData, sheet: Integrity.SheetData, n: nat)
    requires Stores(lib) && Intact(be, lib, v, r, d, sheet) && Integrity.Repairable(env, d, sheet)
    ensures var u := AfterRepairs(be, env, lib, v, r, n);
            var (d', sheet') := Integrity.AfterCalls(env, d, sheet, n);
            && Intact(be, lib, u, r, d', sheet') && Integrity.Repairable(env, d', sheet')
            && (n > 0 ==> ThumbnailOk(be, lib, u.blobs, r))
  {
    Integrity.CountDown(env, d, sheet, n);
    if n > 0 {
      RepairsFollow(be, env, lib, v, r, d, sheet, n - 1);
      var (d1, sheet1) := Integrity.AfterCalls(env, d, sheet, n - 1);
      OneRepair(be, env, lib, AfterRepairs(be, env, lib, v, r, n - 1), r, d1, sheet1);
    }
  }

  /** Repeating the whole repair on a stored record: the sheet and the record are
      repaired as often as the measure says, an unusable thumbnail is replaced with
      the first call, and from then on every call answers OK and changes nothing. */
  lemma StoredRepairsConverge(be: Backend, env: Integrity.Env, lib: Library, v: Vault, r: RID,
                              d: Integrity.RecordData, sheet: Integrity.SheetData, n: nat)
    requires Stores(lib) && Intact(be, lib, v, r, d, sheet) && Integrity.Repairable(env, d, sheet)
    ensures AnswerAt(be, env, lib, v, r, n) ==
            if n < Integrity.Repairs(env, d, sheet) || (n == 0 && !ThumbnailOk(be, lib, v.blobs, r))
            then Integrity.FIXED else Integrity.OK
    ensures AnswerAt(be, env, lib, v, r, n) == Integrity.OK ==>
              AfterRepairs(be, env, lib, v, r, n + 1) == AfterRepairs(be, env, lib, v, r, n)
  {
    RepairsFollow(be, env, lib, v, r, d, sheet, n);
    Integrity.Converges(env, d, sheet, n);
    var (d', sheet') := Integrity.AfterCalls(env, d, sheet, n);
    OneRepair(be, env, lib, AfterRepairs(be, env, lib, v, r, n), r, d', sheet');
  }

  /** A record that cannot be repaired is answered BROKEN and left as it is, every time. */
  lemma UnrepairableStays(be: Backend, env: Integrity.Env, lib: Library, v: Vault, r: RID, d: Integrity.RecordData,
                          sheet: Integrity.SheetData, n: nat)
    requires Intact(be, lib, v, r, d, sheet) && !Integrity.Repairable(env, d, sheet)
    ensures AfterRepairs(be, env, lib, v, r, n) == v && AnswerAt(be, env, lib, v, r, n) == Integrity.BROKEN
  {
    OneUnrepairable(be, env, lib, v, r, d, sheet);
    StaysUnchanged(be, env, lib, v, r, n);
  }

  lemma OneUnrepairable(be: Backend, env: Integrity.Env, lib: Library, v: Vault, r: RID, d: Integrity.RecordData,
                        sheet: Integrity.SheetData)
    requires Intact(be, lib, v, r, d, sheet) && !Integrity.Repairable(env, d, sheet)
    ensures var (v', _, answer) := FixRecord(be, env, lib, v, FindRecord(v.tables, r).value, true);
            v' == v && answer == Integrity.BROKEN
  {
    assert Integrity.Fix(env, d, sheet).2 == Integrity.BROKEN;
  }

  /** A vault that one call leaves alone is left alone by any number. */
  lemma {:induction false} StaysUnchanged(be: Backend, env: Integrity.Env, lib: Library, v: Vault, r: RID, n: nat)
    requires Sound(v.tables) && r in v.tables.records
    requires FixRecord(be, env, lib, v, FindRecord(v.tables, r).value, true).0 == v
    ensures AfterRepairs(be, env, lib, v, r, n) == v
  {
    if n > 0 {
      StaysUnchanged(be, env, lib, v, r, n - 1);
    }
  }
}
