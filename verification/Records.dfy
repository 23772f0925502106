/** The record store: records, creators and tags as tables with unique indexes
    and references, written by upserts inside one transaction. */
module Records {
  import opened Wrappers
  import opened Bytes
  import opened Keys

  /** A tag's slug; the database sorts slugs byte by byte. */
  type TID = seq<byte>
  type CID = string

  datatype Source =
    | Local | CharacterTavern | ChubAI | NyaiMe | PepHop | Pygmalion | WyvernChat | JannyAI | AICC
    | Unsupported(id: string)

  datatype Status = Unchanged | Success | Failure | Missing | Blank | Invalid(text: string)

  /** The values the database's enumerations accept. */
  predicate ValidSource(s: Source) {
    !s.Unsupported?
  }

  predicate ValidStatus(s: Status) {
    !s.Blank? && !s.Invalid?
  }

  function SourceName(s: Source): string {
    match s
    case Local => "Local"
    case CharacterTavern => "CharacterTavern"
    case ChubAI => "ChubAI"
    case NyaiMe => "NyaiMe"
    case PepHop => "PepHop"
    case Pygmalion => "Pygmalion"
    case WyvernChat => "WyvernChat"
    case JannyAI => "JannyAI"
    case AICC => "AICC"
    case Unsupported(id) => id
  }

  datatype Tag = Tag(id: TID, name: string)
  datatype CreatorInfo = CreatorInfo(nickname: string, username: string, platformID: string)
  datatype Creator = Creator(source: Source, info: CreatorInfo)

  datatype CardInfo = CardInfo(
    normalizedURL: string, directURL: string, platformID: string, characterID: string, name: string, title: string,
    tagline: string, createTime: int, updateTime: Version, bookUpdateTime: int, greetingsCount: int, isFork: bool)

  datatype ImportData = ImportData(time: int, index: int)
  datatype SyncData = SyncData(status: Status, time: int)
  datatype ExportData = ExportData(time: int, version: int)

  /** What a fetcher reports about a card. */
  datatype Metadata = Metadata(source: Source, info: CardInfo, creator: CreatorInfo, tags: seq<Tag>)

  /** A record as its readers see it: joined with its creator and, in slug order, its tags. */
  datatype Record = Record(
    id: RID, imported: ImportData, source: Source, info: CardInfo, tags: seq<Tag>, creator: Creator,
    sync: SyncData, exported: ExportData, favorite: bool)

  datatype Row = Row(
    imported: ImportData, source: Source, info: CardInfo, creatorID: CID,
    sync: SyncData, exported: ExportData, favorite: bool, tags: set<TID>)

  /** `lastRid` is the largest identifier ever given out: AUTOINCREMENT reuses none. */
  datatype Tables = Tables(
    records: map<RID, Row>, creators: map<CID, Creator>, tags: map<TID, string>, lastRid: int)

  const NO_RECORDS := Tables(map[], map[], map[], 0)

  // ---- creators

  function CreatorId(source: Source, platformID: string): CID {
    SourceName(source) + ":" + platformID
  }

  lemma SourcesHaveNoColon(s: Source)
    requires ValidSource(s)
    ensures ':' !in SourceName(s)
  {
  }

  /** The first three letters and the length tell the source names apart. */
  lemma SourceNamesDiffer(s: Source, t: Source)
    requires ValidSource(s) && ValidSource(t) && SourceName(s) == SourceName(t)
    ensures s == t
  {
    var n := SourceName(s);
    assert |n| >= 4 && n[0] == SourceName(t)[0] && n[1] == SourceName(t)[1];
  }

  /** What stands before the first colon, and what after it. */
  lemma {:induction false} SplitAtColon(a: string, x: string, b: string, y: string)
    requires ':' !in a && ':' !in b && a + ":" + x == b + ":" + y
    ensures a == b && x == y
  {
    var id := a + ":" + x;
    assert id == b + ":" + y;
    assert id[|a|] == ':' && id[|b|] == ':';
    assert forall i :: 0 <= i < |a| ==> id[i] == a[i];
    assert forall i :: 0 <= i < |b| ==> id[i] == b[i];
    assert |a| == |b|;
    assert id[..|a|] == a && id[..|b|] == b;
    assert id[|a| + 1..] == x && id[|b| + 1..] == y;
  }

  /** A creator's identifier determines its source and platform identifier. */
  lemma CreatorIdInjective(s: Source, p: string, t: Source, q: string)
    requires ValidSource(s) && ValidSource(t)
    ensures CreatorId(s, p) == CreatorId(t, q) <==> s == t && p == q
  {
    if CreatorId(s, p) == CreatorId(t, q) {
      SourcesHaveNoColon(s);
      SourcesHaveNoColon(t);
      SplitAtColon(SourceName(s), p, SourceName(t), q);
      SourceNamesDiffer(s, t);
    }
  }

  // ---- tags

  function Ids(tags: seq<Tag>): set<TID> {
    set tag | tag in tags :: tag.id
  }

  function TagNames(tags: seq<Tag>): seq<string> {
    seq(|tags|, i requires 0 <= i < |tags| => tags[i].name)
  }

  /** INSERT ... ON CONFLICT DO NOTHING for each tag in turn. */
  function InsertTags(names: map<TID, string>, tags: seq<Tag>): map<TID, string> {
    if tags == [] then names
    else
      var before := InsertTags(names, tags[..|tags| - 1]);
      var tag := tags[|tags| - 1];
      if tag.id in before then before else before[tag.id := tag.name]
  }

  /** Every tag is known afterwards, and a tag known before keeps its name. */
  lemma {:induction false} InsertTagsMeaning(names: map<TID, string>, tags: seq<Tag>)
    ensures InsertTags(names, tags).Keys == names.Keys + Ids(tags)
    ensures forall id :: id in names ==> InsertTags(names, tags)[id] == names[id]
  {
    if tags != [] {
      InsertTagsMeaning(names, tags[..|tags| - 1]);
      IdsOfLast(tags);
    }
  }

  lemma IdsOfLast(tags: seq<Tag>)
    requires tags != []
    ensures Ids(tags) == Ids(tags[..|tags| - 1]) + {tags[|tags| - 1].id}
  {
    assert tags == tags[..|tags| - 1] + [tags[|tags| - 1]];
  }

  /** A new tag gets the first name it is given. */
  lemma {:induction false} FirstNameWins(names: map<TID, string>, tags: seq<Tag>, i: nat)
    requires i < |tags| && tags[i].id !in names && tags[i].id !in Ids(tags[..i])
    ensures tags[i].id in InsertTags(names, tags) && InsertTags(names, tags)[tags[i].id] == tags[i].name
  {
    var front := tags[..|tags| - 1];
    InsertTagsMeaning(names, front);
    if i < |front| {
      assert front[..i] == tags[..i];
      FirstNameWins(names, front, i);
    }
  }

  /** The tags of a record in slug order. */
  ghost function TagList(names: map<TID, string>, ids: set<TID>): seq<Tag>
    requires ids <= names.Keys
  {
    var sorted := SortedList(ids);
    seq(|sorted|, i requires 0 <= i < |sorted| => Tag(sorted[i], names[sorted[i]]))
  }

  lemma TagListIds(names: map<TID, string>, ids: set<TID>)
    requires ids <= names.Keys
    ensures Ids(TagList(names, ids)) == ids
    ensures forall tag :: tag in TagList(names, ids) ==> tag.name == names[tag.id]
  {
    var sorted := SortedList(ids);
    forall id | id in ids ensures id in Ids(TagList(names, ids)) {
      var i :| 0 <= i < |sorted| && sorted[i] == id;
      assert TagList(names, ids)[i].id == id;
    }
  }

  /** Names that agree on a set of tags list it alike. */
  lemma TagListAgrees(names: map<TID, string>, names': map<TID, string>, ids: set<TID>)
    requires ids <= names.Keys && ids <= names'.Keys && forall id :: id in ids ==> names[id] == names'[id]
    ensures TagList(names, ids) == TagList(names', ids)
  {
  }

  // ---- reading

  ghost function FindRecord(t: Tables, rid: RID): Option<Record>
    requires ReferencesOk(t)
  {
    if rid !in t.records then None
    else
      var row := t.records[rid];
      Some(Record(rid, row.imported, row.source, row.info, TagList(t.tags, row.tags), t.creators[row.creatorID],
                  row.sync, row.exported, row.favorite))
  }

  // ---- writing a record

  function WithUrl(t: Tables, url: string): set<RID> {
    set r | r in t.records && t.records[r].info.normalizedURL == url
  }

  predicate Clashes(a: Row, b: Row) {
    a.source == b.source && (a.info.characterID == b.info.characterID || a.info.platformID == b.info.platformID)
  }

  predicate ClashesWithOther(t: Tables, rid: RID, row: Row) {
    exists r :: r in t.records && r != rid && Clashes(t.records[r], row)
  }

  /** A saved card overwrites what was fetched; a restored one also its sync,
      export and favourite data. Neither touches the import data. */
  function Merged(known: Row, incoming: Row, restoring: bool): Row {
    if restoring then incoming.(imported := known.imported, tags := known.tags)
    else
      incoming.(imported := known.imported, exported := known.exported, favorite := known.favorite, tags := known.tags)
  }

  /** INSERT ... ON CONFLICT (normalized_url) DO UPDATE. */
  ghost function Upsert(t: Tables, incoming: Row, restoring: bool): Option<(Tables, RID)> {
    if !ValidSource(incoming.source) || !ValidStatus(incoming.sync.status) then None
    else
      var same := WithUrl(t, incoming.info.normalizedURL);
      if same == {} then
        if !(0 <= t.lastRid < SIGN_BIT - 1) || ClashesWithOther(t, t.lastRid + 1, incoming) then None
        else
          var next := t.lastRid + 1;
          Some((t.(records := t.records[next := incoming.(tags := {})], lastRid := next), next))
      else
        var rid :| rid in same;
        var row := Merged(t.records[rid], incoming, restoring);
        if ClashesWithOther(t, rid, row) then None
        else Some((t.(records := t.records[rid := row]), rid))
  }

  function SetTags(t: Tables, rid: RID, ids: set<TID>): Tables
    requires rid in t.records
  {
    t.(records := t.records[rid := t.records[rid].(tags := ids)])
  }

  function WithCreator(t: Tables, c: Creator): Tables {
    t.(creators := t.creators[CreatorId(c.source, c.info.platformID) := c])
  }

  function WithTags(t: Tables, tags: seq<Tag>): Tables {
    t.(tags := InsertTags(t.tags, tags))
  }

  /** Tags, creator, record, and the record's tags: the steps of a save or a restore. */
  ghost function WriteRecord(t: Tables, tags: seq<Tag>, c: Creator, incoming: Row, restoring: bool):
      Option<(Tables, RID)>
  {
    if !ValidSource(c.source) then None
    else
      match Upsert(WithCreator(WithTags(t, tags), c), incoming, restoring)
      case None => None
      case Some((t', rid)) => if rid !in t'.records then None else Some((SetTags(t', rid, Ids(tags)), rid))
  }

  function SavedRow(meta: Metadata, time: int, index: int): Row {
    Row(ImportData(time, index), meta.source, meta.info, CreatorId(meta.source, meta.creator.platformID),
        SyncData(Success, time), ExportData(-1, -1), false, {})
  }

  function RestoredRow(rec: Record): Row {
    var status := if rec.sync.status == Blank then Success else rec.sync.status;
    Row(rec.imported, rec.source, rec.info, CreatorId(rec.creator.source, rec.creator.info.platformID),
        rec.sync.(status := status), rec.exported, rec.favorite, {})
  }

  ghost function SaveRecord(t: Tables, meta: Metadata, time: int, index: int): Option<(Tables, RID)> {
    WriteRecord(t, meta.tags, Creator(meta.source, meta.creator), SavedRow(meta, time, index), false)
  }

  ghost function RestoreRecord(t: Tables, rec: Record): Option<(Tables, RID)> {
    WriteRecord(t, rec.tags, rec.creator, RestoredRow(rec), true)
  }

  // ---- the other writes

  /** The driver refuses identifiers whose top bit is set. */
  predicate Refused(rids: seq<RID>) {
    exists r :: r in rids && r >= SIGN_BIT
  }

  function Members(rids: seq<RID>): set<RID> {
    set r | r in rids
  }

  function DeleteRecords(t: Tables, rids: set<RID>): Tables {
    t.(records := t.records - rids)
  }

  predicate HasRecords(t: Tables, cid: CID) {
    exists r :: r in t.records && t.records[r].creatorID == cid
  }

  function CleanCreators(t: Tables): Tables {
    t.(creators := map cid | cid in t.creators && HasRecords(t, cid) :: t.creators[cid])
  }

  function SetSync(t: Tables, rid: RID, sync: SyncData): Option<Tables> {
    if rid !in t.records || !ValidStatus(sync.status) then None
    else Some(t.(records := t.records[rid := t.records[rid].(sync := sync)]))
  }

  function SetExported(t: Tables, rid: RID, exported: ExportData): Option<Tables> {
    if rid !in t.records then None
    else Some(t.(records := t.records[rid := t.records[rid].(exported := exported)]))
  }

  function SetFavorite(t: Tables, rids: set<RID>, favorite: bool): Tables {
    t.(records := map r | r in t.records :: if r in rids then t.records[r].(favorite := favorite) else t.records[r])
  }

  // ---- what every write keeps

  /** No two records share a URL, or a source with a character or platform identifier. */
  ghost predicate UniqueRows(t: Tables) {
    forall r, q {:trigger Distinct(t.records[r], t.records[q])} ::
      r in t.records && q in t.records && r != q ==> Distinct(t.records[r], t.records[q])
  }

  predicate Distinct(a: Row, b: Row) {
    a.info.normalizedURL != b.info.normalizedURL && !Clashes(a, b)
  }

  /** Rows that keep their URLs, sources and identifiers stay distinct. */
  lemma StillDistinct(t: Tables, t': Tables)
    requires UniqueRows(t) && t'.records.Keys <= t.records.Keys
    requires forall r :: r in t'.records ==>
               t'.records[r].info == t.records[r].info && t'.records[r].source == t.records[r].source
    ensures UniqueRows(t')
  {
    forall r, q | r in t'.records && q in t'.records && r != q
      ensures Distinct(t'.records[r], t'.records[q])
    {
      assert Distinct(t.records[r], t.records[q]);
    }
  }

  /** Every record's creator and tags exist. */
  ghost predicate ReferencesOk(t: Tables) {
    forall r :: r in t.records ==> t.records[r].creatorID in t.creators && t.records[r].tags <= t.tags.Keys
  }

  ghost predicate RowsOk(t: Tables) {
    && 0 <= t.lastRid < SIGN_BIT
    && forall r :: r in t.records ==>
         0 < r <= t.lastRid && ValidSource(t.records[r].source) && ValidStatus(t.records[r].sync.status)
  }

  /** Every creator is filed under its source and platform identifier. */
  ghost predicate CreatorsOk(t: Tables) {
    forall cid :: cid in t.creators ==>
      var c := t.creators[cid]; ValidSource(c.source) && cid == CreatorId(c.source, c.info.platformID)
  }

  ghost predicate Sound(t: Tables) {
    UniqueRows(t) && ReferencesOk(t) && RowsOk(t) && CreatorsOk(t)
  }

  /** One record has a URL, at most. */
  lemma OneRowPerUrl(t: Tables, r: RID, q: RID)
    requires UniqueRows(t) && r in t.records && q in t.records
    requires t.records[r].info.normalizedURL == t.records[q].info.normalizedURL
    ensures r == q
  {
    assert r != q ==> Distinct(t.records[r], t.records[q]);
  }

  lemma WithTagsSound(t: Tables, tags: seq<Tag>)
    requires Sound(t)
    ensures Sound(WithTags(t, tags))
  {
    StillDistinct(t, WithTags(t, tags));
    InsertTagsMeaning(t.tags, tags);
  }

  lemma WithCreatorSound(t: Tables, c: Creator)
    requires Sound(t) && ValidSource(c.source)
    ensures Sound(WithCreator(t, c))
  {
    StillDistinct(t, WithCreator(t, c));
  }

  /** Where an upsert writes: over the record that has the URL, if there is one. */
  ghost predicate UpsertsAt(t: Tables, url: string, rid: RID) {
    if rid in t.records then t.records[rid].info.normalizedURL == url
    else WithUrl(t, url) == {} && rid == t.lastRid + 1
  }

  lemma UpsertResult(t: Tables, incoming: Row, restoring: bool)
    requires Sound(t) && Upsert(t, incoming, restoring).Some?
    ensures var (t', rid) := Upsert(t, incoming, restoring).value;
            && UpsertsAt(t, incoming.info.normalizedURL, rid)
            && t' == t.(records := t.records[rid := if rid in t.records then Merged(t.records[rid], incoming, restoring)
                                                    else incoming.(tags := {})],
                        lastRid := if rid in t.records then t.lastRid else rid)
            && !ClashesWithOther(t, rid, incoming)
  {
    var (t', rid) := Upsert(t, incoming, restoring).value;
    if rid in t.records {
      var row := Merged(t.records[rid], incoming, restoring);
      assert forall r :: r in t.records ==> (Clashes(t.records[r], row) <==> Clashes(t.records[r], incoming));
    }
  }

  lemma UpsertUnique(t: Tables, incoming: Row, rid: RID, row: Row)
    requires UniqueRows(t) && UpsertsAt(t, incoming.info.normalizedURL, rid) && !ClashesWithOther(t, rid, incoming)
    requires row.info == incoming.info && row.source == incoming.source
    ensures UniqueRows(t.(records := t.records[rid := row]))
  {
    var t' := t.(records := t.records[rid := row]);
    forall r | r in t.records && r != rid ensures Distinct(t.records[r], row) {
      assert r in WithUrl(t, row.info.normalizedURL) <==> t.records[r].info.normalizedURL == row.info.normalizedURL;
      assert rid in t.records ==> Distinct(t.records[r], t.records[rid]);
      assert Clashes(t.records[r], row) <==> Clashes(t.records[r], incoming);
    }
    forall r, q | r in t'.records && q in t'.records && r != q
      ensures Distinct(t'.records[r], t'.records[q])
    {
      assert r != rid && q != rid ==> Distinct(t.records[r], t.records[q]);
    }
  }

  lemma UpsertSound(t: Tables, incoming: Row, restoring: bool)
    requires Sound(t) && incoming.creatorID in t.creators && Upsert(t, incoming, restoring).Some?
    ensures var (t', rid) := Upsert(t, incoming, restoring).value;
            Sound(t') && rid in t'.records
  {
    UpsertResult(t, incoming, restoring);
    var (t', rid) := Upsert(t, incoming, restoring).value;
    UpsertUnique(t, incoming, rid, t'.records[rid]);
    assert UniqueRows(t');
  }

  lemma WriteRecordSound(t: Tables, tags: seq<Tag>, c: Creator, incoming: Row, restoring: bool)
    requires Sound(t) && incoming.creatorID == CreatorId(c.source, c.info.platformID)
    requires WriteRecord(t, tags, c, incoming, restoring).Some?
    ensures Sound(WriteRecord(t, tags, c, incoming, restoring).value.0)
  {
    WithTagsSound(t, tags);
    InsertTagsMeaning(t.tags, tags);
    WithCreatorSound(WithTags(t, tags), c);
    UpsertSound(WithCreator(WithTags(t, tags), c), incoming, restoring);
    var (t', rid) := Upsert(WithCreator(WithTags(t, tags), c), incoming, restoring).value;
    UpsertResult(WithCreator(WithTags(t, tags), c), incoming, restoring);
    SetTagsSound(t', rid, Ids(tags));
  }

  lemma SetTagsSound(t: Tables, rid: RID, ids: set<TID>)
    requires Sound(t) && rid in t.records && ids <= t.tags.Keys
    ensures Sound(SetTags(t, rid, ids))
  {
    StillDistinct(t, SetTags(t, rid, ids));
  }

  /** The whole state after a successful write, and exactly when it succeeds. */
  lemma WriteResult(t: Tables, tags: seq<Tag>, c: Creator, incoming: Row, restoring: bool)
    requires Sound(t)
    ensures var written := WriteRecord(t, tags, c, incoming, restoring);
            written.Some? ==>
              var (t', rid) := written.value;
              && UpsertsAt(t, incoming.info.normalizedURL, rid)
              && t' == Tables(
                   t.records[rid := (if rid in t.records then Merged(t.records[rid], incoming, restoring)
                                     else incoming).(tags := Ids(tags))],
                   t.creators[CreatorId(c.source, c.info.platformID) := c],
                   InsertTags(t.tags, tags),
                   if rid in t.records then t.lastRid else rid)
              && !ClashesWithOther(t, rid, incoming)
  {
    if WriteRecord(t, tags, c, incoming, restoring).Some? {
      var u := WithCreator(WithTags(t, tags), c);
      WithTagsSound(t, tags);
      WithCreatorSound(WithTags(t, tags), c);
      UpsertResult(u, incoming, restoring);
      var rid := Upsert(u, incoming, restoring).value.1;
      assert WithUrl(u, incoming.info.normalizedURL) == WithUrl(t, incoming.info.normalizedURL);
      assert ClashesWithOther(u, rid, incoming) == ClashesWithOther(t, rid, incoming);
    }
  }

  /** A write succeeds exactly on a known source and status, and a card whose
      source and identifiers no record with another URL has, as long as an
      identifier is left for a card with a new URL. */
  lemma WriteOutcome(t: Tables, tags: seq<Tag>, c: Creator, incoming: Row, restoring: bool, rid: RID)
    requires Sound(t) && UpsertsAt(t, incoming.info.normalizedURL, rid)
    ensures WriteRecord(t, tags, c, incoming, restoring).Some? <==>
            && ValidSource(c.source) && ValidSource(incoming.source) && ValidStatus(incoming.sync.status)
            && !ClashesWithOther(t, rid, incoming) && rid < SIGN_BIT
  {
    var u := WithCreator(WithTags(t, tags), c);
    var same := WithUrl(u, incoming.info.normalizedURL);
    assert same == WithUrl(t, incoming.info.normalizedURL);
    if rid in t.records {
      assert rid in same;
      forall r | r in same ensures r == rid {
        OneRowPerUrl(u, r, rid);
      }
      var row := Merged(u.records[rid], incoming, restoring);
      assert forall r :: r in t.records ==> (Clashes(t.records[r], row) <==> Clashes(t.records[r], incoming));
      assert ClashesWithOther(u, rid, row) == ClashesWithOther(t, rid, incoming);
    } else {
      assert ClashesWithOther(u, rid, incoming) == ClashesWithOther(t, rid, incoming);
    }
  }

  // ---- what a save and a restore mean

  /** Saving a known URL keeps its identifier, import data, export data and favourite
      flag; a new URL gets an identifier never used before. No other record changes. */
  lemma SaveKeepsIdentity(t: Tables, meta: Metadata, time: int, index: int, known: RID)
    requires Sound(t) && SaveRecord(t, meta, time, index).Some?
    ensures var (t', rid) := SaveRecord(t, meta, time, index).value;
            && rid in t'.records && t'.records.Keys == t.records.Keys + {rid}
            && (forall r :: r in t.records && r != rid ==> t'.records[r] == t.records[r])
            && t'.records[rid].info == meta.info && t'.records[rid].source == meta.source
            && t'.records[rid].sync == SyncData(Success, time)
    ensures var (t', rid) := SaveRecord(t, meta, time, index).value;
            if known in t.records && t.records[known].info.normalizedURL == meta.info.normalizedURL then
              && rid == known && t'.lastRid == t.lastRid
              && t'.records[rid].imported == t.records[rid].imported
              && t'.records[rid].exported == t.records[rid].exported
              && t'.records[rid].favorite == t.records[rid].favorite
            else
              (forall r :: r in t.records ==> t.records[r].info.normalizedURL != meta.info.normalizedURL) ==>
                && rid == t'.lastRid == t.lastRid + 1 && rid !in t.records
                && t'.records[rid].imported == ImportData(time, index)
                && t'.records[rid].exported == ExportData(-1, -1) && !t'.records[rid].favorite
  {
    WriteResult(t, meta.tags, Creator(meta.source, meta.creator), SavedRow(meta, time, index), false);
    var (t', rid) := SaveRecord(t, meta, time, index).value;
    if known in t.records && t.records[known].info.normalizedURL == meta.info.normalizedURL {
      assert known in WithUrl(t, meta.info.normalizedURL);
      OneRowPerUrl(t, known, rid);
    }
  }

  lemma SaveSound(t: Tables, meta: Metadata, time: int, index: int)
    requires Sound(t) && SaveRecord(t, meta, time, index).Some?
    ensures var (t', rid) := SaveRecord(t, meta, time, index).value;
            && Sound(t') && FindRecord(t', rid).Some?
            && FindRecord(t', rid).value.creator == Creator(meta.source, meta.creator)
            && Ids(FindRecord(t', rid).value.tags) == Ids(meta.tags)
  {
    WriteRecordSound(t, meta.tags, Creator(meta.source, meta.creator), SavedRow(meta, time, index), false);
    WriteResult(t, meta.tags, Creator(meta.source, meta.creator), SavedRow(meta, time, index), false);
    InsertTagsMeaning(t.tags, meta.tags);
    var (t', rid) := SaveRecord(t, meta, time, index).value;
    TagListIds(t'.tags, Ids(meta.tags));
  }

  lemma RestoreSound(t: Tables, rec: Record)
    requires Sound(t) && RestoreRecord(t, rec).Some?
    ensures var (t', rid) := RestoreRecord(t, rec).value;
            && Sound(t') && FindRecord(t', rid).Some? && FindRecord(t', rid).value.info == rec.info
            && t'.records.Keys == t.records.Keys + {rid}
            && (forall r :: r in t.records && r != rid ==> t'.records[r] == t.records[r])
            && (rid in t.records || rid == t.lastRid + 1)
  {
    WriteRecordSound(t, rec.tags, rec.creator, RestoredRow(rec), true);
    WriteResult(t, rec.tags, rec.creator, RestoredRow(rec), true);
  }

  /** Restoring over a known URL keeps its identifier and import data and overwrites
      the rest; a blank sync status becomes a success. */
  lemma RestoreOverwrites(t: Tables, rec: Record, known: RID)
    requires Sound(t) && RestoreRecord(t, rec).Some?
    requires known in t.records && t.records[known].info.normalizedURL == rec.info.normalizedURL
    ensures var (t', rid) := RestoreRecord(t, rec).value;
            && rid == known && t'.records.Keys == t.records.Keys && t'.lastRid == t.lastRid
            && t'.records[rid].imported == t.records[rid].imported
            && t'.records[rid].info == rec.info && t'.records[rid].source == rec.source
            && t'.records[rid].exported == rec.exported && t'.records[rid].favorite == rec.favorite
            && t'.records[rid].sync.time == rec.sync.time && t'.records[rid].tags == Ids(rec.tags)
            && t'.records[rid].sync.status == if rec.sync.status == Blank then Success else rec.sync.status
  {
    WriteResult(t, rec.tags, rec.creator, RestoredRow(rec), true);
    assert known in WithUrl(t, rec.info.normalizedURL);
    OneRowPerUrl(t, known, RestoreRecord(t, rec).value.1);
  }

  /** A record that was read holds its whole row. */
  lemma FoundRow(t: Tables, r: RID)
    requires Sound(t) && r in t.records
    ensures var rec := FindRecord(t, r).value;
            && RestoredRow(rec).(tags := Ids(rec.tags)) == t.records[r]
            && CreatorId(rec.creator.source, rec.creator.info.platformID) == t.records[r].creatorID
            && rec.creator == t.creators[t.records[r].creatorID] && ValidSource(rec.creator.source)
            && Ids(rec.tags) == t.records[r].tags
  {
    TagListIds(t.tags, t.records[r].tags);
  }

  /** The database has no record of the same card under any identifier. */
  ghost predicate Unknown(u: Tables, row: Row) {
    forall q :: q in u.records ==>
      u.records[q].info.normalizedURL != row.info.normalizedURL && !Clashes(u.records[q], row)
  }

  lemma UnknownIsFree(u: Tables, row: Row)
    requires RowsOk(u) && Unknown(u, row) && u.lastRid < SIGN_BIT - 1
    ensures UpsertsAt(u, row.info.normalizedURL, u.lastRid + 1) && !ClashesWithOther(u, u.lastRid + 1, row)
    ensures u.lastRid + 1 !in u.records
    ensures forall rid :: UpsertsAt(u, row.info.normalizedURL, rid) ==> rid == u.lastRid + 1
  {
    assert WithUrl(u, row.info.normalizedURL) == {};
  }

  lemma RestoreSucceeds(u: Tables, rec: Record)
    requires Sound(u) && Unknown(u, RestoredRow(rec)) && u.lastRid < SIGN_BIT - 1
    requires ValidSource(rec.source) && ValidSource(rec.creator.source) && ValidStatus(RestoredRow(rec).sync.status)
    ensures RestoreRecord(u, rec) == Some((
              Tables(
                 u.records[u.lastRid + 1 := RestoredRow(rec).(tags := Ids(rec.tags))],
                 u.creators[CreatorId(rec.creator.source, rec.creator.info.platformID) := rec.creator],
                 InsertTags(u.tags, rec.tags), u.lastRid + 1),
              u.lastRid + 1))
  {
    UnknownIsFree(u, RestoredRow(rec));
    WriteOutcome(u, rec.tags, rec.creator, RestoredRow(rec), true, u.lastRid + 1);
    WriteResult(u, rec.tags, rec.creator, RestoredRow(rec), true);
  }

  /** Restoring a record read from one database into another that does not know
      the card yields the same record under the next identifier. */
  lemma RestoreIsFaithful(t: Tables, r: RID, u: Tables)
    requires Sound(t) && Sound(u) && r in t.records && Unknown(u, t.records[r]) && u.lastRid < SIGN_BIT - 1
    ensures var rec := FindRecord(t, r).value;
            RestoreRecord(u, rec) == Some((
              Tables(
                 u.records[u.lastRid + 1 := t.records[r]],
                 u.creators[t.records[r].creatorID := t.creators[t.records[r].creatorID]],
                 InsertTags(u.tags, rec.tags), u.lastRid + 1),
              u.lastRid + 1))
  {
    FoundRow(t, r);
    RestoreSucceeds(u, FindRecord(t, r).value);
  }

  lemma CleanCreatorsSound(t: Tables)
    requires Sound(t)
    ensures Sound(CleanCreators(t))
    ensures CleanCreators(t).creators.Keys == set r | r in t.records :: t.records[r].creatorID
  {
    StillDistinct(t, CleanCreators(t));
    forall r | r in t.records ensures HasRecords(t, t.records[r].creatorID) {
    }
  }

  lemma DeleteSound(t: Tables, rids: set<RID>)
    requires Sound(t)
    ensures Sound(DeleteRecords(t, rids))
  {
    StillDistinct(t, DeleteRecords(t, rids));
  }

  lemma FavoriteSound(t: Tables, rids: set<RID>, favorite: bool)
    requires Sound(t)
    ensures Sound(SetFavorite(t, rids, favorite))
  {
    var t' := SetFavorite(t, rids, favorite);
    forall r | r in t'.records
      ensures r in t.records && (t'.records[r] == t.records[r] || t'.records[r] == t.records[r].(favorite := favorite))
    {
    }
    StillDistinct(t, t');
  }

  /** Changing a record's sync, export or favourite data breaks nothing. */
  lemma RowUpdateSound(t: Tables, rid: RID, row: Row)
    requires Sound(t) && rid in t.records && ValidStatus(row.sync.status)
    requires row.info == t.records[rid].info && row.source == t.records[rid].source
    requires row.creatorID == t.records[rid].creatorID && row.tags == t.records[rid].tags
    ensures Sound(t.(records := t.records[rid := row]))
  {
    StillDistinct(t, t.(records := t.records[rid := row]));
  }
}
