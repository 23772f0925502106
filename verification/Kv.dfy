/** The sorted byte-key map under pblob, and how it represents a blob store. */
module Kv {
  import opened Wrappers
  import opened Bytes
  import opened Keys
  import opened BlobSpec

  datatype Blob = PngBlob(card: Card) | ThumbnailBlob(image: string)

  type Db = map<seq<byte>, Blob>

  /** What a batch records. */
  datatype Write = Set(key: seq<byte>, blob: Blob) | DeleteRange(start: seq<byte>, end: seq<byte>)

  function Apply(db: Db, w: Write): Db {
    match w
    case Set(key, blob) => db[key := blob]
    case DeleteRange(start, end) => map k | k in db && !(AtMost(start, k) && Less(k, end)) :: db[k]
  }

  /** The database with a log of writes laid over it. */
  function Replay(db: Db, log: seq<Write>): Db {
    if log == [] then db else Apply(Replay(db, log[..|log| - 1]), log[|log| - 1])
  }

  lemma ReplayAppend(db: Db, log: seq<Write>, w: Write)
    ensures Replay(db, log + [w]) == Apply(Replay(db, log), w)
  {
    assert (log + [w])[..|log|] == log;
  }

  // ---- iterators

  predicate InBounds(k: seq<byte>, lower: Option<seq<byte>>, upper: Option<seq<byte>>) {
    (lower.Some? ==> AtMost(lower.value, k)) && (upper.Some? ==> Less(k, upper.value))
  }

  /** The keys an iterator with these bounds visits, first to last. */
  method Iterate(db: Db, lower: Option<seq<byte>>, upper: Option<seq<byte>>) returns (ks: seq<seq<byte>>)
    ensures Sorted(ks)
    ensures forall k :: k in ks <==> k in db && InBounds(k, lower, upper)
  {
    ks := SortKeys(set k | k in db && InBounds(k, lower, upper));
  }

  // ---- representation

  predicate Stored(k: seq<byte>) {
    || (|k| == MAX_KEY_LENGTH && k == PngKey(GetRID(k), GetVersion(k)))
    || (|k| == TYPE_POSITION + 1 && k == ThumbnailKey(GetRID(k)))
  }

  /** Every key is an image key or a thumbnail key, and they say what st says. */
  ghost predicate Represents(db: Db, st: State) {
    && (forall k :: k in db ==> Stored(k))
    && (forall r: RID, v: Version :: PngKey(r, v) in db <==> (r, v) in st.cards)
    && (forall r: RID, v: Version :: PngKey(r, v) in db ==> db[PngKey(r, v)] == PngBlob(st.cards[(r, v)]))
    && (forall r: RID :: ThumbnailKey(r) in db <==> r in st.thumbs)
    && (forall r: RID :: ThumbnailKey(r) in db ==> db[ThumbnailKey(r)] == ThumbnailBlob(st.thumbs[r]))
  }

  lemma PngKeyStored(r: RID, v: Version)
    ensures GetRID(PngKey(r, v)) == r && GetVersion(PngKey(r, v)) == v && Stored(PngKey(r, v))
  {
    GettersRecover(Logical(r, PNG_TYPE, Some(v)));
  }

  lemma ThumbnailKeyStored(r: RID)
    ensures GetRID(ThumbnailKey(r)) == r && Stored(ThumbnailKey(r))
  {
    GettersRecover(Logical(r, THUMBNAIL_TYPE, None));
  }

  lemma KeysDistinct()
    ensures forall r: RID, v: Version, q: RID, w: Version :: PngKey(r, v) == PngKey(q, w) ==> r == q && v == w
    ensures forall r: RID, q: RID :: ThumbnailKey(r) == ThumbnailKey(q) ==> r == q
    ensures forall r: RID, v: Version, q: RID :: PngKey(r, v) != ThumbnailKey(q)
  {
    forall r: RID, v: Version, q: RID, w: Version | PngKey(r, v) == PngKey(q, w)
      ensures r == q && v == w
    {
      PngKeyStored(r, v);
      PngKeyStored(q, w);
    }
    forall r: RID, q: RID | ThumbnailKey(r) == ThumbnailKey(q)
      ensures r == q
    {
      ThumbnailKeyStored(r);
      ThumbnailKeyStored(q);
    }
  }

  lemma SetCard(db: Db, st: State, rid: RID, v: Version, card: Card)
    requires Represents(db, st)
    ensures Represents(db[PngKey(rid, v) := PngBlob(card)], st.(cards := st.cards[(rid, v) := card]))
  {
    KeysDistinct();
    PngKeyStored(rid, v);
  }

  lemma SetThumbnail(db: Db, st: State, rid: RID, image: string)
    requires Represents(db, st)
    ensures Represents(db[ThumbnailKey(rid) := ThumbnailBlob(image)], st.(thumbs := st.thumbs[rid := image]))
  {
    KeysDistinct();
    ThumbnailKeyStored(rid);
  }

  // ---- ranges touch what they should and nothing else

  /** A key range bounded by image keys of one card holds exactly that card's
      versions in the half-open interval. */
  lemma VersionRange(rid: RID, lower: Version, upper: Version)
    ensures forall r: RID, v: Version ::
              AtMost(PngKey(rid, lower), PngKey(r, v)) && Less(PngKey(r, v), PngKey(rid, upper))
              <==> r == rid && lower <= v < upper
    ensures forall r: RID ::
              !(AtMost(PngKey(rid, lower), ThumbnailKey(r)) && Less(ThumbnailKey(r), PngKey(rid, upper)))
  {
    var lo, hi := Logical(rid, PNG_TYPE, Some(lower)), Logical(rid, PNG_TYPE, Some(upper));
    forall r: RID, v: Version
      ensures AtMost(PngKey(rid, lower), PngKey(r, v)) && Less(PngKey(r, v), PngKey(rid, upper))
              <==> r == rid && lower <= v < upper
    {
      KeyOrder(Logical(r, PNG_TYPE, Some(v)), lo);
      KeyOrder(Logical(r, PNG_TYPE, Some(v)), hi);
    }
    forall r: RID
      ensures !(AtMost(PngKey(rid, lower), ThumbnailKey(r)) && Less(ThumbnailKey(r), PngKey(rid, upper)))
    {
      KeyOrder(Logical(r, THUMBNAIL_TYPE, None), lo);
      KeyOrder(Logical(r, THUMBNAIL_TYPE, None), hi);
    }
  }

  /** A key range bounded by type prefixes of one card holds exactly that card's
      keys of the types in the half-open interval, whatever the RID. */
  lemma TypeRange(rid: RID, from: byte, to: byte)
    ensures forall r: RID, v: Version ::
              AtMost(TypePrefix(rid, from), PngKey(r, v)) && Less(PngKey(r, v), TypePrefix(rid, to))
              <==> r == rid && from <= PNG_TYPE < to
    ensures forall r: RID ::
              AtMost(TypePrefix(rid, from), ThumbnailKey(r)) && Less(ThumbnailKey(r), TypePrefix(rid, to))
              <==> r == rid && from <= THUMBNAIL_TYPE < to
  {
    var lo, hi := Logical(rid, from, None), Logical(rid, to, None);
    forall r: RID, v: Version
      ensures AtMost(TypePrefix(rid, from), PngKey(r, v)) && Less(PngKey(r, v), TypePrefix(rid, to))
              <==> r == rid && from <= PNG_TYPE < to
    {
      KeyOrder(Logical(r, PNG_TYPE, Some(v)), lo);
      KeyOrder(Logical(r, PNG_TYPE, Some(v)), hi);
    }
    forall r: RID
      ensures AtMost(TypePrefix(rid, from), ThumbnailKey(r)) && Less(ThumbnailKey(r), TypePrefix(rid, to))
              <==> r == rid && from <= THUMBNAIL_TYPE < to
    {
      KeyOrder(Logical(r, THUMBNAIL_TYPE, None), lo);
      KeyOrder(Logical(r, THUMBNAIL_TYPE, None), hi);
    }
  }

  lemma DeleteVersionRange(db: Db, st: State, rid: RID, lower: Version, upper: Version)
    requires Represents(db, st)
    ensures Represents(Apply(db, DeleteRange(PngKey(rid, lower), PngKey(rid, upper))),
                       DropVersions(st, rid, lower, upper))
  {
    VersionRange(rid, lower, upper);
    DroppedVersions(st, rid, lower, upper);
    var db' := Apply(db, DeleteRange(PngKey(rid, lower), PngKey(rid, upper)));
    var st' := DropVersions(st, rid, lower, upper);
    forall r: RID, v: Version
      ensures PngKey(r, v) in db' <==> (r, v) in st'.cards
    {
      assert PngKey(r, v) in db <==> (r, v) in st.cards;
    }
  }

  lemma DroppedVersions(st: State, rid: RID, lower: Version, upper: Version)
    ensures var st' := DropVersions(st, rid, lower, upper);
            && st'.thumbs == st.thumbs
            && (forall p :: p in st'.cards <==> p in st.cards && !(p.0 == rid && lower <= p.1 < upper))
            && (forall p :: p in st'.cards ==> st'.cards[p] == st.cards[p])
  {
    forall p | p in st.cards && p.0 == rid
      ensures p.1 in VersionsOf(st, rid)
    {
    }
  }

  lemma DeleteCardRange(db: Db, st: State, rid: RID)
    requires Represents(db, st)
    ensures Represents(Apply(db, DeleteRange(TypePrefix(rid, MIN_TYPE), TypePrefix(rid, MAX_TYPE))), DropCard(st, rid))
  {
    TypeRange(rid, MIN_TYPE, MAX_TYPE);
  }
}
