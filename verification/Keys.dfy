/** The composite Pebble key: RID, data type and version packed into bytes whose
    order is the logical order. */
module Keys {
  import opened Wrappers
  import opened Bytes

  const SIGN_BIT: int := 0x8000_0000_0000_0000
  const WORD: int := 0x1_0000_0000_0000_0000

  type RID = x: int | 0 <= x < 0x1_0000_0000_0000_0000
  type Version = x: int | -0x8000_0000_0000_0000 <= x < 0x8000_0000_0000_0000

  const PNG_TYPE: byte := 0x00
  const THUMBNAIL_TYPE: byte := 0x7F
  const MIN_TYPE: byte := 0x00
  const MAX_TYPE: byte := 0xFF

  const TYPE_POSITION := 8
  const MAX_KEY_LENGTH := 17

  /** Go's conversion of an int64 to a uint64. */
  function ToUnsigned(v: Version): RID {
    if v < 0 then v + WORD else v
  }

  /** Go's conversion of a uint64 to an int64. */
  function ToSigned(u: RID): Version {
    if u >= SIGN_BIT then u - WORD else u
  }

  /** `u ^ signBit`: the top bit of a 64-bit word is flipped. */
  function FlipSign(u: RID): RID {
    if u >= SIGN_BIT then u - SIGN_BIT else u + SIGN_BIT
  }

  /** The key builder is a small value that shares its byte buffer with every
      copy made from it. */
  datatype Key = Key(data: array<byte>, len: nat)

  function Patch(d: seq<byte>, at: nat, s: seq<byte>): (r: seq<byte>)
    requires at + |s| <= |d|
    ensures |r| == |d|
  {
    d[..at] + s + d[at + |s|..]
  }

  method PutUint64(data: array<byte>, at: nat, v: RID)
    requires at + 8 <= data.Length
    modifies data
    ensures data[..] == Patch(old(data[..]), at, BigEndian(8, v))
  {
    ghost var was := data[..];
    var rest, i := v, 8;
    while i > 0
      invariant 0 <= i <= 8 && rest >= 0
      invariant BigEndian(8, v) == BigEndian(i, rest) + data[at + i..at + 8]
      invariant data[..at + i] == was[..at + i] && data[at + 8..] == was[at + 8..]
    {
      ghost var tail := data[at + i..at + 8];
      i := i - 1;
      data[at + i] := rest % 256;
      assert data[at + i..at + 8] == [rest % 256] + tail;
      assert data[..at + i] == was[..at + i + 1][..at + i];
      rest := rest / 256;
    }
    assert data[..] == data[..at] + data[at..at + 8] + data[at + 8..];
  }

  method NewKey() returns (k: Key)
    ensures fresh(k.data) && k.data.Length == MAX_KEY_LENGTH && k.len == 0
  {
    var data := new byte[MAX_KEY_LENGTH](_ => 0);
    k := Key(data, 0);
  }

  method SetRID(k: Key, rid: RID) returns (r: Key)
    requires k.data.Length == MAX_KEY_LENGTH
    modifies k.data
    ensures r == Key(k.data, if k.len < TYPE_POSITION then TYPE_POSITION else k.len)
    ensures k.data[..] == WithRID(old(k.data[..]), rid)
  {
    PutUint64(k.data, 0, rid);
    r := if k.len < TYPE_POSITION then k.(len := TYPE_POSITION) else k;
  }

  method SetType(k: Key, t: byte) returns (r: Key)
    requires k.data.Length == MAX_KEY_LENGTH
    modifies k.data
    ensures r == Key(k.data, if k.len < TYPE_POSITION + 1 then TYPE_POSITION + 1 else k.len)
    ensures k.data[..] == WithType(old(k.data[..]), t)
  {
    k.data[TYPE_POSITION] := t;
    r := if k.len < TYPE_POSITION + 1 then k.(len := TYPE_POSITION + 1) else k;
  }

  method SetVersion(k: Key, v: Version) returns (r: Key)
    requires k.data.Length == MAX_KEY_LENGTH
    modifies k.data
    ensures r == Key(k.data, if k.len < MAX_KEY_LENGTH then MAX_KEY_LENGTH else k.len)
    ensures k.data[..] == WithVersion(old(k.data[..]), v)
  {
    PutUint64(k.data, TYPE_POSITION + 1, FlipSign(ToUnsigned(v)));
    r := if k.len < MAX_KEY_LENGTH then k.(len := MAX_KEY_LENGTH) else k;
  }

  /** What the three setters do to the whole buffer. */
  function WithRID(d: seq<byte>, rid: RID): (r: seq<byte>)
    requires |d| == MAX_KEY_LENGTH
    ensures |r| == MAX_KEY_LENGTH
  {
    Patch(d, 0, BigEndian(8, rid))
  }

  function WithType(d: seq<byte>, t: byte): (r: seq<byte>)
    requires |d| == MAX_KEY_LENGTH
    ensures |r| == MAX_KEY_LENGTH
  {
    Patch(d, TYPE_POSITION, [t])
  }

  function WithVersion(d: seq<byte>, v: Version): (r: seq<byte>)
    requires |d| == MAX_KEY_LENGTH
    ensures |r| == MAX_KEY_LENGTH
  {
    Patch(d, TYPE_POSITION + 1, VersionBytes(v))
  }

  function VersionBytes(v: Version): (s: seq<byte>)
    ensures |s| == 8
  {
    BigEndian(8, FlipSign(ToUnsigned(v)))
  }

  /** The three setters commute pairwise, and once all three have run nothing of
      the buffer's earlier content is left. */
  lemma SettersCommute(d: seq<byte>, rid: RID, t: byte, v: Version)
    requires |d| == MAX_KEY_LENGTH
    ensures WithRID(WithType(d, t), rid) == WithType(WithRID(d, rid), t)
    ensures WithRID(WithVersion(d, v), rid) == WithVersion(WithRID(d, rid), v)
    ensures WithType(WithVersion(d, v), t) == WithVersion(WithType(d, t), v)
    ensures WithVersion(WithType(WithRID(d, rid), t), v) == Encode(Logical(rid, t, Some(v)))
  {
    SetterPoints(d, rid, t, v);
    SetterPoints(WithType(d, t), rid, t, v);
    SetterPoints(WithVersion(d, v), rid, t, v);
    SetterPoints(WithRID(d, rid), rid, t, v);
    SetterPoints(WithType(WithRID(d, rid), t), rid, t, v);
  }

  lemma SetterPoints(d: seq<byte>, rid: RID, t: byte, v: Version)
    requires |d| == MAX_KEY_LENGTH
    ensures forall i :: 0 <= i < MAX_KEY_LENGTH ==>
              WithRID(d, rid)[i] == if i < 8 then BigEndian(8, rid)[i] else d[i]
    ensures forall i :: 0 <= i < MAX_KEY_LENGTH ==> WithType(d, t)[i] == if i == 8 then t else d[i]
    ensures forall i :: 0 <= i < MAX_KEY_LENGTH ==>
              WithVersion(d, v)[i] == if 9 <= i then VersionBytes(v)[i - 9] else d[i]
  {
  }

  // ---- getters

  function KeyBytes(k: Key): seq<byte>
    requires k.len <= k.data.Length
    reads k.data
  {
    k.data[..k.len]
  }

  function GetRID(d: seq<byte>): (rid: RID)
    requires |d| >= TYPE_POSITION
  {
    BigEndianOfValue(d[..8]);
    SpanOfWord();
    Value(d[..8])
  }

  function GetType(d: seq<byte>): byte
    requires |d| > TYPE_POSITION
  {
    d[TYPE_POSITION]
  }

  function GetVersion(d: seq<byte>): (v: Version)
    requires |d| == MAX_KEY_LENGTH
  {
    BigEndianOfValue(d[9..]);
    SpanOfWord();
    ToSigned(FlipSign(Value(d[9..])))
  }

  lemma SpanOfWord()
    ensures Span(8) == WORD
  {
    assert Span(2) == 0x1_0000;
    assert Span(4) == 0x1_0000_0000;
    assert Span(6) == 0x1_0000_0000_0000;
  }

  // ---- logical keys

  /** A key as the store means it; `version` is absent in thumbnail keys and in
      the bounds of range scans. */
  datatype Logical = Logical(rid: RID, kind: byte, version: Option<Version>)

  function Encode(l: Logical): (s: seq<byte>)
    ensures |s| == if l.version.Some? then MAX_KEY_LENGTH else TYPE_POSITION + 1
  {
    BigEndian(8, l.rid) + [l.kind] + (if l.version.Some? then VersionBytes(l.version.value) else [])
  }

  /** Unsigned RID first, then type, then signed version; a bare prefix comes
      before everything that extends it. */
  predicate Before(a: Logical, b: Logical) {
    || a.rid < b.rid
    || (a.rid == b.rid && a.kind < b.kind)
    || (a.rid == b.rid && a.kind == b.kind && b.version.Some? &&
        (a.version.None? || a.version.value < b.version.value))
  }

  lemma VersionOrder(v: Version, w: Version)
    ensures Less(VersionBytes(v), VersionBytes(w)) <==> v < w
  {
    SpanOfWord();
    BigEndianOrder(8, FlipSign(ToUnsigned(v)), FlipSign(ToUnsigned(w)));
  }

  /** Bytes compare exactly as logical keys do. */
  lemma KeyOrder(a: Logical, b: Logical)
    ensures Less(Encode(a), Encode(b)) <==> Before(a, b)
  {
    var va := if a.version.Some? then VersionBytes(a.version.value) else [];
    var vb := if b.version.Some? then VersionBytes(b.version.value) else [];
    var ra, rb := BigEndian(8, a.rid), BigEndian(8, b.rid);
    SpanOfWord();
    BigEndianOrder(8, a.rid, b.rid);
    ValueOfBigEndian(8, a.rid);
    ValueOfBigEndian(8, b.rid);
    LessConcat(ra + [a.kind], rb + [b.kind], va, vb);
    LessConcat(ra, rb, [a.kind], [b.kind]);
    assert (ra + [a.kind])[..8] == ra && (rb + [b.kind])[..8] == rb;
    assert (ra + [a.kind])[8] == a.kind && (rb + [b.kind])[8] == b.kind;
    if a.version.Some? && b.version.Some? {
      VersionOrder(a.version.value, b.version.value);
    }
  }

  /** The getters give back what was encoded, for every 64-bit RID and version. */
  lemma GettersRecover(l: Logical)
    ensures GetRID(Encode(l)) == l.rid
    ensures GetType(Encode(l)) == l.kind
    ensures l.version.Some? ==> GetVersion(Encode(l)) == l.version.value
  {
    SpanOfWord();
    assert Encode(l)[..8] == BigEndian(8, l.rid);
    ValueOfBigEndian(8, l.rid);
    if l.version.Some? {
      var u := FlipSign(ToUnsigned(l.version.value));
      assert Encode(l)[9..] == BigEndian(8, u);
      ValueOfBigEndian(8, u);
    }
  }

  // ---- the keys the store builds

  function PngKey(rid: RID, v: Version): seq<byte> {
    Encode(Logical(rid, PNG_TYPE, Some(v)))
  }

  function TypePrefix(rid: RID, t: byte): seq<byte> {
    Encode(Logical(rid, t, None))
  }

  function ThumbnailKey(rid: RID): seq<byte> {
    TypePrefix(rid, THUMBNAIL_TYPE)
  }

  method BuildPngKey(rid: RID, v: Version) returns (s: seq<byte>)
    ensures s == PngKey(rid, v)
  {
    var k := NewKey();
    SettersCommute(k.data[..], rid, PNG_TYPE, v);
    k := SetRID(k, rid);
    k := SetType(k, PNG_TYPE);
    k := SetVersion(k, v);
    s := KeyBytes(k);
  }

  method BuildPrefix(rid: RID, t: byte) returns (s: seq<byte>)
    ensures s == TypePrefix(rid, t)
  {
    var k := NewKey();
    k := SetRID(k, rid);
    ghost var afterRid := k.data[..];
    k := SetType(k, t);
    s := KeyBytes(k);
    assert s == afterRid[..8] + [t];
  }
}
