/**
 * The EBML writer of cmd/mkfixtures/main.go:379-412 and 502-514. The specification is a reader
 * of the format: variable-size integers (section 4 of RFC 8794), element IDs (section 5) and
 * data sizes (section 6), for elements of known size.
 */
module Ebml {
  import opened Basics

  // ------------------------------------------------------------------------ the writer

  /** byte(n >> bits), for the shifts the writer uses. */
  function ByteAt(n: nat, shift: nat): byte
    requires shift > 0
  {
    (n / shift) % 256
  }

  /** mark | b, mark being one bit. */
  function Or(mark: nat, b: byte): byte
    requires mark in {0x80, 0x40, 0x20, 0x10}
  {
    if (b / mark) % 2 == 1 then b else b + mark
  }

  function Vint(n: nat): Bytes {
    if n < 0x7F then [Or(0x80, ByteAt(n, 1))]
    else if n < 0x3FFF then [Or(0x40, ByteAt(n, 0x100)), ByteAt(n, 1)]
    else if n < 0x1F_FFFF then [Or(0x20, ByteAt(n, 0x1_0000)), ByteAt(n, 0x100), ByteAt(n, 1)]
    else [Or(0x10, ByteAt(n, 0x100_0000)), ByteAt(n, 0x1_0000), ByteAt(n, 0x100), ByteAt(n, 1)]
  }

  type UInt32 = x: int | 0 <= x < 0x1_0000_0000
  type UInt64 = x: int | 0 <= x < 0x1_0000_0000_0000_0000

  function IdBytes(id: UInt32): Bytes {
    if id > 0xFF_FFFF then [ByteAt(id, 0x100_0000), ByteAt(id, 0x1_0000), ByteAt(id, 0x100), ByteAt(id, 1)]
    else if id > 0xFFFF then [ByteAt(id, 0x1_0000), ByteAt(id, 0x100), ByteAt(id, 1)]
    else if id > 0xFF then [ByteAt(id, 0x100), ByteAt(id, 1)]
    else [ByteAt(id, 1)]
  }

  /** el: an element around a body. */
  function El(id: UInt32, body: Bytes): Bytes {
    IdBytes(id) + Vint(|body|) + body
  }

  /** The n low bytes of v, most significant first. */
  function Digits(v: nat, n: nat): (s: Bytes)
    ensures |s| == n
  {
    if n == 0 then [] else Digits(v / 256, n - 1) + [v % 256]
  }

  /** u: an unsigned integer element, always eight bytes. */
  function U(id: UInt32, v: UInt64): Bytes {
    El(id, Digits(v, 8))
  }

  // ------------------------------------------------------------------------ the reader

  function BigEndian(s: Bytes): nat {
    if s == [] then 0 else BigEndian(s[..|s| - 1]) * 256 + s[|s| - 1]
  }

  /** The length a first byte announces: one more than its leading zero bits, 0 for none. */
  function Width(b: byte): (w: nat)
    ensures w <= 8
  {
    if b >= 0x80 then 1 else if b >= 0x40 then 2 else if b >= 0x20 then 3 else if b >= 0x10 then 4
    else if b >= 0x08 then 5 else if b >= 0x04 then 6 else if b >= 0x02 then 7 else if b == 0x01 then 8 else 0
  }

  function Pow2(n: nat): (p: nat)
    ensures p > 0
  {
    if n == 0 then 1 else 2 * Pow2(n - 1)
  }

  datatype Size = Known(n: nat, width: nat) | Unknown(width: nat) | Malformed

  /** A data size: the marker bit off, all ones being the reserved unknown size. */
  function ReadSize(s: Bytes): Size {
    if s == [] || Width(s[0]) == 0 || |s| < Width(s[0]) then Malformed
    else
      var w := Width(s[0]);
      var raw, marker := BigEndian(s[..w]), Pow2(7 * w);
      if raw < marker then Malformed  // never: the marker bit is set
      else if raw - marker == marker - 1 then Unknown(w)
      else Known(raw - marker, w)
  }

  /** An element ID keeps its marker; it is at most four bytes. */
  function ReadId(s: Bytes): Option<nat> {
    if s == [] || Width(s[0]) == 0 || Width(s[0]) > 4 || |s| < Width(s[0]) then None
    else Some(BigEndian(s[..Width(s[0])]))
  }

  datatype Element = Leaf(id: UInt32, data: Bytes) | Master(id: UInt32, children: seq<Element>)

  /** The first element of some bytes: its ID, its body and what follows it. */
  datatype Split = NoElement | Split(id: UInt32, body: Bytes, tail: Bytes)

  function ReadElement(s: Bytes): (e: Split)
    ensures e.Split? ==> |e.body| < |s| && |e.tail| < |s|
  {
    match ReadId(s)
    case None => NoElement
    case Some(id) =>
      var rest := s[Width(s[0])..];
      match ReadSize(rest)
      case Known(n, w) =>
        if |rest| < w + n || id >= 0x1_0000_0000 then NoElement else Split(id, rest[w..w + n], rest[w + n..])
      case _ => NoElement
  }

  /** The elements of s, those with an ID of masters parsed in turn. */
  function Parse(s: Bytes, masters: set<nat>): Option<seq<Element>>
    decreases |s|
  {
    if s == [] then Some([])
    else
      match ReadElement(s)
      case NoElement => None
      case Split(id, body, tail) =>
        var rest := Parse(tail, masters);
        if rest.None? then None
        else if id !in masters then Some([Leaf(id, body)] + rest.value)
        else
          var children := Parse(body, masters);
          if children.None? then None else Some([Master(id, children.value)] + rest.value)
  }

  // --------------------------------------------------------------- integers round-trip

  lemma BigEndianOf(a: byte, b: byte, c: byte, d: byte)
    ensures BigEndian([a]) == a
    ensures BigEndian([a, b]) == a * 0x100 + b
    ensures BigEndian([a, b, c]) == a * 0x1_0000 + b * 0x100 + c
    ensures BigEndian([a, b, c, d]) == a * 0x100_0000 + b * 0x1_0000 + c * 0x100 + d
  {
    assert [a][..0] == [];
    assert [a, b][..1] == [a];
    assert [a, b, c][..2] == [a, b];
    assert [a, b, c, d][..3] == [a, b, c];
  }

  lemma Pow2Of7s()
    ensures Pow2(7) == 0x80 && Pow2(14) == 0x4000 && Pow2(21) == 0x20_0000 && Pow2(28) == 0x1000_0000
  {
    assert Pow2(7) == 0x80;
    assert Pow2(14) == 0x80 * Pow2(7);
    assert Pow2(21) == 0x80 * Pow2(14);
    assert Pow2(28) == 0x80 * Pow2(21);
  }

  lemma BytesOf(n: nat)
    requires n < 0x1_0000_0000
    ensures n == ByteAt(n, 0x100_0000) * 0x100_0000 + ByteAt(n, 0x1_0000) * 0x1_0000
                 + ByteAt(n, 0x100) * 0x100 + ByteAt(n, 1)
  {
    var a, b, c := n / 0x100, n / 0x1_0000, n / 0x100_0000;
    assert n == a * 0x100 + n % 0x100;
    assert b == a / 0x100 && a == b * 0x100 + a % 0x100;
    assert c == b / 0x100 && b == c * 0x100 + b % 0x100;
    assert c % 0x100 == c;
  }

  lemma OrAdds(mark: nat, b: byte)
    requires mark in {0x80, 0x40, 0x20, 0x10} && b < mark
    ensures Or(mark, b) == mark + b
  {
  }

  /** What a size field of w bytes says, whatever follows it. */
  lemma ReadSizeOf(v: Bytes, rest: Bytes)
    requires v != [] && Width(v[0]) == |v|
    ensures ReadSize(v + rest) == ReadSize(v)
  {
    assert (v + rest)[..|v|] == v == v[..|v|];
  }

  /** The marker bit of a size field of w bytes, as a number. */
  function Marker(w: nat): nat
    requires 0 < w <= 4
  {
    if w == 1 then 0x80 else if w == 2 then 0x4000 else if w == 3 then 0x20_0000 else 0x1000_0000
  }

  /** v is a size field of its own length that says n. */
  ghost predicate Says(v: Bytes, n: nat) {
    0 < |v| <= 4 && Width(v[0]) == |v| && BigEndian(v) == Marker(|v|) + n
  }

  lemma OneByte(n: nat)
    requires n < 0x7F
    ensures Says(Vint(n), n)
  {
    OrAdds(0x80, n);
    BigEndianOf(0x80 + n, 0, 0, 0);
    assert Vint(n) == [0x80 + n];
  }

  lemma TwoBytes(n: nat)
    requires 0x7F <= n < 0x3FFF
    ensures Says(Vint(n), n)
  {
    var c, d := ByteAt(n, 0x100), ByteAt(n, 1);
    assert c == n / 0x100 && c < 0x40;
    OrAdds(0x40, c);
    BigEndianOf(0x40 + c, d, 0, 0);
    assert Vint(n) == [0x40 + c, d];
    BytesOf(n);
  }

  lemma ThreeBytes(n: nat)
    requires 0x3FFF <= n < 0x1F_FFFF
    ensures Says(Vint(n), n)
  {
    var b, c, d := ByteAt(n, 0x1_0000), ByteAt(n, 0x100), ByteAt(n, 1);
    BytesOf(n);
    assert b == n / 0x1_0000 && b < 0x20;
    OrAdds(0x20, b);
    BigEndianOf(0x20 + b, c, d, 0);
    assert Vint(n) == [0x20 + b, c, d];
  }

  lemma FourBytes(n: nat)
    requires 0x1F_FFFF <= n < 0x1000_0000
    ensures Says(Vint(n), n)
  {
    var a, b, c, d := ByteAt(n, 0x100_0000), ByteAt(n, 0x1_0000), ByteAt(n, 0x100), ByteAt(n, 1);
    BytesOf(n);
    assert a == n / 0x100_0000 && a < 0x10;
    OrAdds(0x10, a);
    BigEndianOf(0x10 + a, b, c, d);
    assert Vint(n) == [0x10 + a, b, c, d];
  }

  lemma VintBytes(n: nat)
    requires n < 0x1000_0000
    ensures Says(Vint(n), n)
  {
    if n < 0x7F { OneByte(n); }
    else if n < 0x3FFF { TwoBytes(n); }
    else if n < 0x1F_FFFF { ThreeBytes(n); }
    else { FourBytes(n); }
  }

  /** Main result: a size reads back exactly while it is below 2^28-1. */
  lemma VintRoundTrips(n: nat, rest: Bytes)
    ensures ReadSize(Vint(n) + rest) == Known(n, |Vint(n)|) <==> n < 0xFFF_FFFF
  {
    Pow2Of7s();
    var v := Vint(n);
    if n < 0x1000_0000 {
      VintBytes(n);
      ReadSizeOf(v, rest);
      assert v[..|v|] == v;
    } else {
      VintTooBig(n, rest);
    }
  }

  lemma VintTooBig(n: nat, rest: Bytes)
    requires n >= 0x1000_0000
    ensures ReadSize(Vint(n) + rest) != Known(n, |Vint(n)|)
  {
    Pow2Of7s();
    var v := Vint(n);
    BigEndianOf(v[0], v[1], v[2], v[3]);
    assert (v + rest)[..4] == v;
  }

  /** At 2^28-1 it is the reserved unknown size, which nothing below is ever written as. */
  lemma VintReserved(rest: Bytes)
    ensures ReadSize(Vint(0xFFF_FFFF) + rest) == Unknown(4)
  {
    Pow2Of7s();
    VintBytes(0xFFF_FFFF);
    ReadSizeOf(Vint(0xFFF_FFFF), rest);
    assert Vint(0xFFF_FFFF)[..4] == Vint(0xFFF_FFFF);
  }

  /** No shorter size field would do: in one n would not fit or would be the reserved value. */
  lemma {:induction false} VintIsShortest(n: nat, w: nat)
    requires n < 0xFFF_FFFF && 0 < w < |Vint(n)|
    ensures n >= Pow2(7 * w) - 1
  {
    Pow2Of7s();
  }

  /** IDs whose first byte announces their own length. */
  predicate Marked(id: nat) {
    || 0x80 <= id <= 0xFF
    || 0x4000 <= id <= 0x7FFF
    || 0x20_0000 <= id <= 0x3F_FFFF
    || 0x1000_0000 <= id <= 0x1FFF_FFFF
  }

  lemma IdBytesSay(id: UInt32)
    ensures BigEndian(IdBytes(id)) == id
  {
    var v := IdBytes(id);
    BigEndianOf(v[0], if |v| > 1 then v[1] else 0, if |v| > 2 then v[2] else 0, if |v| > 3 then v[3] else 0);
    BytesOf(id);
  }

  lemma MarkedByWidth(id: UInt32)
    ensures Marked(id) <==> Width(IdBytes(id)[0]) == |IdBytes(id)|
  {
    BytesOf(id);
  }

  lemma {:induction false} ReadIdIs(v: Bytes, rest: Bytes)
    requires 0 < |v| <= 4 && Width(v[0]) == |v|
    ensures ReadId(v + rest) == Some(BigEndian(v))
  {
    assert (v + rest)[..|v|] == v;
  }

  /** An ID reads back, in full and no further, exactly when it is marked. */
  lemma IdRoundTrips(id: UInt32, rest: Bytes)
    ensures Marked(id) <==> ReadId(IdBytes(id) + rest) == Some(id) && Width(IdBytes(id)[0]) == |IdBytes(id)|
  {
    MarkedByWidth(id);
    if Marked(id) {
      IdBytesSay(id);
      ReadIdIs(IdBytes(id), rest);
    }
  }

  function Pow256(n: nat): (p: nat)
    ensures p > 0
  {
    if n == 0 then 1 else 256 * Pow256(n - 1)
  }

  lemma {:induction false} DigitsRoundTrip(v: nat, n: nat)
    requires v < Pow256(n)
    ensures BigEndian(Digits(v, n)) == v
  {
    if n > 0 {
      DigitsRoundTrip(v / 256, n - 1);
      var s := Digits(v, n);
      assert s[..n - 1] == Digits(v / 256, n - 1);
    }
  }

  lemma {:induction false} EightDigitsRoundTrip(v: UInt64)
    ensures BigEndian(Digits(v, 8)) == v
  {
    assert Pow256(4) == 0x1_0000_0000;
    assert Pow256(8) == 256 * 256 * 256 * 256 * Pow256(4);
    DigitsRoundTrip(v, 8);
  }

  // ------------------------------------------------------------------ forests round-trip

  function Encode(e: Element): Bytes
    decreases e, 1
  {
    match e
    case Leaf(id, data) => El(id, data)
    case Master(id, children) => El(id, EncodeAll(children))
  }

  function EncodeAll(forest: seq<Element>): Bytes
    decreases forest, 0
  {
    if forest == [] then [] else Encode(forest[0]) + EncodeAll(forest[1..])
  }

  function Body(e: Element): Bytes {
    match e
    case Leaf(_, data) => data
    case Master(_, children) => EncodeAll(children)
  }

  /** Marked IDs, masters told by theirs, and bodies a four-byte size can say. */
  ghost predicate WellFormed(e: Element, masters: set<nat>)
    decreases e, 1
  {
    && Marked(e.id) && |Body(e)| < 0xFFF_FFFF
    && (e.Master? <==> e.id in masters)
    && (e.Master? ==> AllWellFormed(e.children, masters))
  }

  ghost predicate AllWellFormed(forest: seq<Element>, masters: set<nat>)
    decreases forest, 0
  {
    forest == [] || (WellFormed(forest[0], masters) && AllWellFormed(forest[1..], masters))
  }

  lemma ReadIdOf(id: UInt32, rest: Bytes)
    requires Marked(id)
    ensures var s := IdBytes(id) + rest; ReadId(s) == Some(id) && s[Width(s[0])..] == rest
  {
    IdRoundTrips(id, rest);
  }

  lemma ReadBodyOf(body: Bytes, tail: Bytes)
    requires |body| < 0xFFF_FFFF
    ensures var v := Vint(|body|);
      var rest := v + body + tail;
      && ReadSize(rest) == Known(|body|, |v|) && |rest| >= |v| + |body|
      && rest[|v|..|v| + |body|] == body && rest[|v| + |body|..] == tail
  {
    assert Vint(|body|) + body + tail == Vint(|body|) + (body + tail);
    VintRoundTrips(|body|, body + tail);
  }

  /** What the reader makes of one element and whatever follows it. */
  lemma ElementReads(id: UInt32, body: Bytes, tail: Bytes)
    requires Marked(id) && |body| < 0xFFF_FFFF
    ensures ReadElement(El(id, body) + tail) == Split(id, body, tail)
  {
    var rest := Vint(|body|) + body + tail;
    assert El(id, body) + tail == IdBytes(id) + rest;
    ReadIdOf(id, rest);
    ReadBodyOf(body, tail);
  }

  lemma {:induction false} ParseJoins(e: Element, s: Bytes, tail: Bytes, rest: seq<Element>, masters: set<nat>)
    requires s != [] && ReadElement(s) == Split(e.id, Body(e), tail) && Parse(tail, masters) == Some(rest)
    requires e.Master? <==> e.id in masters
    requires e.Master? ==> Parse(Body(e), masters) == Some(e.children)
    ensures Parse(s, masters) == Some([e] + rest)
  {
  }

  /** A forest's first element is what the reader finds first, its rest what follows. */
  lemma {:induction false} FirstReads(forest: seq<Element>, masters: set<nat>)
    requires AllWellFormed(forest, masters) && forest != []
    ensures var e, s := forest[0], EncodeAll(forest);
      && s != [] && ReadElement(s) == Split(e.id, Body(e), EncodeAll(forest[1..]))
      && AllWellFormed(forest[1..], masters) && (e.Master? <==> e.id in masters)
      && (e.Master? ==> Body(e) == EncodeAll(e.children) && AllWellFormed(e.children, masters))
  {
    var e, tail := forest[0], EncodeAll(forest[1..]);
    ElementReads(e.id, Body(e), tail);
    assert EncodeAll(forest) == El(e.id, Body(e)) + tail;
  }

  /** Its rest and its first element's children read, it reads. */
  lemma {:induction false} ForestReads(forest: seq<Element>, masters: set<nat>)
    requires AllWellFormed(forest, masters) && forest != []
    requires Parse(EncodeAll(forest[1..]), masters) == Some(forest[1..])
    requires forest[0].Master? ==> Parse(EncodeAll(forest[0].children), masters) == Some(forest[0].children)
    ensures Parse(EncodeAll(forest), masters) == Some(forest)
  {
    FirstReads(forest, masters);
    ParseJoins(forest[0], EncodeAll(forest), EncodeAll(forest[1..]), forest[1..], masters);
    assert [forest[0]] + forest[1..] == forest;
  }

  /** Main result: writing any well-formed forest and reading it back gives the same forest. */
  lemma {:induction false} ForestRoundTrips(forest: seq<Element>, masters: set<nat>)
    requires AllWellFormed(forest, masters)
    ensures Parse(EncodeAll(forest), masters) == Some(forest)
    decreases forest
  {
    if forest != [] {
      FirstReads(forest, masters);
      ForestRoundTrips(forest[1..], masters);
      if forest[0].Master? {
        ForestRoundTrips(forest[0].children, masters);
      }
      ForestReads(forest, masters);
    }
  }

  // ----------------------------------------------------------------------- the SeekHead

  const SEEK_HEAD: UInt32 := 0x114D_9B74
  const SEEK: UInt32 := 0x4DBB
  const SEEK_ID: UInt32 := 0x53AB
  const SEEK_POSITION: UInt32 := 0x53AC
  const TAGS: Bytes := [0x12, 0x54, 0xC3, 0x67]
  const CHAPTERS: Bytes := [0x10, 0x43, 0xA7, 0x70]

  function Seek(id: Bytes, pos: UInt64): Bytes {
    El(SEEK, El(SEEK_ID, id) + U(SEEK_POSITION, pos))
  }

  /** build: a SeekHead naming where the tags and the chapters are. */
  function SeekHead(tags: UInt64, chapters: UInt64): Bytes {
    El(SEEK_HEAD, Seek(TAGS, tags) + Seek(CHAPTERS, chapters))
  }

  function SeekTree(id: Bytes, pos: UInt64): Element {
    Master(SEEK, [Leaf(SEEK_ID, id), Leaf(SEEK_POSITION, Digits(pos, 8))])
  }

  function SeekHeadTree(tags: UInt64, chapters: UInt64): Element {
    Master(SEEK_HEAD, [SeekTree(TAGS, tags), SeekTree(CHAPTERS, chapters)])
  }

  lemma {:induction false} EncodePair(a: Element, b: Element, masters: set<nat>)
    ensures EncodeAll([a, b]) == Encode(a) + Encode(b) && EncodeAll([a]) == Encode(a)
    ensures WellFormed(a, masters) && WellFormed(b, masters) ==>
      AllWellFormed([a, b], masters) && AllWellFormed([a], masters)
  {
    assert [a, b][1..] == [b] && [b][1..] == [] && [a][1..] == [];
    assert EncodeAll([b]) == Encode(b) + [];
    assert EncodeAll([a]) == Encode(a) + [];
    assert AllWellFormed([b][1..], masters);
  }

  lemma SeekEncodes(id: Bytes, pos: UInt64)
    requires |id| == 4
    ensures Encode(SeekTree(id, pos)) == Seek(id, pos) && |Seek(id, pos)| == 21
    ensures WellFormed(SeekTree(id, pos), {SEEK_HEAD, SEEK})
  {
    EncodePair(Leaf(SEEK_ID, id), Leaf(SEEK_POSITION, Digits(pos, 8)), {SEEK_HEAD, SEEK});
  }

  lemma SeekHeadEncodes(tags: UInt64, chapters: UInt64)
    ensures EncodeAll([SeekHeadTree(tags, chapters)]) == SeekHead(tags, chapters) && |SeekHead(tags, chapters)| == 47
    ensures AllWellFormed([SeekHeadTree(tags, chapters)], {SEEK_HEAD, SEEK})
  {
    SeekEncodes(TAGS, tags);
    SeekEncodes(CHAPTERS, chapters);
    EncodePair(SeekTree(TAGS, tags), SeekTree(CHAPTERS, chapters), {SEEK_HEAD, SEEK});
    var h := SeekHeadTree(tags, chapters);
    EncodePair(h, h, {SEEK_HEAD, SEEK});
  }

  /** A SeekHead reads back as naming the tags and the chapters, and the positions it was given. */
  lemma {:induction false} SeekHeadReadsBack(tags: UInt64, chapters: UInt64)
    ensures Parse(SeekHead(tags, chapters), {SEEK_HEAD, SEEK}) == Some([SeekHeadTree(tags, chapters)])
    ensures BigEndian(Digits(tags, 8)) == tags && BigEndian(Digits(chapters, 8)) == chapters
  {
    SeekHeadEncodes(tags, chapters);
    ForestRoundTrips([SeekHeadTree(tags, chapters)], {SEEK_HEAD, SEEK});
    EightDigitsRoundTrip(tags);
    EightDigitsRoundTrip(chapters);
  }

  /** Where mkas works out the chapters to be: behind a SeekHead of zeros and the parts before them. */
  function ChaptersAt(info: Bytes, tracks: Bytes, cluster: Bytes): nat {
    |SeekHead(0, 0) + info + tracks + cluster|
  }

  /**
   * Main result: the SeekHead is built twice, first with zeros to learn its length; the positions
   * it ends up holding are where the chapters and the tags are in the body it heads, whatever the
   * parts.
   */
  lemma SeekHeadPointsTrue(info: Bytes, tracks: Bytes, cluster: Bytes, chapters: Bytes, tags: Bytes)
    requires ChaptersAt(info, tracks, cluster) + |chapters| < 0x1_0000_0000_0000_0000
    ensures
      var at := ChaptersAt(info, tracks, cluster);
      var body := SeekHead(at + |chapters|, at) + info + tracks + cluster + chapters + tags;
      && at + |chapters| <= |body|
      && body[at..at + |chapters|] == chapters && body[at + |chapters|..] == tags
  {
    var at := ChaptersAt(info, tracks, cluster);
    SeekHeadEncodes(0, 0);
    SeekHeadEncodes(at + |chapters|, at);
    PartsLieWhere(SeekHead(at + |chapters|, at) + info + tracks + cluster, chapters, tags);
  }

  lemma PartsLieWhere(front: Bytes, a: Bytes, b: Bytes)
    ensures var body := front + a + b;
      body[|front|..|front| + |a|] == a && body[|front| + |a|..] == b
  {
  }

  const TAGS_ID: UInt32 := 0x1254_C367
  const CHAPTERS_ID: UInt32 := 0x1043_A770

  lemma NamedIDs()
    ensures BigEndian(TAGS) == TAGS_ID && BigEndian(CHAPTERS) == CHAPTERS_ID
  {
    BigEndianOf(0x12, 0x54, 0xC3, 0x67);
    BigEndianOf(0x10, 0x43, 0xA7, 0x70);
  }

  lemma PartIsRead(front: Bytes, id: UInt32, content: Bytes, tail: Bytes)
    requires Marked(id) && |content| < 0xFFF_FFFF
    ensures ReadElement((front + El(id, content) + tail)[|front|..]) == Split(id, content, tail)
  {
    ElementReads(id, content, tail);
    assert (front + El(id, content) + tail)[|front|..] == El(id, content) + tail;
  }

  /** An element of this ID and body stands at a position of a body. */
  ghost predicate StandsAt(body: Bytes, pos: nat, id: UInt32, content: Bytes) {
    && pos <= |body|
    && var r := ReadElement(body[pos..]);
      r.Split? && r.id == id && r.body == content
  }

  /** A body's first bytes name where its tags and its chapters are. */
  ghost predicate Names(head: Bytes, tags: nat, chapters: nat) {
    && tags < 0x1_0000_0000_0000_0000 && chapters < 0x1_0000_0000_0000_0000
    && Parse(head, {SEEK_HEAD, SEEK}) == Some([Master(SEEK_HEAD, [SeekTree(TAGS, tags), SeekTree(CHAPTERS, chapters)])])
  }

  /** The body behind a front holds the chapters and the tags, and these are read where they stand. */
  ghost predicate PartsStand(body: Bytes, tagsAt: nat, tags: Bytes, chaptersAt: nat, chapters: Bytes) {
    StandsAt(body, tagsAt, TAGS_ID, tags) && StandsAt(body, chaptersAt, CHAPTERS_ID, chapters)
  }

  /** A body's head names the places at which its chapters and its tags stand. */
  ghost predicate Finds(head: Bytes, between: Bytes, at: nat, chapters: Bytes, tags: Bytes) {
    var c, t := El(CHAPTERS_ID, chapters), El(TAGS_ID, tags);
    && Names(head, at + |c|, at)
    && PartsStand(head + between + c + t, at + |c|, tags, at, chapters)
  }

  lemma FindsWhenNamed(head: Bytes, between: Bytes, at: nat, chapters: Bytes, tags: Bytes)
    requires |chapters| < 0xFFF_FFFF && |tags| < 0xFFF_FFFF && at == |head + between|
    requires Names(head, at + |El(CHAPTERS_ID, chapters)|, at)
    ensures Finds(head, between, at, chapters, tags)
  {
    BothStand(head + between, chapters, tags);
  }

  /**
   * Main result: the SeekHead names the places in the body it heads at which the tags and the
   * chapters are read, whatever the parts.
   */
  lemma SeekHeadFindsItsParts(info: Bytes, tracks: Bytes, cluster: Bytes, chapters: Bytes, tags: Bytes)
    requires |chapters| < 0xFFF_FFFF && |tags| < 0xFFF_FFFF
    requires ChaptersAt(info, tracks, cluster) + |El(CHAPTERS_ID, chapters)| < 0x1_0000_0000_0000_0000
    ensures
      var at, c := ChaptersAt(info, tracks, cluster), El(CHAPTERS_ID, chapters);
      Finds(SeekHead(at + |c|, at), info + tracks + cluster, at, chapters, tags)
  {
    var at := ChaptersAt(info, tracks, cluster);
    var tagsAt := at + |El(CHAPTERS_ID, chapters)|;
    FrontIsThere(info, tracks, cluster, tagsAt, at);
    Named(tagsAt, at);
    FindsWhenNamed(SeekHead(tagsAt, at), info + tracks + cluster, at, chapters, tags);
  }

  lemma Named(tags: UInt64, chapters: UInt64)
    ensures Names(SeekHead(tags, chapters), tags, chapters)
  {
    SeekHeadReadsBack(tags, chapters);
  }

  lemma BothStand(front: Bytes, chapters: Bytes, tags: Bytes)
    requires |chapters| < 0xFFF_FFFF && |tags| < 0xFFF_FFFF
    ensures
      var c, t := El(CHAPTERS_ID, chapters), El(TAGS_ID, tags);
      PartsStand(front + c + t, |front| + |c|, tags, |front|, chapters)
  {
    BothAreRead(front, chapters, tags);
  }

  lemma BothAreRead(front: Bytes, chapters: Bytes, tags: Bytes)
    requires |chapters| < 0xFFF_FFFF && |tags| < 0xFFF_FFFF
    ensures
      var c, t := El(CHAPTERS_ID, chapters), El(TAGS_ID, tags);
      && ReadElement((front + c + t)[|front|..]) == Split(CHAPTERS_ID, chapters, t)
      && ReadElement((front + c + t)[|front| + |c|..]) == Split(TAGS_ID, tags, [])
  {
    var c, t := El(CHAPTERS_ID, chapters), El(TAGS_ID, tags);
    PartIsRead(front, CHAPTERS_ID, chapters, t);
    PartIsRead(front + c, TAGS_ID, tags, []);
    assert front + c + t + [] == front + c + t;
  }

  lemma FrontIsThere(info: Bytes, tracks: Bytes, cluster: Bytes, tags: UInt64, chapters: UInt64)
    ensures |SeekHead(tags, chapters) + (info + tracks + cluster)| == ChaptersAt(info, tracks, cluster)
  {
    SeekHeadEncodes(0, 0);
    SeekHeadEncodes(tags, chapters);
  }
}
