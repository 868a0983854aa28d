/** Encoded polylines: differences of coordinates, zigzagged, in chunks of five bits. */
module Polyline {
  datatype Point = Point(lat: int, lon: int)

  datatype Decoded = Points(points: seq<Point>) | Truncated

  datatype Chunked = Value(value: nat, rest: string) | Short

  /** Twice the size of a number, and one less for a negative one. */
  function Zigzag(d: int): nat {
    if d < 0 then -2 * d - 1 else 2 * d
  }

  function Unzigzag(n: nat): int {
    if n % 2 == 1 then -(n / 2) - 1 else n / 2
  }

  lemma ZigzagBack(d: int)
    ensures Unzigzag(Zigzag(d)) == d
  {
  }

  /** Five bits at a time, lowest first; all but the last chunk say that more follow. */
  function Chunks(n: nat): string {
    if n < 32 then [(n + 63) as char] else [(32 + n % 32 + 63) as char] + Chunks(n / 32)
  }

  /** What a point adds: how far it is from the one before. */
  function PointText(p: Point, prev: Point): string {
    Chunks(Zigzag(p.lat - prev.lat)) + Chunks(Zigzag(p.lon - prev.lon))
  }

  function Encode(points: seq<Point>, prev: Point): string {
    if points == [] then "" else PointText(points[0], prev) + Encode(points[1..], points[0])
  }

  const Origin := Point(0, 0)

  function Bits(c: char): int {
    c as int - 63
  }

  function ReadChunks(s: string): (r: Chunked)
    ensures r.Value? ==> |r.rest| < |s|
  {
    if s == "" then Short
    else if Bits(s[0]) < 32 then Value(Bits(s[0]) % 32, s[1..])
    else
      var more := ReadChunks(s[1..]);
      if more.Short? then Short else Value(Bits(s[0]) % 32 + 32 * more.value, more.rest)
  }

  function AddPoint(p: Point, more: Decoded): Decoded {
    if more.Truncated? then Truncated else Points([p] + more.points)
  }

  function Decode(s: string, prev: Point): Decoded
    decreases |s|
  {
    if s == "" then Points([]) else
      var lat := ReadChunks(s);
      if lat.Short? then Truncated else
        var lon := ReadChunks(lat.rest);
        if lon.Short? then Truncated else
          var p := Point(prev.lat + Unzigzag(lat.value), prev.lon + Unzigzag(lon.value));
          AddPoint(p, Decode(lon.rest, p))
  }

  // ---- the round trip

  lemma {:induction false} ChunksReadBack(n: nat, tail: string)
    ensures ReadChunks(Chunks(n) + tail) == Value(n, tail)
    decreases n
  {
    var s := Chunks(n) + tail;
    if n < 32 {
      assert s[1..] == tail;
    } else {
      assert s[1..] == Chunks(n / 32) + tail;
      ChunksReadBack(n / 32, tail);
    }
  }

  lemma ChunksNotEmpty(n: nat)
    ensures Chunks(n) != ""
  {
  }

  lemma DecodeTwo(s: string, prev: Point, lat: nat, middle: string, lon: nat, rest: string)
    requires s != "" && ReadChunks(s) == Value(lat, middle) && ReadChunks(middle) == Value(lon, rest)
    ensures var p := Point(prev.lat + Unzigzag(lat), prev.lon + Unzigzag(lon));
            Decode(s, prev) == AddPoint(p, Decode(rest, p))
  {
  }

  /** A point is read off the front of what it and others are encoded as. */
  lemma PointReadsBack(p: Point, prev: Point, tail: string)
    ensures Decode(PointText(p, prev) + tail, prev) == AddPoint(p, Decode(tail, p))
  {
    hide Chunks, Zigzag, ReadChunks, Unzigzag, Decode, AddPoint;
    var lat, lon := Zigzag(p.lat - prev.lat), Zigzag(p.lon - prev.lon);
    ChunksNotEmpty(lat);
    assert PointText(p, prev) + tail == Chunks(lat) + (Chunks(lon) + tail);
    ChunksReadBack(lat, Chunks(lon) + tail);
    ChunksReadBack(lon, tail);
    ZigzagBack(p.lat - prev.lat);
    ZigzagBack(p.lon - prev.lon);
    DecodeTwo(PointText(p, prev) + tail, prev, lat, Chunks(lon) + tail, lon, tail);
  }

  /** Decoding gives back what was encoded, however large the numbers. */
  lemma {:induction false} RoundTrip(points: seq<Point>, prev: Point)
    ensures Decode(Encode(points, prev), prev) == Points(points)
  {
    if points != [] {
      hide Decode, PointText;
      PointReadsBack(points[0], prev, Encode(points[1..], points[0]));
      RoundTrip(points[1..], points[0]);
    }
  }

  // ---- cut short

  lemma {:induction false} CutChunks(n: nat, k: nat)
    requires k < |Chunks(n)|
    ensures ReadChunks(Chunks(n)[..k]) == Short
    decreases n
  {
    if k > 0 {
      assert n >= 32;
      assert Chunks(n)[..k][1..] == Chunks(n / 32)[..k - 1];
      CutChunks(n / 32, k - 1);
    }
  }

  /** Within a point there is nothing to read. */
  lemma CutPoint(p: Point, prev: Point, k: nat)
    requires 0 < k < |PointText(p, prev)|
    ensures Decode(PointText(p, prev)[..k], prev) == Truncated
  {
    hide Chunks, Zigzag, ReadChunks, Unzigzag;
    var lat, lon := Chunks(Zigzag(p.lat - prev.lat)), Chunks(Zigzag(p.lon - prev.lon));
    if k < |lat| {
      assert (lat + lon)[..k] == lat[..k];
      CutChunks(Zigzag(p.lat - prev.lat), k);
    } else {
      assert (lat + lon)[..k] == lat + lon[..k - |lat|];
      ChunksReadBack(Zigzag(p.lat - prev.lat), lon[..k - |lat|]);
      CutChunks(Zigzag(p.lon - prev.lon), k - |lat|);
    }
  }

  predicate StartOf(points: seq<Point>, prev: Point, k: nat, j: nat)
    requires k <= |Encode(points, prev)| && j <= |points|
  {
    var s := Encode(points, prev)[..k];
    || Decode(s, prev) == Points(points[..j])
    || (Decode(s, prev) == Truncated && forall i | 0 <= i <= |points| :: s != Encode(points[..i], prev))
  }

  lemma CutFirst(points: seq<Point>, prev: Point, k: nat)
    requires points != [] && 0 < k < |PointText(points[0], prev)|
    ensures k <= |Encode(points, prev)| && StartOf(points, prev, k, 0)
  {
    hide Decode, PointText;
    assert Encode(points, prev)[..k] == PointText(points[0], prev)[..k];
    CutPoint(points[0], prev, k);
    TruncatedIsNone(points, prev, Encode(points, prev)[..k]);
  }

  lemma CutLater(points: seq<Point>, prev: Point, k: nat, j: nat)
    requires points != [] && j < |points| && |PointText(points[0], prev)| <= k <= |Encode(points, prev)|
    requires StartOf(points[1..], points[0], k - |PointText(points[0], prev)|, j)
    ensures StartOf(points, prev, k, j + 1)
  {
    hide Decode, PointText;
    var p, first := points[0], PointText(points[0], prev);
    var rest := Encode(points[1..], p)[..k - |first|];
    assert Encode(points, prev)[..k] == first + rest;
    PointReadsBack(p, prev, rest);
    if Decode(first + rest, prev) == Truncated {
      TruncatedIsNone(points, prev, first + rest);
    } else {
      assert points[..j + 1] == [p] + points[1..][..j];
    }
  }

  /** The start of an encoding decodes to the first points, or it is truncated and is
      then the encoding of none of them. */
  lemma {:induction false} PrefixesDecode(points: seq<Point>, prev: Point, k: nat) returns (j: nat)
    requires k <= |Encode(points, prev)|
    ensures j <= |points| && StartOf(points, prev, k, j)
    decreases |points|
  {
    j := 0;
    if k == 0 {
      assert Encode(points, prev)[..0] == "";
    } else if k < |PointText(points[0], prev)| {
      CutFirst(points, prev, k);
    } else {
      hide PointText, StartOf;
      j := PrefixesDecode(points[1..], points[0], k - |PointText(points[0], prev)|);
      CutLater(points, prev, k, j);
      j := j + 1;
    }
  }

  lemma TruncatedIsNone(points: seq<Point>, prev: Point, s: string)
    requires Decode(s, prev) == Truncated
    ensures forall i | 0 <= i <= |points| :: s != Encode(points[..i], prev)
  {
    forall i | 0 <= i <= |points|
      ensures s != Encode(points[..i], prev)
    {
      RoundTrip(points[..i], prev);
    }
  }

  /** Different points have different encodings. */
  lemma EncodingIsInjective(a: seq<Point>, b: seq<Point>)
    requires Encode(a, Origin) == Encode(b, Origin)
    ensures a == b
  {
    RoundTrip(a, Origin);
    RoundTrip(b, Origin);
  }

  lemma OneChunk(n: nat)
    ensures Chunks(n) == if n < 32 then [(n + 63) as char] else [(32 + n % 32 + 63) as char] + Chunks(n / 32)
  {
  }

  /** The example the format is published with: -179.98321 degrees. */
  lemma PublishedExample()
    ensures Encode([Point(-17998321, 0)], Origin) == "`~oia@?"
  {
    hide Chunks;
    OneChunk(35996641);
    OneChunk(1124895);
    OneChunk(35152);
    OneChunk(1098);
    OneChunk(34);
    OneChunk(1);
    OneChunk(0);
    assert Chunks(35996641) == "`~oia@" && Chunks(0) == "?";
    assert [Point(-17998321, 0)][1..] == [];
  }

  /** A number of up to 25 bits, chunk by chunk. */
  lemma FiveChunks(n: nat)
    requires 0x10_0000 <= n < 0x200_0000
    ensures Chunks(n) == [(95 + n % 32) as char, (95 + n / 32 % 32) as char, (95 + n / 1024 % 32) as char,
                          (95 + n / 32768 % 32) as char, (63 + n / 1048576) as char]
  {
    hide Chunks;
    OneChunk(n);
    OneChunk(n / 32);
    OneChunk(n / 1024);
    OneChunk(n / 32768);
    OneChunk(n / 1048576);
  }

  lemma FourChunks(n: nat)
    requires 0x8000 <= n < 0x10_0000
    ensures Chunks(n) == [(95 + n % 32) as char, (95 + n / 32 % 32) as char, (95 + n / 1024 % 32) as char, (63 + n / 32768) as char]
  {
    hide Chunks;
    OneChunk(n);
    OneChunk(n / 32);
    OneChunk(n / 1024);
    OneChunk(n / 32768);
  }

  const LineStart := Point(3850000, -12020000)
  const LineMiddle := Point(4070000, -12095000)
  const LineEnd := Point(4325200, -12645300)

  lemma LineStartText()
    ensures PointText(LineStart, Origin) == "_p~iF~ps|U"
  {
    hide Chunks;
    FiveChunks(7700000);
    FiveChunks(24039999);
    assert Chunks(7700000) == "_p~iF" && Chunks(24039999) == "~ps|U";
  }

  lemma LineMiddleText()
    ensures PointText(LineMiddle, LineStart) == "_ulLnnqC"
  {
    hide Chunks;
    FourChunks(440000);
    FourChunks(149999);
    assert Chunks(440000) == "_ulL" && Chunks(149999) == "nnqC";
  }

  lemma LineEndText()
    ensures PointText(LineEnd, LineMiddle) == "_mqNvxq`@"
  {
    hide Chunks;
    FourChunks(510400);
    FiveChunks(1100599);
    assert Chunks(510400) == "_mqN" && Chunks(1100599) == "vxq`@";
  }

  /** The published line of three points: the second and third are told by how far they
      are from the one before. */
  lemma PublishedLine()
    ensures Encode([LineStart, LineMiddle, LineEnd], Origin) == "_p~iF~ps|U_ulLnnqC_mqNvxq`@"
  {
    hide PointText;
    LineStartText();
    LineMiddleText();
    LineEndText();
    EncodeNext(LineEnd, [], LineMiddle);
    EncodeNext(LineMiddle, [LineEnd], LineStart);
    EncodeNext(LineStart, [LineMiddle, LineEnd], Origin);
  }

  lemma EncodeNext(p: Point, more: seq<Point>, prev: Point)
    ensures Encode([p] + more, prev) == PointText(p, prev) + Encode(more, p)
  {
    assert ([p] + more)[1..] == more;
  }

  lemma {:induction false} ChunksPrint(n: nat)
    ensures forall c | c in Chunks(n) :: '?' <= c <= '~'
    decreases n
  {
    if n >= 32 {
      ChunksPrint(n / 32);
    }
  }

  /** Every character of an encoding prints. */
  lemma {:induction false} EncodingPrints(points: seq<Point>, prev: Point)
    ensures forall c | c in Encode(points, prev) :: '?' <= c <= '~'
  {
    if points != [] {
      hide Chunks, Zigzag;
      ChunksPrint(Zigzag(points[0].lat - prev.lat));
      ChunksPrint(Zigzag(points[0].lon - prev.lon));
      EncodingPrints(points[1..], points[0]);
    }
  }

  // ---- the loops

  method WriteValue(out: string, d: int) returns (out': string)
    ensures out' == out + Chunks(Zigzag(d))
  {
    var v: nat := if d < 0 then -2 * d - 1 else 2 * d;
    out' := out;
    while v >= 32
      invariant out' + Chunks(v) == out + Chunks(Zigzag(d))
    {
      assert out' + Chunks(v) == out' + [(32 + v % 32 + 63) as char] + Chunks(v / 32);
      out' := out' + [(32 + v % 32 + 63) as char];
      v := v / 32;
    }
    out' := out' + [(v + 63) as char];
  }

  method PolylineEncode(points: seq<Point>) returns (out: string)
    ensures out == Encode(points, Origin)
  {
    hide Chunks, Zigzag;
    var prev := Origin;
    out := "";
    assert points[0..] == points;
    for i := 0 to |points|
      invariant out + Encode(points[i..], prev) == Encode(points, Origin)
    {
      assert points[i..][1..] == points[i + 1..];
      var p := points[i];
      ghost var before := out;
      out := WriteValue(out, p.lat - prev.lat);
      out := WriteValue(out, p.lon - prev.lon);
      assert out == before + PointText(p, prev);
      assert before + (PointText(p, prev) + Encode(points[i + 1..], p)) == out + Encode(points[i + 1..], p);
      prev := p;
    }
  }

  /** What is read with `unit` weight on top of `result`. */
  function Onto(result: nat, unit: nat, more: Chunked): Chunked {
    if more.Short? then Short else Value(result + unit * more.value, more.rest)
  }

  lemma Spread(result: nat, unit: nat, chunk: nat, more: nat)
    ensures result + unit * (chunk + 32 * more) == (result + unit * chunk) + (unit * 32) * more
  {
  }

  /** A chunk read from the front is worth its place, and the rest 32 times that. */
  lemma OntoNext(result: nat, unit: nat, s: string)
    requires s != ""
    ensures Onto(result, unit, ReadChunks(s))
         == if Bits(s[0]) < 32 then Value(result + unit * (Bits(s[0]) % 32), s[1..])
            else Onto(result + unit * (Bits(s[0]) % 32), unit * 32, ReadChunks(s[1..]))
  {
    var more := ReadChunks(s[1..]);
    if Bits(s[0]) >= 32 && more.Value? {
      Spread(result, unit, Bits(s[0]) % 32, more.value);
    }
  }

  /** Reads one value from `idx` on, chunk by chunk. */
  method ReadValue(s: string, idx: nat) returns (chunked: Chunked, next: nat)
    requires idx <= |s|
    ensures chunked == ReadChunks(s[idx..])
    ensures chunked.Value? ==> idx < next <= |s| && chunked.rest == s[next..]
  {
    var result: nat, unit: nat, more := 0, 1, true;
    next := idx;
    assert Onto(0, 1, ReadChunks(s[idx..])) == ReadChunks(s[idx..]);
    while more
      invariant idx <= next <= |s| && (more || idx < next)
      invariant (if more then Onto(result, unit, ReadChunks(s[next..])) else Value(result, s[next..])) == ReadChunks(s[idx..])
      decreases |s| - next, more
    {
      if next >= |s| {
        return Short, next;
      }
      OntoNext(result, unit, s[next..]);
      hide ReadChunks, Bits, Onto;
      var b := Bits(s[next]);
      assert s[next..][1..] == s[next + 1..];
      next, result, unit := next + 1, result + unit * (b % 32), unit * 32;
      more := b >= 32;
    }
    chunked := Value(result, s[next..]);
  }

  function Ahead(points: seq<Point>, more: Decoded): Decoded {
    if more.Truncated? then Truncated else Points(points + more.points)
  }

  method PolylineDecode(s: string) returns (decoded: Decoded)
    ensures decoded == Decode(s, Origin)
  {
    hide ReadChunks, Unzigzag;
    var points: seq<Point>, idx, prev := [], 0, Origin;
    assert s[0..] == s;
    while idx < |s|
      invariant 0 <= idx <= |s|
      invariant Ahead(points, Decode(s[idx..], prev)) == Decode(s, Origin)
    {
      var lat, middle := ReadValue(s, idx);
      if lat.Short? {
        return Truncated;
      }
      var lon, next := ReadValue(s, middle);
      if lon.Short? {
        return Truncated;
      }
      var p := Point(prev.lat + Unzigzag(lat.value), prev.lon + Unzigzag(lon.value));
      ghost var more := Decode(s[next..], p);
      assert more.Points? ==> points + ([p] + more.points) == points + [p] + more.points;
      points, idx, prev := points + [p], next, p;
    }
    decoded := Points(points);
  }
}
