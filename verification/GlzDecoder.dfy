/** The GLZ decoder: its meaning on pixels, and the byte-level loop that refines it. */
module GlzDecoder {
  import opened Arithmetic
  import opened Options
  import opened Bytes
  import opened GlzStream
  import opened GlzCanvas
  import opened ImageLimits

  // ----- Pixels and bytes

  datatype Pixel = Pixel(r: byte, g: byte, b: byte, a: byte)

  const ZERO := Pixel(0, 0, 0, 0)

  function PixelAt(bytes: seq<byte>, i: nat): Pixel
    requires 4 * i + 4 <= |bytes|
  {
    Pixel(bytes[4 * i], bytes[4 * i + 1], bytes[4 * i + 2], bytes[4 * i + 3])
  }

  /** The whole pixels of a byte buffer. */
  function PixelsOf(bytes: seq<byte>): (ps: seq<Pixel>)
    ensures |ps| == |bytes| / 4
  {
    seq(|bytes| / 4, i requires 0 <= i < |bytes| / 4 => PixelAt(bytes, i))
  }

  function Channel(p: Pixel, c: nat): byte
    requires c < 4
  {
    if c == 0 then p.r else if c == 1 then p.g else if c == 2 then p.b else p.a
  }

  function BytesOf(ps: seq<Pixel>): (bytes: seq<byte>)
    ensures |bytes| == 4 * |ps|
  {
    seq(4 * |ps|, i requires 0 <= i < 4 * |ps| => Channel(ps[i / 4], i % 4))
  }

  lemma {:induction false} BytesOfPixelsOf(bytes: seq<byte>)
    requires |bytes| % 4 == 0
    ensures BytesOf(PixelsOf(bytes)) == bytes
  {
  }

  lemma {:induction false} PixelsOfBytesOf(ps: seq<Pixel>)
    ensures PixelsOf(BytesOf(ps)) == ps
  {
    forall i | 0 <= i < |ps| ensures PixelAt(BytesOf(ps), i) == ps[i] {
      ByteOf(ps, i, 0);
      ByteOf(ps, i, 1);
      ByteOf(ps, i, 2);
      ByteOf(ps, i, 3);
    }
  }

  lemma {:induction false} ByteOf(ps: seq<Pixel>, i: nat, c: nat)
    requires i < |ps| && c < 4
    ensures BytesOf(ps)[4 * i + c] == Channel(ps[i], c)
  {
    assert (4 * i + c) / 4 == i && (4 * i + c) % 4 == c;
  }

  // ----- One token

  const TWO_64: nat := 0x1_0000_0000_0000_0000

  /** The image a reference at distance `dist` names; ids wrap. */
  function SourceId(imageId: nat, dist: nat): nat {
    (imageId - dist) % TWO_64
  }

  /** Counting `dist` up from the source, modulo 2^64, is this image. */
  lemma {:induction false} SourceIsBehind(imageId: nat, dist: nat)
    requires imageId < TWO_64
    ensures SourceId(imageId, dist) < TWO_64 && (SourceId(imageId, dist) + dist) % TWO_64 == imageId
  {
    var id := SourceId(imageId, dist);
    var q := (imageId - dist) / TWO_64;
    assert imageId - dist == TWO_64 * q + id;
    QuotientUnique(id + dist, TWO_64, -q, imageId);
  }

  /** What a lookup of image `id`, made at stream position `pos`, comes back with: the stored
      bytes, or nothing if the image is missing, evicted, or does not arrive in time. */
  type Oracle = (nat, nat) -> Option<seq<byte>>

  /** Literal pixels are stored blue, green, red and are opaque. */
  function LiteralPixels(data: seq<byte>, p: nat, m: nat): (ps: seq<Pixel>)
    requires p + 3 * m <= |data|
    ensures |ps| == m
  {
    seq(m, i requires 0 <= i < m => Pixel(data[p + 3 * i + 2], data[p + 3 * i + 1], data[p + 3 * i], 255))
  }

  /** How many of `count` literal pixels are present and have room. */
  function LiteralRun(data: seq<byte>, p: nat, count: nat, room: nat): (m: nat)
    requires p <= |data|
    ensures p + 3 * m <= |data| && m <= count && m <= room
    ensures m == count || m == room || p + 3 * m + 3 > |data|
  {
    Min(Min(count, (|data| - p) / 3), room)
  }

  function Slice<P>(ps: seq<P>, offset: nat, length: nat): (r: seq<P>)
    ensures |r| == if offset + length <= |ps| then length else if offset <= |ps| then |ps| - offset else 0
    ensures forall i :: 0 <= i < |r| ==> r[i] == ps[offset + i]
  {
    if offset >= |ps| then [] else ps[offset..Min(offset + length, |ps|)]
  }

  /** The edit a reference makes. */
  function ReferenceEdit(imageId: nat, oracle: Oracle, pos: nat, length: nat, offset: nat, dist: nat): Edit<Pixel> {
    if dist == 0 then CopyBack(offset + 1, length)
    else
      var found := oracle(pos, SourceId(imageId, dist));
      if found.None? then Skip(length) else Write(Slice(PixelsOf(found.value), offset, length))
  }

  datatype Turn = Stops | Faults | Continues(pos: nat, state: State<Pixel>)

  /** One turn of the decoding loop, at stream position `pos`. */
  function TurnAt(data: seq<byte>, imageId: nat, oracle: Oracle, pos: nat, s: State<Pixel>): (t: Turn)
    requires pos < |data| && s.out <= |s.canvas|
    ensures t.Continues? ==> pos < t.pos <= |data| && |t.state.canvas| == |s.canvas|
  {
    match ParseToken(data, pos)
    case Truncated => Stops
    case Parsed(Literal(count), next) =>
      var m := LiteralRun(data, next, count, Room(s));
      var effect := Apply(s, Write(LiteralPixels(data, next, m)));
      Continues(next + 3 * m, effect.state)
    case Parsed(Reference(length, offset, dist), next) =>
      match Apply(s, ReferenceEdit(imageId, oracle, pos, length, offset, dist))
      case Panics => Faults
      case Leaves(s') => Continues(next, s')
  }

  /** How the loop ends. */
  datatype Ending = Faulted | Finished(state: State<Pixel>)

  function RunFrom(data: seq<byte>, imageId: nat, oracle: Oracle, pos: nat, s: State<Pixel>): (e: Ending)
    requires pos <= |data|
    ensures e.Finished? ==> |e.state.canvas| == |s.canvas|
    decreases |data| - pos
  {
    if s.out >= |s.canvas| || pos == |data| then Finished(s)
    else
      match TurnAt(data, imageId, oracle, pos, s)
      case Stops => Finished(s)
      case Faults => Faulted
      case Continues(pos', s') => RunFrom(data, imageId, oracle, pos', s')
  }

  function Blank(n: nat): State<Pixel> {
    State(seq(n, _ => ZERO), 0)
  }

  // ----- Rows

  /** The length of `rows` rows. */
  function RowsLen(row: nat, rows: nat): nat {
    if rows == 0 then 0 else RowsLen(row, rows - 1) + row
  }

  lemma {:induction false} RowsLenIsProduct(row: nat, rows: nat)
    ensures RowsLen(row, rows) == row * rows
  {
    if rows > 0 {
      RowsLenIsProduct(row, rows - 1);
      assert row * rows == row * (rows - 1) + row;
    }
  }

  lemma {:induction false} RowsLenScales(row: nat, rows: nat)
    ensures RowsLen(4 * row, rows) == 4 * RowsLen(row, rows)
  {
    if rows > 0 { RowsLenScales(row, rows - 1); }
  }

  /** Reverse the order of rows. */
  function FlipRows<P>(ps: seq<P>, row: nat, rows: nat): (r: seq<P>)
    requires |ps| == RowsLen(row, rows)
    ensures |r| == |ps|
    decreases rows
  {
    if rows == 0 then []
    else
      var cut := RowsLen(row, rows - 1);
      ps[cut..] + FlipRows(ps[..cut], row, rows - 1)
  }

  lemma {:induction false} FlipUnfolds<P>(ps: seq<P>, row: nat, rows: nat)
    requires |ps| == RowsLen(row, rows) && 0 < rows
    ensures var cut := RowsLen(row, rows - 1);
            |ps| == cut + row && FlipRows(ps, row, rows) == ps[cut..] + FlipRows(ps[..cut], row, rows - 1)
  {
  }

  lemma {:induction false} RowsUnfold(row: nat, rows: nat)
    ensures rows == 0 ==> RowsLen(row, rows) == 0
    ensures rows > 0 ==> RowsLen(row, rows) == RowsLen(row, rows - 1) + row
  {
  }

  /** Row `q` of a flipped image is row `rows - 1 - q` of the image. */
  lemma {:induction false} FlipRowsAt<P>(ps: seq<P>, row: nat, rows: nat, q: nat, x: nat)
    requires |ps| == RowsLen(row, rows) && q < rows && x < row
    ensures RowsLen(row, q) + x < |ps| && RowsLen(row, rows - 1 - q) + x < |ps|
    ensures FlipRows(ps, row, rows)[RowsLen(row, q) + x] == ps[RowsLen(row, rows - 1 - q) + x]
    decreases rows
  {
    hide FlipRows, RowsLen;
    var cut := RowsLen(row, rows - 1);
    FlipUnfolds(ps, row, rows);
    RowsUnfold(row, q);
    if q > 0 { FlipRowsAt(ps[..cut], row, rows - 1, q - 1, x); }
  }

  lemma {:induction false} FlipPrepend<P>(head: seq<P>, ps: seq<P>, row: nat, rows: nat)
    requires |head| == row && |ps| == RowsLen(row, rows)
    ensures FlipRows(head + ps, row, rows + 1) == FlipRows(ps, row, rows) + head
    decreases rows
  {
    if rows == 0 {
      assert (head + ps)[0..] == head && (head + ps)[..0] == [];
    } else {
      var cut := RowsLen(row, rows - 1);
      var all := head + ps;
      assert all[row + cut..] == ps[cut..] && all[..row + cut] == head + ps[..cut];
      FlipPrepend(head, ps[..cut], row, rows - 1);
      assert ps[cut..] + (FlipRows(ps[..cut], row, rows - 1) + head)
          == ps[cut..] + FlipRows(ps[..cut], row, rows - 1) + head;
    }
  }

  /** Flipping twice gives the rows back. */
  lemma {:induction false} FlipTwice<P>(ps: seq<P>, row: nat, rows: nat)
    requires |ps| == RowsLen(row, rows)
    ensures FlipRows(FlipRows(ps, row, rows), row, rows) == ps
    decreases rows
  {
    if rows > 0 {
      var cut := RowsLen(row, rows - 1);
      FlipTwice(ps[..cut], row, rows - 1);
      FlipPrepend(ps[cut..], FlipRows(ps[..cut], row, rows - 1), row, rows - 1);
    }
  }

  /** A flip rearranges pixels and nothing else. */
  lemma {:induction false} FlipPermutes<P>(ps: seq<P>, row: nat, rows: nat)
    requires |ps| == RowsLen(row, rows)
    ensures multiset(FlipRows(ps, row, rows)) == multiset(ps)
    decreases rows
  {
    if rows > 0 {
      var cut := RowsLen(row, rows - 1);
      FlipPermutes(ps[..cut], row, rows - 1);
      assert ps == ps[..cut] + ps[cut..];
    }
  }

  // ----- Whole images

  datatype DecodeResult = Decoded(image: Image) | Failed(error: HeaderError) | DimensionsRefused | Panicked

  function Finish(h: Header, canvas: seq<Pixel>): DecodeResult
    requires |canvas| == h.width * h.height
  {
    RowsLenIsProduct(h.width, h.height);
    var rows := if h.topDown then canvas else FlipRows(canvas, h.width, h.height);
    var image := NewGlz(h.width, h.height, BytesOf(rows), h.imageId, h.winHeadDist);
    if image.Some? then Decoded(image.value) else DimensionsRefused
  }

  function Decode(data: seq<byte>, oracle: Oracle): DecodeResult {
    var parsed := ParseHeader(data);
    if parsed.HeaderErr? then Failed(parsed.error)
    else
      var h := parsed.header;
      if RgbaLen(h.width, h.height).None? then DimensionsRefused
      else
        match RunFrom(data, h.imageId, oracle, HEADER_BYTES, Blank(h.width * h.height))
        case Faulted => Panicked
        case Finished(s) => Finish(h, s.canvas)
  }

  /** Once the dimensions are accepted the final constructor never refuses. */
  lemma {:induction false} FinishNeverRefuses(h: Header, canvas: seq<Pixel>)
    requires RgbaLen(h.width, h.height).Some? && |canvas| == h.width * h.height
    ensures Finish(h, canvas).Decoded? && ValidImage(Finish(h, canvas).image)
  {
  }

  // ----- The byte-level loops

  lemma {:induction false} PixelWritten(before: seq<byte>, after: seq<byte>, o: nat, p: Pixel)
    requires |before| == |after| && 4 * o + 4 <= |before|
    requires after[4 * o] == p.r && after[4 * o + 1] == p.g && after[4 * o + 2] == p.b && after[4 * o + 3] == p.a
    requires forall i :: 0 <= i < |before| && !(4 * o <= i < 4 * o + 4) ==> after[i] == before[i]
    ensures PixelsOf(after) == PixelsOf(before)[o := p]
  {
  }

  method WritePixel(output: array<byte>, outIdx: nat, r: byte, g: byte, b: byte, a: byte)
    requires outIdx % 4 == 0 && outIdx + 4 <= output.Length
    modifies output
    ensures PixelsOf(output[..]) == PixelsOf(old(output[..]))[outIdx / 4 := Pixel(r, g, b, a)]
  {
    ghost var before := output[..];
    output[outIdx] := r;
    output[outIdx + 1] := g;
    output[outIdx + 2] := b;
    output[outIdx + 3] := a;
    PixelWritten(before, output[..], outIdx / 4, Pixel(r, g, b, a));
  }

  lemma {:induction false} WriteAtPush<P>(canvas: seq<P>, out: nat, ps: seq<P>, p: P)
    requires out + |ps| + 1 <= |canvas|
    ensures WriteAt(canvas, out, ps)[out + |ps| := p] == WriteAt(canvas, out, ps + [p])
  {
  }

  lemma {:induction false} WriteAtNothing<P>(canvas: seq<P>, out: nat)
    requires out <= |canvas|
    ensures WriteAt(canvas, out, []) == canvas
  {
  }

  method CopyLiterals(data: seq<byte>, start: nat, count: nat, output: array<byte>, outIdx0: nat)
    returns (p: nat, outIdx: nat)
    requires start <= |data| && outIdx0 % 4 == 0 && outIdx0 <= output.Length && output.Length % 4 == 0
    modifies output
    ensures var m := LiteralRun(data, start, count, (output.Length - outIdx0) / 4);
            && p == start + 3 * m && outIdx == outIdx0 + 4 * m && outIdx <= output.Length
            && PixelsOf(output[..]) == WriteAt(PixelsOf(old(output[..])), outIdx0 / 4, LiteralPixels(data, start, m))
  {
    hide WriteAt, PixelsOf, LiteralPixels;
    p, outIdx := start, outIdx0;
    ghost var before := PixelsOf(output[..]);
    WriteAtNothing(before, outIdx0 / 4);
    LiteralPush(data, start, 0);
    ghost var k := 0;
    for i := 0 to count
      invariant k == i && p == start + 3 * k <= |data| && outIdx == outIdx0 + 4 * k <= output.Length
      invariant PixelsOf(output[..]) == WriteAt(before, outIdx0 / 4, LiteralPixels(data, start, k))
    {
      if p + 3 > |data| || outIdx + 4 > output.Length {
        break;
      }
      WritePixel(output, outIdx, data[p + 2], data[p + 1], data[p], 255);
      LiteralPush(data, start, k);
      WriteAtPush(before, outIdx0 / 4, LiteralPixels(data, start, k), Pixel(data[p + 2], data[p + 1], data[p], 255));
      p := p + 3;
      outIdx := outIdx + 4;
      k := k + 1;
    }
    assert k == LiteralRun(data, start, count, (output.Length - outIdx0) / 4);
  }

  lemma {:induction false} LiteralPush(data: seq<byte>, p: nat, k: nat)
    requires p + 3 * k <= |data|
    ensures k == 0 ==> LiteralPixels(data, p, k) == []
    ensures p + 3 * k + 3 <= |data| ==>
              LiteralPixels(data, p, k + 1)
              == LiteralPixels(data, p, k) + [Pixel(data[p + 3 * k + 2], data[p + 3 * k + 1], data[p + 3 * k], 255)]
  {
  }

  lemma {:induction false} SliceOfPixels(previous: seq<byte>, offset: nat, length: nat, k: nat)
    ensures var slice := Slice(PixelsOf(previous), offset, length);
            && (k < |slice| <==> k < length && 4 * (offset + k) + 4 <= |previous|)
            && (k < |slice| ==> slice[k] == PixelAt(previous, offset + k))
  {
  }

  method CopyPrevious(previous: seq<byte>, offset: nat, length: nat, output: array<byte>, outIdx0: nat)
    returns (outIdx: nat)
    requires outIdx0 % 4 == 0 && outIdx0 <= output.Length && output.Length % 4 == 0
    modifies output
    ensures outIdx % 4 == 0 && outIdx <= output.Length
    ensures Leaves(State(PixelsOf(output[..]), outIdx / 4))
            == Apply(State(PixelsOf(old(output[..])), outIdx0 / 4), Write(Slice(PixelsOf(previous), offset, length)))
  {
    hide WriteAt, PixelsOf, Slice, Apply;
    outIdx := outIdx0;
    var index := offset * 4;
    ghost var before, slice := PixelsOf(output[..]), Slice(PixelsOf(previous), offset, length);
    ghost var k := 0;
    WriteAtNothing(before, outIdx0 / 4);
    assert slice[..0] == [];
    for i := 0 to length
      invariant k == i <= |slice|
      invariant outIdx == outIdx0 + 4 * k <= output.Length && index == 4 * (offset + k)
      invariant PixelsOf(output[..]) == WriteAt(before, outIdx0 / 4, slice[..k])
    {
      SliceOfPixels(previous, offset, length, k);
      if outIdx + 4 > output.Length || index + 4 > |previous| {
        break;
      }
      WritePixel(output, outIdx, previous[index], previous[index + 1], previous[index + 2], previous[index + 3]);
      assert slice[..k + 1] == slice[..k] + [slice[k]];
      WriteAtPush(before, outIdx0 / 4, slice[..k], slice[k]);
      outIdx := outIdx + 4;
      index := index + 4;
      k := k + 1;
    }
    SliceOfPixels(previous, offset, length, k);
    WriteEffect(State(before, outIdx0 / 4), slice, k);
  }

  lemma {:induction false} WriteEffect<P>(s: State<P>, ps: seq<P>, k: nat)
    requires s.out <= |s.canvas| && k == Min(|ps|, |s.canvas| - s.out)
    ensures Apply(s, Write(ps)) == Leaves(State(WriteAt(s.canvas, s.out, ps[..k]), s.out + k))
  {
  }

  function WrappingSub(a: nat, b: nat): int {
    if a >= b then a - b else a - b + TWO_64
  }

  /** Copy earlier pixels of this image. Source positions wrap as machine words do; reading past
      the last word is the decoder's one way to fail. */
  method CopySelf(offset: nat, length: nat, output: array<byte>, outIdx0: nat) returns (faulted: bool, outIdx: nat)
    requires outIdx0 % 4 == 0 && outIdx0 < output.Length && output.Length % 4 == 0 && output.Length <= 0x1000_0000
    requires 1 <= length && offset < 0x200_0000
    modifies output
    ensures outIdx % 4 == 0 && outIdx <= output.Length
    ensures var effect := Apply(State(PixelsOf(old(output[..])), outIdx0 / 4), CopyBack(offset + 1, length));
            faulted == effect.Panics? && (!faulted ==> effect == Leaves(State(PixelsOf(output[..]), outIdx / 4)))
  {
    var distance := offset + 1;
    var srcStart := WrappingSub(outIdx0, distance * 4);
    if distance == 1 {
      faulted := false;
      outIdx := RepeatPixel(srcStart, length, output, outIdx0);
    } else {
      faulted, outIdx := CopyBlock(srcStart, distance, length, output, outIdx0);
    }
  }

  /** Repeat the directly previous pixel. */
  method RepeatPixel(srcStart: int, length: nat, output: array<byte>, outIdx0: nat) returns (outIdx: nat)
    requires outIdx0 % 4 == 0 && outIdx0 < output.Length && output.Length % 4 == 0 && output.Length <= 0x1000_0000
    requires srcStart == WrappingSub(outIdx0, 4)
    modifies output
    ensures outIdx % 4 == 0 && outIdx <= output.Length
    ensures Apply(State(PixelsOf(old(output[..])), outIdx0 / 4), CopyBack(1, length))
            == Leaves(State(PixelsOf(output[..]), outIdx / 4))
  {
    hide WriteAt, PixelsOf, CopyFrom;
    outIdx := outIdx0;
    ghost var before, o := PixelsOf(output[..]), outIdx0 / 4;
    ghost var k := 0;
    if o >= 1 { CopyNothing(before, o, 1); }
    for i := 0 to length
      invariant k == i && outIdx == outIdx0 + 4 * k <= output.Length
      invariant if o >= 1 then PixelsOf(output[..]) == CopyFrom(before, o, 1, k)
                else k == 0 && PixelsOf(output[..]) == before
    {
      if outIdx + 4 > output.Length || srcStart >= output.Length {
        break;
      }
      PixelRead(output[..], o - 1);
      CopyOneMore(before, o, 1, k);
      RepeatsSame(before, o, k);
      WritePixel(output, outIdx, output[srcStart], output[srcStart + 1], output[srcStart + 2], output[srcStart + 3]);
      outIdx := outIdx + 4;
      k := k + 1;
    }
    assert o >= 1 ==> k == Min(length, |before| - o);
  }

  /** Copy a block of earlier pixels, advancing the source. */
  method CopyBlock(srcStart: int, distance: nat, length: nat, output: array<byte>, outIdx0: nat)
    returns (faulted: bool, outIdx: nat)
    requires outIdx0 % 4 == 0 && outIdx0 < output.Length && output.Length % 4 == 0 && output.Length <= 0x1000_0000
    requires 2 <= distance <= 0x200_0000 && 1 <= length && srcStart == WrappingSub(outIdx0, distance * 4)
    modifies output
    ensures outIdx % 4 == 0 && outIdx <= output.Length
    ensures var effect := Apply(State(PixelsOf(old(output[..])), outIdx0 / 4), CopyBack(distance, length));
            faulted == effect.Panics? && (!faulted ==> effect == Leaves(State(PixelsOf(output[..]), outIdx / 4)))
  {
    hide WriteAt, PixelsOf, CopyFrom;
    faulted, outIdx := false, outIdx0;
    ghost var before, o := PixelsOf(output[..]), outIdx0 / 4;
    var src := srcStart;
    ghost var k := 0;
    if distance <= o { CopyNothing(before, o, distance); }
    for i := 0 to length
      invariant k == i && outIdx == outIdx0 + 4 * k <= output.Length && src == srcStart + 4 * k
      invariant if distance <= o then PixelsOf(output[..]) == CopyFrom(before, o, distance, k)
                else k == 0 && PixelsOf(output[..]) == before
      invariant distance == o + 1 ==> i == 0
    {
      if outIdx + 4 > output.Length {
        break;
      }
      if src + 4 >= TWO_64 {
        return true, outIdx;  // the bound check overflows, or wraps and lets a wild read through
      }
      if src + 4 > output.Length {
        break;
      }
      PixelRead(output[..], o + k - distance);
      CopyOneMore(before, o, distance, k);
      WritePixel(output, outIdx, output[src], output[src + 1], output[src + 2], output[src + 3]);
      outIdx := outIdx + 4;
      src := src + 4;
      k := k + 1;
    }
    assert distance <= o ==> k == Min(length, |before| - o);
  }

  lemma {:induction false} PixelRead(bytes: seq<byte>, i: nat)
    requires 4 * i + 4 <= |bytes|
    ensures PixelsOf(bytes)[i] == Pixel(bytes[4 * i], bytes[4 * i + 1], bytes[4 * i + 2], bytes[4 * i + 3])
  {
  }

  lemma {:induction false} CopyNothing<P>(canvas: seq<P>, out: nat, distance: nat)
    requires 1 <= distance <= out <= |canvas|
    ensures CopyFrom(canvas, out, distance, 0) == canvas
  {
  }

  /** Copying one pixel more reads what the copy so far has left `distance` back. */
  lemma {:induction false} CopyOneMore<P>(canvas: seq<P>, out: nat, distance: nat, k: nat)
    requires 1 <= distance <= out && out + k + 1 <= |canvas|
    ensures var r := CopyFrom(canvas, out, distance, k);
            CopyFrom(canvas, out, distance, k + 1) == r[out + k := r[out + k - distance]]
    decreases k
  {
    if k > 0 { CopyOneMore(canvas[out := canvas[out - distance]], out + 1, distance, k - 1); }
  }

  lemma {:induction false} RepeatsSame<P>(canvas: seq<P>, out: nat, k: nat)
    requires 1 <= out && out + k <= |canvas|
    ensures CopyFrom(canvas, out, 1, k)[out + k - 1] == canvas[out - 1] == CopyFrom(canvas, out, 1, k)[out - 1]
  {
    CopyIsPeriodic(canvas, out, 1, k, out - 1);
    CopyIsPeriodic(canvas, out, 1, k, out + k - 1);
  }

  // ----- The decoding loop

  method DecodeLoop(data: seq<byte>, imageId: nat, oracle: Oracle, output: array<byte>) returns (faulted: bool)
    requires HEADER_BYTES <= |data| && output.Length % 4 == 0 && output.Length <= 0x1000_0000
    requires forall i :: 0 <= i < output.Length ==> output[i] == 0
    modifies output
    ensures var ending := RunFrom(data, imageId, oracle, HEADER_BYTES, Blank(output.Length / 4));
            && faulted == ending.Faulted?
            && (!faulted ==> PixelsOf(output[..]) == ending.state.canvas)
  {
    hide RunFrom, TurnAt, Apply, PixelsOf, Room, ParseToken;
    var size := output.Length;
    var dataOffset: nat, outIdx: nat := HEADER_BYTES, 0;
    BlankPixels(output[..]);
    ghost var goal := RunFrom(data, imageId, oracle, HEADER_BYTES, Blank(size / 4));
    while outIdx < size && dataOffset < |data|
      invariant dataOffset <= |data| && outIdx % 4 == 0
      invariant RunFrom(data, imageId, oracle, dataOffset, State(PixelsOf(output[..]), outIdx / 4)) == goal
      decreases |data| - dataOffset
    {
      ghost var s := State(PixelsOf(output[..]), outIdx / 4);
      RunUnfolds(data, imageId, oracle, dataOffset, s);
      var ctrl := data[dataOffset];
      if ctrl as nat < LZ_MAX_COPY {
        LiteralTurn(data, imageId, oracle, dataOffset, s);
        dataOffset, outIdx := CopyLiterals(data, dataOffset + 1, ctrl as nat + 1, output, outIdx);
      } else {
        var parsed := ScanReference(data, dataOffset);
        ReferenceTurn(data, imageId, oracle, dataOffset, s);
        if parsed.Truncated? {
          break;
        }
        var Reference(length, offset, dist) := parsed.token;
        if dist == 0 {
          faulted, outIdx := CopySelf(offset, length, output, outIdx);
          if faulted {
            return;
          }
        } else {
          var previous := oracle(dataOffset, SourceId(imageId, dist));
          if previous.None? {
            SkipEffect(s, length);
            outIdx := outIdx + length * 4;
          } else {
            outIdx := CopyPrevious(previous.value, offset, length, output, outIdx);
          }
        }
        dataOffset := parsed.next;
      }
    }
    RunStops(data, imageId, oracle, dataOffset, State(PixelsOf(output[..]), outIdx / 4));
    faulted := false;
  }

  lemma {:induction false} BlankPixels(bytes: seq<byte>)
    requires forall i :: 0 <= i < |bytes| ==> bytes[i] == 0
    ensures PixelsOf(bytes) == Blank(|bytes| / 4).canvas
  {
  }

  lemma {:induction false} SkipEffect(s: State<Pixel>, length: nat)
    ensures Apply(s, Skip(length)) == Leaves(State(s.canvas, s.out + length))
  {
  }

  lemma {:induction false} RunUnfolds(data: seq<byte>, imageId: nat, oracle: Oracle, pos: nat, s: State<Pixel>)
    requires pos < |data| && s.out < |s.canvas|
    ensures RunFrom(data, imageId, oracle, pos, s)
            == match TurnAt(data, imageId, oracle, pos, s)
               case Stops => Finished(s)
               case Faults => Faulted
               case Continues(pos', s') => RunFrom(data, imageId, oracle, pos', s')
  {
  }

  lemma {:induction false} RunStops(data: seq<byte>, imageId: nat, oracle: Oracle, pos: nat, s: State<Pixel>)
    requires pos <= |data| && (s.out >= |s.canvas| || pos == |data| || TurnAt(data, imageId, oracle, pos, s) == Stops)
    ensures RunFrom(data, imageId, oracle, pos, s) == Finished(s)
  {
  }

  lemma {:induction false} LiteralTurn(data: seq<byte>, imageId: nat, oracle: Oracle, pos: nat, s: State<Pixel>)
    requires pos < |data| && s.out < |s.canvas| && data[pos] as nat < LZ_MAX_COPY
    ensures var m := LiteralRun(data, pos + 1, data[pos] as nat + 1, |s.canvas| - s.out);
            && s.out + m <= |s.canvas|
            && TurnAt(data, imageId, oracle, pos, s)
               == Continues(pos + 1 + 3 * m,
                            State(WriteAt(s.canvas, s.out, LiteralPixels(data, pos + 1, m)), s.out + m))
  {
    var m := LiteralRun(data, pos + 1, data[pos] as nat + 1, |s.canvas| - s.out);
    var ps := LiteralPixels(data, pos + 1, m);
    assert ps[..m] == ps;
  }

  lemma {:induction false} ReferenceTurn(data: seq<byte>, imageId: nat, oracle: Oracle, pos: nat, s: State<Pixel>)
    requires pos < |data| && s.out < |s.canvas| && data[pos] as nat >= LZ_MAX_COPY
    ensures var parsed := ParseToken(data, pos);
            && (parsed.Truncated? ==> TurnAt(data, imageId, oracle, pos, s) == Stops)
            && (parsed.Parsed? ==>
                  && parsed.token.Reference?
                  && var t := parsed.token;
                     var effect := Apply(s, ReferenceEdit(imageId, oracle, pos, t.length, t.offset, t.dist));
                  TurnAt(data, imageId, oracle, pos, s)
                  == match effect case Panics => Faults case Leaves(s') => Continues(parsed.next, s'))
  {
  }

  lemma {:induction false} PixelsOfConcat(a: seq<byte>, b: seq<byte>)
    requires |a| % 4 == 0 && |b| % 4 == 0
    ensures PixelsOf(a + b) == PixelsOf(a) + PixelsOf(b)
  {
    var c := a + b;
    forall i | 0 <= i < |c| / 4 ensures PixelsOf(c)[i] == (PixelsOf(a) + PixelsOf(b))[i] {
    }
  }

  lemma {:induction false} PixelsOfSlice(b: seq<byte>, i: nat, j: nat)
    requires i <= j && 4 * j <= |b|
    ensures PixelsOf(b[4 * i..4 * j]) == PixelsOf(b)[i..j]
  {
  }

  /** Flipping bytes row by row flips pixels. */
  lemma {:induction false} PixelsOfFlipped(b: seq<byte>, width: nat, rows: nat)
    requires |b| == RowsLen(4 * width, rows)
    ensures |PixelsOf(b)| == RowsLen(width, rows)
    ensures PixelsOf(FlipRows(b, 4 * width, rows)) == FlipRows(PixelsOf(b), width, rows)
    decreases rows
  {
    hide PixelsOf, FlipRows, RowsLen;
    RowsLenScales(width, rows);
    if rows == 0 {
      FlipSteps(b, 4 * width, 0, 0);
      FlipNothing(PixelsOf(b), width);
    } else {
      var cut := RowsLen(width, rows - 1);
      RowsLenScales(width, rows - 1);
      RowsUnfold(width, rows);
      var head, tail := b[..4 * cut], b[4 * cut..];
      PixelsOfSlice(b, 0, cut);
      PixelsOfSlice(b, cut, cut + width);
      assert b[4 * 0..4 * cut] == head && b[4 * cut..4 * (cut + width)] == tail;
      FlipUnfolds(b, 4 * width, rows);
      FlipUnfolds(PixelsOf(b), width, rows);
      assert PixelsOf(b)[..cut] == PixelsOf(head) && PixelsOf(b)[cut..] == PixelsOf(tail);
      PixelsOfFlipped(head, width, rows - 1);
      PixelsOfConcat(tail, FlipRows(head, 4 * width, rows - 1));
    }
  }

  lemma {:induction false} FlipNothing<P>(ps: seq<P>, row: nat)
    requires |ps| == 0
    ensures RowsLen(row, 0) == 0 && FlipRows(ps, row, 0) == ps
  {
  }

  /** Copy one slice of a buffer over one of another. */
  method CopySlice(source: array<byte>, src: nat, target: array<byte>, dst: nat, count: nat)
    requires source != target && src + count <= source.Length && dst + count <= target.Length
    modifies target
    ensures target[..] == old(target[..dst]) + source[src..src + count] + old(target[dst + count..])
  {
    for i := 0 to count
      invariant target[..] == old(target[..dst]) + source[src..src + i] + old(target[dst + i..])
    {
      target[dst + i] := source[src + i];
    }
  }

  /** Copy the rows of a buffer in reverse order, row by row. */
  method ReverseRows(output: array<byte>, row: nat, height: nat) returns (flipped: array<byte>)
    requires output.Length == RowsLen(row, height)
    ensures fresh(flipped) && flipped[..] == FlipRows(output[..], row, height)
  {
    hide FlipRows, RowsLen;
    flipped := new byte[output.Length](_ => 0);
    ghost var all, done := output[..], [];
    var src, dst := 0, output.Length;
    FlipSteps(all, row, 0, 0);
    assert all[..0] == [];
    for y := 0 to height
      invariant src == RowsLen(row, y) && src + dst == output.Length == |all|
      invariant dst == RowsLen(row, height - y)
      invariant done == FlipRows(all[..src], row, y) && flipped[dst..] == done
    {
      FlipSteps(all, row, y, height - y);
      dst := dst - row;
      ghost var before := flipped[..];
      CopySlice(output, src, flipped, dst, row);
      done := all[src..src + row] + done;
      Spliced(flipped[..], before[..dst], all[src..src + row], before[dst + row..]);
      src := src + row;
    }
    FlipSteps(all, row, height, 0);
    assert all[..src] == all && flipped[..] == flipped[0..];
  }

  /** Reversing rows of bytes reverses rows of pixels. */
  method FlipBuffer(output: array<byte>, width: nat, height: nat) returns (flipped: array<byte>)
    requires output.Length == RowsLen(4 * width, height)
    ensures fresh(flipped) && flipped.Length == output.Length
    ensures |PixelsOf(output[..])| == RowsLen(width, height)
    ensures PixelsOf(flipped[..]) == FlipRows(PixelsOf(output[..]), width, height)
  {
    hide PixelsOf, FlipRows, RowsLen;
    flipped := ReverseRows(output, 4 * width, height);
    PixelsOfFlipped(output[..], width, height);
    assert flipped.Length == |flipped[..]|;
  }

  lemma {:induction false} Spliced<P>(whole: seq<P>, a: seq<P>, b: seq<P>, c: seq<P>)
    requires whole == a + b + c
    ensures whole[|a|..] == b + c
  {
  }

  lemma {:induction false} FlipSteps(s: seq<byte>, row: nat, y: nat, left: nat)
    ensures RowsLen(row, 0) == 0 && FlipRows<byte>([], row, 0) == []
    ensures 0 < left ==> RowsLen(row, left) == RowsLen(row, left - 1) + row
    ensures RowsLen(row, y + 1) == RowsLen(row, y) + row
    ensures RowsLen(row, y + 1) <= |s| ==>
              var src := RowsLen(row, y);
              FlipRows(s[..src + row], row, y + 1) == s[src..src + row] + FlipRows(s[..src], row, y)
  {
    var src := RowsLen(row, y);
    if src + row <= |s| {
      assert s[..src + row][src..] == s[src..src + row] && s[..src + row][..src] == s[..src];
    }
  }

  /** Turn the rows of a bottom-up image and build the result. */
  method BuildImage(h: Header, output: array<byte>) returns (r: DecodeResult)
    requires RgbaLen(h.width, h.height) == Some(output.Length)
    ensures |PixelsOf(output[..])| == h.width * h.height
    ensures r == Finish(h, PixelsOf(output[..]))
  {
    hide PixelsOf, BytesOf, FlipRows, RowsLen, RgbaLen;
    BytesOfPixelsOf(output[..]);
    RowsLenIsProduct(h.width, h.height);
    RowsLenScales(h.width, h.height);
    var buffer := output;
    if !h.topDown {
      buffer := FlipBuffer(output, h.width, h.height);
      BytesOfPixelsOf(buffer[..]);
    }
    var image := NewGlz(h.width, h.height, buffer[..], h.imageId, h.winHeadDist);
    return if image.Some? then Decoded(image.value) else DimensionsRefused;
  }

  lemma {:induction false} FourBytesEach(n: nat)
    ensures 4 * n / 4 == n && 4 * n % 4 == 0
  {
  }

  /** Decompress a GLZ image. */
  method DecompressGlz(data: seq<byte>, oracle: Oracle) returns (r: DecodeResult)
    ensures r == Decode(data, oracle)
  {
    hide RunFrom, PixelsOf, Finish, RgbaLen, ParseHeader, Blank;
    var parsed := ParseHeader(data);
    if parsed.HeaderErr? {
      return Failed(parsed.error);
    }
    var h := parsed.header;
    var size := RgbaLen(h.width, h.height);
    if size.None? {
      return DimensionsRefused;
    }
    FourBytesEach(h.width * h.height);
    var output := new byte[size.value](_ => 0);
    var faulted := DecodeLoop(data, h.imageId, oracle, output);
    if faulted {
      return Panicked;
    }
    r := BuildImage(h, output);
  }
}
