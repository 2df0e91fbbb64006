/** Small images, byte for byte. */
module GlzExamples {
  import opened Bytes
  import opened Options
  import opened ImageLimits
  import opened GlzCanvas
  import opened GlzStream
  import opened GlzDecoder
  import opened GlzEncoder
  import opened GlzWalk

  lemma {:induction false} BigEndian8(a: byte)
    ensures FromBe([0, 0, 0, 0, 0, 0, 0, a]) == a
  {
    var four: seq<byte> := [0, 0, 0, 0];
    assert FromBe(four) == 0 by { BigEndian4(0); }
    assert (four + [0])[..4] == four && (four + [0, 0])[..5] == four + [0] && (four + [0, 0, 0])[..6] == four + [0, 0];
    assert FromBe(four + [0]) == 0;
    assert FromBe(four + [0, 0]) == 0;
    assert FromBe(four + [0, 0, 0]) == 0;
    var all := [0, 0, 0, 0, 0, 0, 0, a];
    assert all[..7] == four + [0, 0, 0];
  }

  /** A header with one-byte fields. */
  function SmallHeader(flags: byte, width: byte, height: byte, id: byte, winHead: byte): (s: seq<byte>)
    ensures |s| == 33
  {
    [0x20, 0x20, 0x5A, 0x4C] + [0, 1] + [0, 0] + [flags] + [0, 0, 0, width] + [0, 0, 0, height] + [0, 0, 0, 8]
    + [0, 0, 0, 0, 0, 0, 0, id] + [0, 0, 0, winHead]
  }

  lemma {:induction false} SmallHeaderParses(flags: byte, width: byte, height: byte, id: byte, winHead: byte)
    ensures ParseHeader(SmallHeader(flags, width, height, id, winHead))
            == HeaderOk(Header(flags / 16 % 2 == 1, width, height, id, winHead))
  {
    hide FromBe;
    HeaderFields([0x20, 0x20, 0x5A, 0x4C], [0, 1], [0, 0], [flags], [0, 0, 0, width], [0, 0, 0, height],
                 [0, 0, 0, 8], [0, 0, 0, 0, 0, 0, 0, id], [0, 0, 0, winHead]);
    BigEndian2(0, 1);
    BigEndian4(width);
    BigEndian4(height);
    BigEndian8(id);
    BigEndian4(winHead);
  }

  /** Flag 16 is a top-down image. */
  lemma {:induction false} TwoByOneParses()
    ensures ParseHeader(TWO_BY_ONE) == HeaderOk(Header(true, 2, 1, 0, 0))
  {
    SmallHeaderParses(16, 2, 1, 0, 0);
  }

  /** An accepted header alone is an image of zeros. */
  lemma {:induction false} NothingWrittenIsZero(header: seq<byte>, oracle: Oracle)
    requires |header| == 33 && ParseHeader(header).HeaderOk?
    requires RgbaLen(ParseHeader(header).header.width, ParseHeader(header).header.height).Some?
    ensures var r := Decode(header, oracle);
            r.Decoded? && forall i :: 0 <= i < |r.image.pixels| ==> r.image.pixels[i] == 0
  {
    hide ParseHeader, RunFrom, FlipRows, BytesOf;
    var h := ParseHeader(header).header;
    var n := h.width * h.height;
    RunStops(header, h.imageId, oracle, 33, Blank(n));
    FinishNeverRefuses(h, Blank(n).canvas);
    RowsLenIsProduct(h.width, h.height);
    FlipZero(Blank(n).canvas, h.width, h.height);
    ZeroBytes(n);
  }

  lemma {:induction false} FlipZero(ps: seq<Pixel>, row: nat, rows: nat)
    requires |ps| == RowsLen(row, rows) && forall i :: 0 <= i < |ps| ==> ps[i] == Pixel(0, 0, 0, 0)
    ensures FlipRows(ps, row, rows) == ps
  {
    FlipPermutes(ps, row, rows);
    var r := FlipRows(ps, row, rows);
    forall i | 0 <= i < |r| ensures r[i] == ps[i] {
      assert r[i] in multiset(r);
      assert r[i] in multiset(ps);
      assert r[i] in ps;
    }
  }

  lemma {:induction false} ZeroBytes(n: nat)
    ensures forall i :: 0 <= i < 4 * n ==> BytesOf(Blank(n).canvas)[i] == 0
  {
  }

  // ----- Two literal pixels, bottom-up

  const TWO_COLOURS: seq<byte> := [1, 10, 20, 30, 40, 50, 60]

  /** Two rows of one pixel, stored from the bottom, blue first. */
  lemma {:induction false} BottomUpImage(oracle: Oracle)
    ensures Decode(SmallHeader(8, 1, 2, 7, 3) + TWO_COLOURS, oracle)
            == Decoded(Image(1, 2, [60, 50, 40, 255, 30, 20, 10, 255], 7, 3))
  {
    hide ParseHeader, Decode, RunFrom, RowsLen;
    var header, h := SmallHeader(8, 1, 2, 7, 3), Header(false, 1, 2, 7, 3);
    SmallHeaderParses(8, 1, 2, 7, 3);
    var colours := [Colour(30, 20, 10), Colour(60, 50, 40)];
    var ps, target := [Colours(colours)], [Pixel(30, 20, 10, 255), Pixel(60, 50, 40, 255)];
    EncodedTwo(colours);
    assert target[0..2] == SolidAll(colours);
    assert Describe(ps, 7, oracle, 33, target, 0) by { assert ps[1..] == []; }
    DecodeInvertsEncode(header, h, ps, oracle, target);
    TurnTwo(target);
  }

  lemma {:induction false} EncodedTwo(colours: seq<Colour>)
    requires |colours| == 2
    ensures Encodable(Colours(colours))
    ensures EncodeAll([Colours(colours)])
            == [1, colours[0].b, colours[0].g, colours[0].r, colours[1].b, colours[1].g, colours[1].r]
  {
    var ps, rest := [Colours(colours)], colours[1..];
    assert rest[1..] == [] && ps[1..] == [];
    assert Bgr(rest) == [rest[0].b, rest[0].g, rest[0].r] + Bgr([]);
    assert EncodeAll(ps) == EncodePiece(ps[0]) + EncodeAll([]);
  }

  lemma {:induction false} TurnTwo(ps: seq<Pixel>)
    requires ps == [Pixel(30, 20, 10, 255), Pixel(60, 50, 40, 255)]
    ensures |ps| == RowsLen(1, 2) && BytesOf(FlipRows(ps, 1, 2)) == [60, 50, 40, 255, 30, 20, 10, 255]
  {
    assert RowsLen(1, 0) == 0 && RowsLen(1, 1) == 1 && RowsLen(1, 2) == 2;
    assert FlipRows(ps[..1], 1, 1) == ps[..1][0..] + FlipRows(ps[..1][..0], 1, 0);
    assert FlipRows(ps, 1, 2) == [Pixel(60, 50, 40, 255), Pixel(30, 20, 10, 255)];
  }

  // ----- References into this image and an earlier one

  const COPIES: seq<byte> := [0, 10, 20, 30] + [32, 0, 0] + [65, 0, 2]

  const P := Pixel(30, 20, 10, 255)
  const Z := Pixel(0, 0, 0, 0)

  predicate EndsInCopies(data: seq<byte>) {
    |data| == 43 && data[33..] == COPIES
  }

  lemma {:induction false} FirstPixel(data: seq<byte>, oracle: Oracle)
    requires EndsInCopies(data)
    ensures TurnAt(data, 9, oracle, 33, State([Z, Z, Z, Z], 0)) == Continues(37, State([P, Z, Z, Z], 1))
  {
    assert data[33] == COPIES[0] && data[34] == COPIES[1] && data[35] == COPIES[2] && data[36] == COPIES[3];
    LiteralTurn(data, 9, oracle, 33, State([Z, Z, Z, Z], 0));
  }

  lemma {:induction false} SecondPixel(data: seq<byte>, oracle: Oracle)
    requires EndsInCopies(data)
    ensures TurnAt(data, 9, oracle, 37, State([P, Z, Z, Z], 1)) == Continues(40, State([P, P, Z, Z], 2))
  {
    assert data[37] == COPIES[4] && data[38] == COPIES[5] && data[39] == COPIES[6];
    assert ReadLe(data, 40, 0, 64, 0) == Read(0, 40);
    assert ParseToken(data, 37) == Parsed(Reference(1, 0, 0), 40);
    ReferenceTurn(data, 9, oracle, 37, State([P, Z, Z, Z], 1));
    assert CopyFrom([P, P, Z, Z], 2, 1, 0) == [P, P, Z, Z];
    assert CopyFrom([P, Z, Z, Z], 1, 1, 1) == [P, P, Z, Z];
  }

  lemma {:induction false} LastPixels(data: seq<byte>, oracle: Oracle)
    requires EndsInCopies(data)
    ensures oracle(40, 7) == None ==>
              TurnAt(data, 9, oracle, 40, State([P, P, Z, Z], 2)) == Continues(43, State([P, P, Z, Z], 4))
    ensures oracle(40, 7).Some? && |oracle(40, 7).value| == 12 ==>
              TurnAt(data, 9, oracle, 40, State([P, P, Z, Z], 2))
              == Continues(43, State([P, P] + PixelsOf(oracle(40, 7).value)[1..], 4))
  {
    hide PixelsOf;
    assert data[40] == COPIES[7] && data[41] == COPIES[8] && data[42] == COPIES[9];
    assert ReadLe(data, 43, 0, 64, 2) == Read(2, 43);
    assert ParseToken(data, 40) == Parsed(Reference(2, 1, 2), 43);
    ReferenceTurn(data, 9, oracle, 40, State([P, P, Z, Z], 2));
    assert SourceId(9, 2) == 7;
  }

  /** A pixel, its copy, and two pixels, from the second on, of the image two before; if that image is
      missing, two pixels of zeros. */
  lemma {:induction false} CopiedPixels(oracle: Oracle)
    requires oracle(40, 7).Some? ==> |oracle(40, 7).value| == 12
    ensures Decode(SmallHeader(24, 4, 1, 9, 0) + COPIES, oracle)
            == Decoded(Image(4, 1,
                             [30, 20, 10, 255, 30, 20, 10, 255]
                             + if oracle(40, 7).Some? then oracle(40, 7).value[4..] else [0, 0, 0, 0, 0, 0, 0, 0],
                             9, 0))
  {
    hide ParseHeader, TurnAt, RunFrom, PixelsOf, BytesOf;
    var header, h := SmallHeader(24, 4, 1, 9, 0), Header(true, 4, 1, 9, 0);
    var data := header + COPIES;
    SmallHeaderParses(24, 4, 1, 9, 0);
    HeaderOnly(header, COPIES);
    var rest := if oracle(40, 7).Some? then PixelsOf(oracle(40, 7).value)[1..] else [Z, Z];
    assert Blank(4).canvas == [Z, Z, Z, Z];
    FirstPixel(data, oracle);
    RunUnfolds(data, 9, oracle, 33, State([Z, Z, Z, Z], 0));
    SecondPixel(data, oracle);
    RunUnfolds(data, 9, oracle, 37, State([P, Z, Z, Z], 1));
    LastPixels(data, oracle);
    RunUnfolds(data, 9, oracle, 40, State([P, P, Z, Z], 2));
    assert [P, P] + [Z, Z] == [P, P, Z, Z];
    RunStops(data, 9, oracle, 43, State([P, P] + rest, 4));
    FinishNeverRefuses(h, [P, P] + rest);
    if oracle(40, 7).Some? { TailBytes(oracle(40, 7).value); } else { ZeroTail(); }
  }

  lemma {:induction false} TailBytes(source: seq<byte>)
    requires |source| == 12
    ensures BytesOf([P, P] + PixelsOf(source)[1..]) == [30, 20, 10, 255, 30, 20, 10, 255] + source[4..]
  {
    var bytes := [30, 20, 10, 255, 30, 20, 10, 255] + source[4..];
    assert PixelsOf(bytes) == [P, P] + PixelsOf(source)[1..];
    BytesOfPixelsOf(bytes);
  }

  lemma {:induction false} ZeroTail()
    ensures BytesOf([P, P] + [Z, Z]) == [30, 20, 10, 255, 30, 20, 10, 255] + [0, 0, 0, 0, 0, 0, 0, 0]
  {
  }

  const TORN: seq<byte> := [0, 10, 20, 30, 32, 0]

  lemma {:induction false} TornRun(data: seq<byte>, oracle: Oracle)
    requires |data| == 39 && data[33..] == TORN
    ensures RunFrom(data, 9, oracle, 33, State([Z, Z], 0)) == Finished(State([P, Z], 1))
  {
    hide RunFrom;
    assert data[33] == TORN[0] && data[34] == TORN[1] && data[35] == TORN[2] && data[36] == TORN[3];
    assert data[37] == TORN[4];
    LiteralTurn(data, 9, oracle, 33, State([Z, Z], 0));
    assert WriteAt([Z, Z], 0, LiteralPixels(data, 34, 1)) == [P, Z];
    RunUnfolds(data, 9, oracle, 33, State([Z, Z], 0));
    assert ParseToken(data, 37) == Truncated;
    ReferenceTurn(data, 9, oracle, 37, State([P, Z], 1));
    RunStops(data, 9, oracle, 37, State([P, Z], 1));
  }

  /** A token cut off by the end of the stream leaves the pixels before it, and zeros. */
  lemma {:induction false} TornImage(oracle: Oracle)
    ensures Decode(SmallHeader(24, 2, 1, 9, 0) + TORN, oracle)
            == Decoded(Image(2, 1, [30, 20, 10, 255, 0, 0, 0, 0], 9, 0))
  {
    hide ParseHeader, RunFrom, BytesOf;
    var header, h := SmallHeader(24, 2, 1, 9, 0), Header(true, 2, 1, 9, 0);
    SmallHeaderParses(24, 2, 1, 9, 0);
    HeaderOnly(header, TORN);
    assert Blank(2).canvas == [Z, Z];
    TornRun(header + TORN, oracle);
    FinishNeverRefuses(h, [P, Z]);
    PairBytes();
  }

  lemma {:induction false} PairBytes()
    ensures BytesOf([P, Z]) == [30, 20, 10, 255, 0, 0, 0, 0]
  {
  }
}
