/** The decoder's path through the stream, without any pixel: which tokens it reads and how far the
    output has got at each. It decides exactly when the decoder fails. */
module GlzWalk {
  import opened Options
  import opened Bytes
  import opened GlzStream
  import opened GlzCanvas
  import opened ImageLimits
  import opened GlzDecoder

  /** A token read at stream position `pos` with `out` pixels produced. */
  datatype Visit = Visit(pos: nat, out: nat, token: Token)

  /** How many pixels the image found by a lookup has. */
  type Sizes = (nat, nat) -> Option<nat>

  function SizesOf(oracle: Oracle): Sizes {
    (pos: nat, id: nat) => if oracle(pos, id).None? then None else Some(|oracle(pos, id).value| / 4)
  }

  function NoImages(): Sizes {
    (pos: nat, id: nat) => None
  }

  /** A reference to this image that reaches exactly one pixel before its start. */
  predicate Stray(v: Visit) {
    v.token.Reference? && v.token.dist == 0 && JustBeforeStart(v.token.offset + 1, v.out)
  }

  function Rest(size: nat, offset: nat): nat {
    if size > offset then size - offset else 0
  }

  /** Pixels produced after a reference into an image of `n` pixels. */
  function OutAfter(imageId: nat, sizes: Sizes, v: Visit, n: nat): nat
    requires v.token.Reference? && v.out < n
  {
    var Reference(length, offset, dist) := v.token;
    if dist == 0 then (if offset + 1 <= v.out then v.out + Min(length, n - v.out) else v.out)
    else
      var size := sizes(v.pos, SourceId(imageId, dist));
      if size.None? then v.out + length else v.out + Min(Min(length, Rest(size.value, offset)), n - v.out)
  }

  function Visits(data: seq<byte>, imageId: nat, sizes: Sizes, pos: nat, out: nat, n: nat): seq<Visit>
    requires pos <= |data|
    decreases |data| - pos
  {
    if out >= n || pos == |data| then []
    else
      match ParseToken(data, pos)
      case Truncated => []
      case Parsed(Literal(count), next) =>
        var m := LiteralRun(data, next, count, n - out);
        [Visit(pos, out, Literal(count))] + Visits(data, imageId, sizes, next + 3 * m, out + m, n)
      case Parsed(Reference(length, offset, dist), next) =>
        var v := Visit(pos, out, Reference(length, offset, dist));
        if Stray(v) then [v] else [v] + Visits(data, imageId, sizes, next, OutAfter(imageId, sizes, v, n), n)
  }

  // ----- The decoder fails exactly on a stray reference

  ghost predicate HasStray(vs: seq<Visit>) {
    exists i :: 0 <= i < |vs| && Stray(vs[i])
  }

  lemma {:induction false} HasStrayCons(v: Visit, vs: seq<Visit>)
    ensures HasStray([v] + vs) <==> Stray(v) || HasStray(vs)
  {
    var all := [v] + vs;
    if HasStray(vs) {
      var i :| 0 <= i < |vs| && Stray(vs[i]);
      assert all[i + 1] == vs[i];
    }
    if Stray(v) { assert all[0] == v; }
    if HasStray(all) && !Stray(v) {
      var i :| 0 <= i < |all| && Stray(all[i]);
      assert vs[i - 1] == all[i];
    }
  }

  /** A reference turn follows the walk. */
  lemma {:induction false} ReferenceFollows(imageId: nat, oracle: Oracle, v: Visit, s: State<Pixel>)
    requires v.token.Reference? && v.out == s.out < |s.canvas| && 1 <= v.token.length
    ensures var effect := Apply(s, ReferenceEdit(imageId, oracle, v.pos, v.token.length, v.token.offset, v.token.dist));
            && (effect.Panics? <==> Stray(v))
            && (effect.Leaves? ==>
                  && effect.state.out == OutAfter(imageId, SizesOf(oracle), v, |s.canvas|)
                  && |effect.state.canvas| == |s.canvas|)
  {
  }

  lemma {:induction false} FailsIffStrayFrom(data: seq<byte>, imageId: nat, oracle: Oracle, pos: nat, s: State<Pixel>)
    requires pos <= |data|
    ensures RunFrom(data, imageId, oracle, pos, s).Faulted?
            <==> HasStray(Visits(data, imageId, SizesOf(oracle), pos, s.out, |s.canvas|))
    decreases |data| - pos
  {
    hide Apply, OutAfter, Stray, SizesOf, ReferenceEdit, ParseToken, WriteAt, LiteralPixels;
    if s.out < |s.canvas| && pos < |data| {
      var n := |s.canvas|;
      LiteralForm(data, pos);
      match ParseToken(data, pos) {
        case Truncated =>
        case Parsed(Literal(count), next) =>
          LiteralTurn(data, imageId, oracle, pos, s);
          var t := TurnAt(data, imageId, oracle, pos, s);
          FailsIffStrayFrom(data, imageId, oracle, t.pos, t.state);
          var v := Visit(pos, s.out, Literal(count));
          NotStray(v);
          HasStrayCons(v, Visits(data, imageId, SizesOf(oracle), t.pos, t.state.out, n));
        case Parsed(Reference(length, offset, dist), next) =>
          var v := Visit(pos, s.out, Reference(length, offset, dist));
          ReferenceFollows(imageId, oracle, v, s);
          if Stray(v) {
            HasStrayCons(v, []);
            assert [v] + [] == [v];
          } else {
            var t := TurnAt(data, imageId, oracle, pos, s);
            FailsIffStrayFrom(data, imageId, oracle, t.pos, t.state);
            HasStrayCons(v, Visits(data, imageId, SizesOf(oracle), t.pos, t.state.out, n));
          }
      }
    }
  }

  lemma {:induction false} LiteralForm(data: seq<byte>, pos: nat)
    requires pos < |data|
    ensures var parsed := ParseToken(data, pos);
            if data[pos] as nat < LZ_MAX_COPY then parsed == Parsed(Literal(data[pos] as nat + 1), pos + 1)
            else parsed.Parsed? ==> parsed.token.Reference?
  {
  }

  lemma {:induction false} NotStray(v: Visit)
    requires v.token.Literal?
    ensures !Stray(v)
  {
  }

  /** The tokens a decode of `data` reads. */
  function ImageVisits(data: seq<byte>, h: Header, sizes: Sizes): seq<Visit>
    requires HEADER_BYTES <= |data|
  {
    Visits(data, h.imageId, sizes, HEADER_BYTES, 0, h.width * h.height)
  }

  /** Decoding is total except for stray references: an image whose header and dimensions are
      accepted decodes to a valid image if and only if no token read is a stray reference. */
  lemma {:induction false} DecodesIffNoStray(data: seq<byte>, oracle: Oracle)
    requires ParseHeader(data).HeaderOk?
    requires RgbaLen(ParseHeader(data).header.width, ParseHeader(data).header.height).Some?
    ensures var h := ParseHeader(data).header;
            var stray := HasStray(ImageVisits(data, h, SizesOf(oracle)));
            && (stray ==> Decode(data, oracle) == Panicked)
            && (!stray ==>
                  && Decode(data, oracle).Decoded?
                  && ValidImage(Decode(data, oracle).image)
                  && Decode(data, oracle).image.width == h.width && Decode(data, oracle).image.height == h.height)
  {
    hide RunFrom, Visits, HasStray;
    var h := ParseHeader(data).header;
    var n := h.width * h.height;
    FailsIffStrayFrom(data, h.imageId, oracle, HEADER_BYTES, Blank(n));
    var ending := RunFrom(data, h.imageId, oracle, HEADER_BYTES, Blank(n));
    if ending.Finished? { FinishNeverRefuses(h, ending.state.canvas); }
  }

  /** Whatever the stream holds after it, a header decides what is refused: with its own error, or for
      its dimensions. */
  lemma {:induction false} RefusedIff(data: seq<byte>, oracle: Oracle, e: HeaderError)
    ensures Decode(data, oracle) == Failed(e) <==> ParseHeader(data) == HeaderErr(e)
    ensures Decode(data, oracle) == DimensionsRefused
            <==> && ParseHeader(data).HeaderOk?
                 && var h := ParseHeader(data).header;
                 h.width == 0 || h.height == 0 || h.width > 16384 || h.height > 16384 || h.width * h.height > 67108864
  {
    hide RunFrom, ParseHeader, Finish, Visits, HasStray;
    var parsed := ParseHeader(data);
    if parsed.HeaderOk? && RgbaLen(parsed.header.width, parsed.header.height).Some? {
      DecodesIffNoStray(data, oracle);
    }
  }

  // ----- For references inside their source, the path depends on the bytes alone

  /** Every reference to an image that was found lies inside it. */
  ghost predicate Inside(vs: seq<Visit>, imageId: nat, sizes: Sizes) {
    forall i :: 0 <= i < |vs| ==> InsideAt(vs[i], imageId, sizes)
  }

  predicate InsideAt(v: Visit, imageId: nat, sizes: Sizes) {
    v.token.Reference? && v.token.dist != 0 ==>
      var size := sizes(v.pos, SourceId(imageId, v.token.dist));
      size.None? || v.token.offset + v.token.length <= size.value
  }

  lemma {:induction false} OutInside(imageId: nat, sizes: Sizes, v: Visit, n: nat)
    requires v.token.Reference? && v.out < n && InsideAt(v, imageId, sizes)
    ensures var a, b := OutAfter(imageId, sizes, v, n), OutAfter(imageId, NoImages(), v, n);
            a == b || (a >= n && b >= n)
  {
  }

  lemma {:induction false} PathDependsOnBytes(data: seq<byte>, imageId: nat, sizes: Sizes, pos: nat, out: nat, n: nat)
    requires pos <= |data|
    requires Inside(Visits(data, imageId, sizes, pos, out, n), imageId, sizes)
    ensures Visits(data, imageId, sizes, pos, out, n) == Visits(data, imageId, NoImages(), pos, out, n)
    decreases |data| - pos
  {
    hide InsideAt, Stray, OutAfter, ParseToken, LiteralRun;
    if out < n && pos < |data| {
      var vs := Visits(data, imageId, sizes, pos, out, n);
      match ParseToken(data, pos) {
        case Truncated =>
        case Parsed(Literal(count), next) =>
          var m := LiteralRun(data, next, count, n - out);
          InsideTail(vs, imageId, sizes);
          PathDependsOnBytes(data, imageId, sizes, next + 3 * m, out + m, n);
        case Parsed(Reference(length, offset, dist), next) =>
          var v := vs[0];
          if !Stray(v) {
            InsideTail(vs, imageId, sizes);
            OutInside(imageId, sizes, v, n);
            PathDependsOnBytes(data, imageId, sizes, next, OutAfter(imageId, sizes, v, n), n);
          }
      }
    }
  }

  /** So for references inside their sources, whether an image decodes can be told from its bytes
      alone: it does if and only if no stray reference is read with an empty dictionary. */
  lemma {:induction false} DecodesIffNoStrayInBytes(data: seq<byte>, oracle: Oracle)
    requires ParseHeader(data).HeaderOk?
    requires RgbaLen(ParseHeader(data).header.width, ParseHeader(data).header.height).Some?
    requires var h := ParseHeader(data).header;
             Inside(ImageVisits(data, h, SizesOf(oracle)), h.imageId, SizesOf(oracle))
    ensures Decode(data, oracle).Decoded? <==> !HasStray(ImageVisits(data, ParseHeader(data).header, NoImages()))
    ensures Decode(data, oracle) == Panicked <==> HasStray(ImageVisits(data, ParseHeader(data).header, NoImages()))
  {
    hide Decode, ParseHeader, Visits, HasStray, RgbaLen, Inside;
    var h := ParseHeader(data).header;
    DecodesIffNoStray(data, oracle);
    PathDependsOnBytes(data, h.imageId, SizesOf(oracle), HEADER_BYTES, 0, h.width * h.height);
  }

  lemma {:induction false} InsideTail(vs: seq<Visit>, imageId: nat, sizes: Sizes)
    requires Inside(vs, imageId, sizes) && vs != []
    ensures InsideAt(vs[0], imageId, sizes) && Inside(vs[1..], imageId, sizes)
  {
  }

  // ----- The failing family is not empty

  const STRAY_BYTES: seq<byte> := [0, 10, 20, 30, 0x21, 0, 0]

  /** One literal pixel followed by a reference two pixels back makes the decoder of a two-pixel
      image fail, whatever the dictionary holds. */
  lemma {:induction false} StrayReferenceFailsAfter(header: seq<byte>, oracle: Oracle)
    requires |header| == HEADER_BYTES && ParseHeader(header).HeaderOk?
    requires ParseHeader(header).header.width == 2 && ParseHeader(header).header.height == 1
    ensures Decode(header + STRAY_BYTES, oracle) == Panicked
  {
    var data := header + STRAY_BYTES;
    HeaderOnly(header, STRAY_BYTES);
    var h := ParseHeader(data).header;
    var sizes := SizesOf(oracle);
    assert data[33] == 0 && data[37] == 0x21 && data[38] == 0 && data[39] == 0;
    assert ParseToken(data, 33) == Parsed(Literal(1), 34);
    assert LiteralRun(data, 34, 1, 2) == 1;
    assert ParseToken(data, 37) == Parsed(Reference(1, 1, 0), 40) by {
      assert ReadLe(data, 40, 0, 64, 0) == Read(0, 40);
    }
    var v := Visit(37, 1, Reference(1, 1, 0));
    assert Visits(data, h.imageId, sizes, 37, 1, 2) == [v];
    var vs := Visits(data, h.imageId, sizes, 33, 0, 2);
    assert vs == [Visit(33, 0, Literal(1))] + [v];
    assert Stray(vs[1]);
    DecodesIffNoStray(data, oracle);
  }

  const TWO_BY_ONE: seq<byte> := [0x20, 0x20, 0x5A, 0x4C] + [0, 1] + [0, 0] + [16] + [0, 0, 0, 2] + [0, 0, 0, 1]
                                 + [0, 0, 0, 8] + [0, 0, 0, 0, 0, 0, 0, 0] + [0, 0, 0, 0]

  /** So a whole image exists that the decoder fails on. */
  lemma {:induction false} StrayReferenceFails(oracle: Oracle)
    ensures Decode(TWO_BY_ONE + STRAY_BYTES, oracle) == Panicked
  {
    hide Decode, FromBe;
    HeaderFields([0x20, 0x20, 0x5A, 0x4C], [0, 1], [0, 0], [16], [0, 0, 0, 2], [0, 0, 0, 1],
                 [0, 0, 0, 8], [0, 0, 0, 0, 0, 0, 0, 0], [0, 0, 0, 0]);
    BigEndian2(0, 1);
    BigEndian4(2);
    BigEndian4(1);
    StrayReferenceFailsAfter(TWO_BY_ONE, oracle);
  }
}
