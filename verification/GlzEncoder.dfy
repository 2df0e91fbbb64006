/** An encoder for GLZ images, and the proof that the decoder inverts it. */
module GlzEncoder {
  import opened Arithmetic
  import opened Options
  import opened Bytes
  import opened GlzStream
  import opened GlzCanvas
  import opened ImageLimits
  import opened GlzDecoder

  datatype Colour = Colour(r: byte, g: byte, b: byte)

  /** How a reference is written: with how many distance bytes, and in the extended form with or
      without a further offset byte. */
  datatype Form = Short(distBytes: nat) | Extended(distBytes: nat, more: bool)

  datatype Piece = Colours(colours: seq<Colour>) | Refer(length: nat, offset: nat, dist: nat, form: Form)

  function Pow256(k: nat): (r: nat)
    ensures r >= 1
  {
    if k == 0 then 1 else 256 * Pow256(k - 1)
  }

  predicate Encodable(p: Piece) {
    match p
    case Colours(colours) => 1 <= |colours| <= LZ_MAX_COPY
    case Refer(length, offset, dist, form) =>
      && 1 <= length && form.distBytes <= 3
      && match form
         case Short(k) => offset < 0x1000 && dist / 64 < Pow256(k)
         case Extended(k, more) => offset < (if more then 0x200_0000 else 0x2_0000) && dist < Pow256(k)
  }

  /** Every reference the format has room for can be written. */
  lemma {:induction false} FormExists(length: nat, offset: nat, dist: nat) returns (form: Form)
    requires 1 <= length
    requires (offset < 0x1000 && dist < 0x4000_0000) || (offset < 0x200_0000 && dist < 0x100_0000)
    ensures Encodable(Refer(length, offset, dist, form))
  {
    assert Pow256(1) == 256 && Pow256(2) == 65536;
    assert Pow256(3) == 0x100_0000;
    form := if offset < 0x1000 && dist < 0x4000_0000 then Short(3) else Extended(3, true);
  }

  // ----- Bytes

  function Le(n: nat, k: nat): (s: seq<byte>)
    ensures |s| == k
    decreases k
  {
    if k == 0 then [] else [n % 256] + Le(n / 256, k - 1)
  }

  function LengthBytes(n: nat): seq<byte> {
    if n < 255 then [n] else [255] + LengthBytes(n - 255)
  }

  function LengthField(length: nat): seq<byte> {
    if length < 7 then [] else LengthBytes(length - 7)
  }

  function Tail(offset: nat, dist: nat, form: Form): seq<byte>
    requires form.distBytes <= 3 && (form.Extended? && form.more ==> offset < 0x200_0000)
  {
    match form
    case Short(k) => [k * 64 + dist % 64] + Le(dist / 64, k)
    case Extended(k, more) =>
      [k * 64 + (if more then 32 else 0) + offset / 4096 % 32] + Le(dist, k) + (if more then [offset / 131072] else [])
  }

  function Control(length: nat, offset: nat, form: Form): byte {
    Min(length, 7) * 32 + (if form.Extended? then 16 else 0) + offset % 16
  }

  function Bgr(colours: seq<Colour>): (s: seq<byte>)
    ensures |s| == 3 * |colours|
  {
    if colours == [] then [] else [colours[0].b, colours[0].g, colours[0].r] + Bgr(colours[1..])
  }

  function EncodePiece(p: Piece): (s: seq<byte>)
    requires Encodable(p)
    ensures |s| >= 1
  {
    match p
    case Colours(colours) => [|colours| - 1] + Bgr(colours)
    case Refer(length, offset, dist, form) =>
      [Control(length, offset, form)] + LengthField(length) + [offset / 16 % 256] + Tail(offset, dist, form)
  }

  function EncodeAll(ps: seq<Piece>): seq<byte>
    requires forall i :: 0 <= i < |ps| ==> Encodable(ps[i])
  {
    if ps == [] then [] else EncodePiece(ps[0]) + EncodeAll(ps[1..])
  }

  // ----- Reading fields back

  /** `s` stands in `data` at `p`. */
  predicate At(data: seq<byte>, p: nat, s: seq<byte>) {
    p + |s| <= |data| && data[p..p + |s|] == s
  }

  lemma {:induction false} AtSplit(data: seq<byte>, p: nat, a: seq<byte>, b: seq<byte>)
    requires At(data, p, a + b)
    ensures At(data, p, a) && At(data, p + |a|, b)
  {
    var all := data[p..p + |a| + |b|];
    assert all[..|a|] == a && all[|a|..] == b;
    assert data[p..p + |a|] == all[..|a|] && data[p + |a|..p + |a| + |b|] == all[|a|..];
  }

  lemma {:induction false} AtByte(data: seq<byte>, p: nat, x: byte)
    requires At(data, p, [x])
    ensures p < |data| && data[p] == x
  {
    assert data[p..p + 1][0] == x;
  }

  lemma {:induction false} Recompose(acc: nat, n: nat, scale: nat)
    ensures acc + n % 256 * scale + n / 256 * (scale * 256) == acc + n * scale
  {
    var q, r := n / 256, n % 256;
    assert n == 256 * q + r;
    assert n * scale == (256 * q + r) * scale == 256 * q * scale + r * scale;
    assert q * (scale * 256) == 256 * q * scale;
  }

  lemma {:induction false} ReadLeInverts(data: seq<byte>, p: nat, n: nat, k: nat, scale: nat, acc: nat)
    requires At(data, p, Le(n, k)) && n < Pow256(k)
    ensures ReadLe(data, p, k, scale, acc) == Read(acc + n * scale, p + k)
    decreases k
  {
    if k > 0 {
      AtSplit(data, p, [n % 256], Le(n / 256, k - 1));
      AtByte(data, p, n % 256);
      ReadLeInverts(data, p + 1, n / 256, k - 1, scale * 256, acc + n % 256 * scale);
      Recompose(acc, n, scale);
    }
  }

  lemma {:induction false} ReadLengthInverts(data: seq<byte>, p: nat, n: nat, acc: nat)
    requires At(data, p, LengthBytes(n))
    ensures ReadLength(data, p, acc) == Read(acc + n, p + |LengthBytes(n)|)
    decreases n
  {
    if n < 255 {
      AtByte(data, p, n);
    } else {
      AtSplit(data, p, [255], LengthBytes(n - 255));
      AtByte(data, p, 255);
      ReadLengthInverts(data, p + 1, n - 255, acc + 255);
    }
  }

  /** The bit fields of the second code byte do not overlap. */
  lemma {:induction false} TailInverts(data: seq<byte>, p: nat, length: nat, offset: nat, dist: nat, form: Form)
    requires Encodable(Refer(length, offset, dist, form)) && At(data, p, Tail(offset, dist, form))
    ensures p < |data|
    ensures ParseTail(data, p + 1, if form.Extended? then 1 else 0, data[p], length, offset % 4096)
            == Parsed(Reference(length, offset, dist), p + |Tail(offset, dist, form)|)
  {
    hide Pow256;
    match form
    case Short(k) =>
      ShortTail(data, p, length, offset, dist, k);
    case Extended(k, more) =>
      ExtendedTail(data, p, length, offset, dist, k, more);
  }

  lemma {:induction false} ShortTail(data: seq<byte>, p: nat, length: nat, offset: nat, dist: nat, k: nat)
    requires Encodable(Refer(length, offset, dist, Short(k))) && At(data, p, Tail(offset, dist, Short(k)))
    ensures p < |data|
    ensures ParseTail(data, p + 1, 0, data[p], length, offset % 4096)
            == Parsed(Reference(length, offset, dist), p + 1 + k)
  {
    hide Pow256, Le, ReadLe, At;
    var code2: byte := k * 64 + dist % 64;
    AtSplit(data, p, [code2], Le(dist / 64, k));
    AtByte(data, p, code2);
    assert code2 / 64 == k && code2 % 64 == dist % 64;
    ReadLeInverts(data, p + 1, dist / 64, k, 64, dist % 64);
    assert dist % 64 + dist / 64 * 64 == dist;
  }

  /** The second code byte of the extended form. */
  lemma {:induction false} ExtendedCode(k: nat, more: bool, high: nat)
    requires k <= 3 && high < 32
    ensures var code2 := k * 64 + (if more then 32 else 0) + high;
            code2 < 256 && code2 / 64 == k && code2 / 32 % 2 == (if more then 1 else 0) && code2 % 32 == high
  {
  }

  /** Where the fields of an extended tail stand. */
  lemma {:induction false} ExtendedFields(data: seq<byte>, p: nat, code2: byte, dist: nat, k: nat, last: seq<byte>)
    requires At(data, p, [code2] + Le(dist, k) + last)
    ensures p < |data| && data[p] == code2
    ensures At(data, p + 1, Le(dist, k)) && At(data, p + 1 + k, last)
  {
    hide At, Le;
    AtSplit(data, p, [code2] + Le(dist, k), last);
    AtSplit(data, p, [code2], Le(dist, k));
    AtByte(data, p, code2);
  }

  lemma {:induction false} ExtendedTail(data: seq<byte>, p: nat, length: nat, offset: nat, dist: nat, k: nat,
                                        more: bool)
    requires Encodable(Refer(length, offset, dist, Extended(k, more)))
    requires At(data, p, Tail(offset, dist, Extended(k, more)))
    ensures p < |data|
    ensures ParseTail(data, p + 1, 1, data[p], length, offset % 4096)
            == Parsed(Reference(length, offset, dist), p + |Tail(offset, dist, Extended(k, more))|)
  {
    hide Pow256, Le, ReadLe, At;
    var high := offset / 4096 % 32;
    ExtendedCode(k, more, high);
    var code2: byte := k * 64 + (if more then 32 else 0) + high;
    var last: seq<byte> := if more then [offset / 131072] else [];
    ExtendedFields(data, p, code2, dist, k, last);
    ReadLeInverts(data, p + 1, dist, k, 1, 0);
    OffsetParts(offset);
    if more {
      AtByte(data, p + 1 + k, offset / 131072);
      assert ParseTail(data, p + 1, 1, code2, length, offset % 4096)
          == Parsed(Reference(length, offset, dist), p + 2 + k);
    } else {
      assert ParseTail(data, p + 1, 1, code2, length, offset % 4096)
          == Parsed(Reference(length, offset, dist), p + 1 + k);
    }
  }

  lemma {:induction false} OffsetParts(offset: nat)
    ensures offset % 16 + offset / 16 % 256 * 16 == offset % 4096
    ensures offset % 4096 + offset / 4096 % 32 * 4096 + offset / 131072 * 131072 == offset
  {
    var a, r := offset / 16, offset % 16;
    var b, m := a / 256, a % 256;
    var c, h := b / 32, b % 32;
    QuotientUnique(offset, 4096, b, 16 * m + r);
    QuotientUnique(offset, 131072, c, 4096 * h + 16 * m + r);
  }

  lemma {:induction false} ControlParts(length: nat, offset: nat, form: Form)
    requires 1 <= length
    ensures var c := Control(length, offset, form);
            && c as nat >= LZ_MAX_COPY && c as nat / 32 == Min(length, 7) && c as nat % 16 == offset % 16
            && c as nat / 16 % 2 == (if form.Extended? then 1 else 0)
  {
  }

  /** Where the four fields of an encoded reference stand. */
  lemma {:induction false} ReferenceFields(data: seq<byte>, pos: nat, ctrl: byte, lf: seq<byte>, mid: byte,
                                           tail: seq<byte>)
    requires At(data, pos, [ctrl] + lf + [mid] + tail)
    ensures pos + 1 + |lf| < |data| && data[pos] == ctrl && data[pos + 1 + |lf|] == mid
    ensures At(data, pos + 1, lf) && At(data, pos + 2 + |lf|, tail)
  {
    hide At;
    AtSplit(data, pos, [ctrl] + lf + [mid], tail);
    AtSplit(data, pos, [ctrl] + lf, [mid]);
    AtSplit(data, pos, [ctrl], lf);
    AtByte(data, pos, ctrl);
    AtByte(data, pos + 1 + |lf|, mid);
  }

  /** The code bytes and what follows them, for a control byte with the reference's low bits. */
  lemma {:induction false} CodesParse(data: seq<byte>, p: nat, ctrl: byte, length: nat, offset: nat, dist: nat,
                                      form: Form)
    requires Encodable(Refer(length, offset, dist, form)) && p < |data| && data[p] == offset / 16 % 256
    requires At(data, p + 1, Tail(offset, dist, form))
    requires ctrl as nat % 16 == offset % 16 && ctrl as nat / 16 % 2 == (if form.Extended? then 1 else 0)
    ensures ParseCodes(data, p, ctrl, length)
            == Parsed(Reference(length, offset, dist), p + 1 + |Tail(offset, dist, form)|)
  {
    hide At, Tail, ParseTail, Encodable;
    OffsetParts(offset);
    TailInverts(data, p + 1, length, offset, dist, form);
  }

  lemma {:induction false} ShortLength(data: seq<byte>, pos: nat, length: nat)
    requires pos < |data| && 1 <= length < 7 && data[pos] as nat / 32 == length
    ensures data[pos] as nat >= LZ_MAX_COPY && ParseToken(data, pos) == ParseCodes(data, pos + 1, data[pos], length)
  {
    hide ParseCodes;
  }

  lemma {:induction false} LongLength(data: seq<byte>, pos: nat, length: nat)
    requires pos < |data| && 7 <= length && data[pos] as nat / 32 == 7 && At(data, pos + 1, LengthBytes(length - 7))
    ensures pos + 1 + |LengthBytes(length - 7)| <= |data|
    ensures data[pos] as nat >= LZ_MAX_COPY
    ensures ParseToken(data, pos) == ParseCodes(data, pos + 1 + |LengthBytes(length - 7)|, data[pos], length)
  {
    hide ParseCodes, ReadLength, LengthBytes;
    ReadLengthInverts(data, pos + 1, length - 7, 7);
  }

  /** The stream parser reads an encoded reference back, whatever its run length and form. */
  lemma {:induction false} ReferenceParses(data: seq<byte>, pos: nat, length: nat, offset: nat, dist: nat, form: Form)
    requires Encodable(Refer(length, offset, dist, form))
    requires At(data, pos, EncodePiece(Refer(length, offset, dist, form)))
    ensures pos < |data| && data[pos] as nat >= LZ_MAX_COPY
    ensures ParseToken(data, pos)
            == Parsed(Reference(length, offset, dist), pos + |EncodePiece(Refer(length, offset, dist, form))|)
  {
    hide At, Control, Tail, ParseCodes, ParseToken, Encodable, LengthBytes;
    EncodableParts(length, offset, dist, form);
    var lf, tail := LengthField(length), Tail(offset, dist, form);
    ReferenceFields(data, pos, Control(length, offset, form), lf, offset / 16 % 256, tail);
    ControlParts(length, offset, form);
    CodesParse(data, pos + 1 + |lf|, data[pos], length, offset, dist, form);
    if length < 7 { ShortLength(data, pos, length); } else { LongLength(data, pos, length); }
  }

  lemma {:induction false} EncodableParts(length: nat, offset: nat, dist: nat, form: Form)
    requires Encodable(Refer(length, offset, dist, form))
    ensures 1 <= length && form.distBytes <= 3 && (form.Extended? && form.more ==> offset < 0x200_0000)
  {
  }

  // ----- What a list of pieces means

  function Solid(c: Colour): Pixel {
    Pixel(c.r, c.g, c.b, 255)
  }

  function SolidAll(colours: seq<Colour>): (ps: seq<Pixel>)
    ensures |ps| == |colours|
  {
    seq(|colours|, i requires 0 <= i < |colours| => Solid(colours[i]))
  }

  function PieceEdit(p: Piece, imageId: nat, oracle: Oracle, pos: nat): Edit<Pixel> {
    match p
    case Colours(colours) => Write(SolidAll(colours))
    case Refer(length, offset, dist, _) => ReferenceEdit(imageId, oracle, pos, length, offset, dist)
  }

  ghost predicate AllEncodable(ps: seq<Piece>) {
    forall i :: 0 <= i < |ps| ==> Encodable(ps[i])
  }

  /** Make each piece's edit in turn until the canvas is full; `pos` is where the piece stands in
      the stream, for the lookups of references. */
  ghost function Play(ps: seq<Piece>, imageId: nat, oracle: Oracle, pos: nat, s: State<Pixel>): Ending
    requires AllEncodable(ps)
    decreases |ps|
  {
    if ps == [] || s.out >= |s.canvas| then Finished(s)
    else
      match Apply(s, PieceEdit(ps[0], imageId, oracle, pos))
      case Panics => Faulted
      case Leaves(s') => Play(ps[1..], imageId, oracle, pos + |EncodePiece(ps[0])|, s')
  }

  lemma {:induction false} BgrAt(colours: seq<Colour>, i: nat)
    requires i < |colours|
    ensures var s := Bgr(colours);
            s[3 * i] == colours[i].b && s[3 * i + 1] == colours[i].g && s[3 * i + 2] == colours[i].r
  {
    if i > 0 { BgrAt(colours[1..], i - 1); }
  }

  lemma {:induction false} LiteralsRead(data: seq<byte>, p: nat, colours: seq<Colour>, m: nat)
    requires At(data, p, Bgr(colours)) && m <= |colours|
    ensures LiteralPixels(data, p, m) == SolidAll(colours)[..m]
  {
    var bytes := Bgr(colours);
    forall i | 0 <= i < m ensures LiteralPixels(data, p, m)[i] == SolidAll(colours)[i] {
      BgrAt(colours, i);
      assert data[p + 3 * i] == bytes[3 * i] && data[p + 3 * i + 1] == bytes[3 * i + 1]
          && data[p + 3 * i + 2] == bytes[3 * i + 2];
    }
  }

  /** The decoder takes an encoded run of colours as one write, stopping early only if the image
      is full. */
  lemma {:induction false} ColoursTurn(data: seq<byte>, imageId: nat, oracle: Oracle, pos: nat,
                                       colours: seq<Colour>, s: State<Pixel>)
    requires Encodable(Colours(colours)) && At(data, pos, EncodePiece(Colours(colours))) && s.out < |s.canvas|
    ensures pos < |data|
    ensures var t, effect := TurnAt(data, imageId, oracle, pos, s), Apply(s, Write(SolidAll(colours)));
            && t.Continues? && effect == Leaves(t.state)
            && (t.state.out >= |t.state.canvas| || t.pos == pos + |EncodePiece(Colours(colours))|)
  {
    hide At, Bgr, WriteAt, LiteralPixels, SolidAll, TurnAt;
    AtSplit(data, pos, [|colours| - 1], Bgr(colours));
    AtByte(data, pos, |colours| - 1);
    AtFits(data, pos + 1, Bgr(colours));
    LiteralTurn(data, imageId, oracle, pos, s);
    LiteralsRead(data, pos + 1, colours, Min(|colours|, |s.canvas| - s.out));
  }

  lemma {:induction false} AtFits(data: seq<byte>, p: nat, s: seq<byte>)
    requires At(data, p, s)
    ensures p + |s| <= |data|
  {
  }

  /** Decoding an encoded list of pieces makes exactly their edits, and goes on with what follows. */
  lemma {:induction false} DecodesPieces(data: seq<byte>, imageId: nat, oracle: Oracle, pos: nat, ps: seq<Piece>,
                                         s: State<Pixel>)
    requires AllEncodable(ps) && At(data, pos, EncodeAll(ps))
    ensures pos + |EncodeAll(ps)| <= |data|
    ensures RunFrom(data, imageId, oracle, pos, s)
            == match Play(ps, imageId, oracle, pos, s)
               case Faulted => Faulted
               case Finished(s') => RunFrom(data, imageId, oracle, pos + |EncodeAll(ps)|, s')
    decreases |ps|
  {
    hide At, RunFrom, TurnAt, Apply, EncodePiece, Encodable, ReferenceEdit, SolidAll, ParseToken;
    AtFits(data, pos, EncodeAll(ps));
    if s.out >= |s.canvas| {
      RunStops(data, imageId, oracle, pos, s);
      RunStops(data, imageId, oracle, pos + |EncodeAll(ps)|, s);
    } else if ps != [] {
      AtSplit(data, pos, EncodePiece(ps[0]), EncodeAll(ps[1..]));
      match ps[0] {
        case Colours(colours) =>
          ColoursTurn(data, imageId, oracle, pos, colours, s);
          RunUnfolds(data, imageId, oracle, pos, s);
          var t := TurnAt(data, imageId, oracle, pos, s);
          if t.state.out >= |t.state.canvas| {
            RunStops(data, imageId, oracle, t.pos, t.state);
            RunStops(data, imageId, oracle, pos + |EncodeAll(ps)|, t.state);
          } else {
            DecodesPieces(data, imageId, oracle, t.pos, ps[1..], t.state);
          }
        case Refer(length, offset, dist, form) =>
          ReferenceParses(data, pos, length, offset, dist, form);
          RunUnfolds(data, imageId, oracle, pos, s);
          ReferenceTurn(data, imageId, oracle, pos, s);
          var t := TurnAt(data, imageId, oracle, pos, s);
          if t.Continues? {
            DecodesPieces(data, imageId, oracle, t.pos, ps[1..], t.state);
          }
      }
    }
  }

  /** A reference that cannot be followed: to further before the image than one pixel it changes
      nothing; to a missing image it passes over its pixels; to an image too short it copies what is
      there. */
  lemma {:induction false} LostReference(data: seq<byte>, imageId: nat, oracle: Oracle, pos: nat, length: nat,
                                         offset: nat, dist: nat, form: Form, s: State<Pixel>)
    requires Encodable(Refer(length, offset, dist, form)) && s.out < |s.canvas|
    requires At(data, pos, EncodePiece(Refer(length, offset, dist, form)))
    ensures pos < |data|
    ensures var t := TurnAt(data, imageId, oracle, pos, s);
            var next := pos + |EncodePiece(Refer(length, offset, dist, form))|;
            var found := oracle(pos, SourceId(imageId, dist));
            && (dist == 0 && offset > s.out ==> t == Continues(next, s))
            && (dist > 0 && found.None? ==> t == Continues(next, State(s.canvas, s.out + length)))
            && (dist > 0 && found.Some? && offset >= |PixelsOf(found.value)| ==> t == Continues(next, s))
            && (dist > 0 && found.Some? && offset < |PixelsOf(found.value)| < offset + length
                && s.out + |PixelsOf(found.value)| - offset <= |s.canvas| ==>
                  var tail := PixelsOf(found.value)[offset..];
                  t == Continues(next, State(s.canvas[..s.out] + tail + s.canvas[s.out + |tail|..], s.out + |tail|)))
  {
    hide At, EncodePiece, Encodable, ParseToken, PixelsOf, TurnAt;
    ReferenceParses(data, pos, length, offset, dist, form);
    ReferenceTurn(data, imageId, oracle, pos, s);
  }

  // ----- Pieces that describe an image

  function PieceLength(p: Piece): nat {
    match p
    case Colours(colours) => |colours|
    case Refer(length, _, _, _) => length
  }

  /** What the piece stands for is what the image has at `out`. */
  ghost predicate Matches(p: Piece, imageId: nat, oracle: Oracle, pos: nat, target: seq<Pixel>, out: nat)
    requires out + PieceLength(p) <= |target|
  {
    match p
    case Colours(colours) => target[out..out + |colours|] == SolidAll(colours)
    case Refer(length, offset, dist, _) =>
      if dist == 0 then
        && offset + 1 <= out
        && forall j :: out <= j < out + length ==> target[j] == target[j - (offset + 1)]
      else
        var found := oracle(pos, SourceId(imageId, dist));
        && found.Some? && offset + length <= |PixelsOf(found.value)|
        && PixelsOf(found.value)[offset..offset + length] == target[out..out + length]
  }

  /** The pieces, in order, match the image from `out` to its end. */
  ghost predicate Describe(ps: seq<Piece>, imageId: nat, oracle: Oracle, pos: nat, target: seq<Pixel>, out: nat)
    requires AllEncodable(ps)
    decreases |ps|
  {
    if ps == [] then out == |target|
    else
      && out + PieceLength(ps[0]) <= |target|
      && Matches(ps[0], imageId, oracle, pos, target, out)
      && Describe(ps[1..], imageId, oracle, pos + |EncodePiece(ps[0])|, target, out + PieceLength(ps[0]))
  }

  lemma {:induction false} CopyMatches(canvas: seq<Pixel>, target: seq<Pixel>, out: nat, distance: nat, count: nat)
    requires 1 <= distance <= out && out + count <= |canvas| == |target| && canvas[..out] == target[..out]
    requires forall j :: out <= j < out + count ==> target[j] == target[j - distance]
    ensures CopyFrom(canvas, out, distance, count)[..out + count] == target[..out + count]
    decreases count
  {
    if count > 0 {
      var c := canvas[out := canvas[out - distance]];
      assert canvas[..out][out - distance] == target[..out][out - distance];
      assert c[..out + 1] == canvas[..out] + [target[out]] == target[..out + 1];
      CopyMatches(c, target, out + 1, distance, count - 1);
    }
  }

  lemma {:induction false} WriteMatches(canvas: seq<Pixel>, target: seq<Pixel>, out: nat, ps: seq<Pixel>)
    requires out + |ps| <= |canvas| == |target| && canvas[..out] == target[..out] && target[out..out + |ps|] == ps
    ensures WriteAt(canvas, out, ps)[..out + |ps|] == target[..out + |ps|]
  {
    assert WriteAt(canvas, out, ps)[..out + |ps|] == canvas[..out] + ps;
  }

  /** A matching piece extends the part of the image that is done. */
  lemma {:induction false} PieceExtends(p: Piece, imageId: nat, oracle: Oracle, pos: nat, target: seq<Pixel>,
                                        s: State<Pixel>)
    requires Encodable(p) && s.out + PieceLength(p) <= |s.canvas| == |target| && s.canvas[..s.out] == target[..s.out]
    requires Matches(p, imageId, oracle, pos, target, s.out)
    ensures var effect, end := Apply(s, PieceEdit(p, imageId, oracle, pos)), s.out + PieceLength(p);
            && effect.Leaves? && effect.state.out == end && |effect.state.canvas| == |target|
            && effect.state.canvas[..end] == target[..end]
  {
    hide CopyFrom, WriteAt, PixelsOf, SolidAll;
    match p
    case Colours(colours) =>
      var ps := SolidAll(colours);
      assert ps[..|ps|] == ps;
      WriteMatches(s.canvas, target, s.out, ps);
    case Refer(length, offset, dist, _) =>
      if dist == 0 {
        CopyMatches(s.canvas, target, s.out, offset + 1, length);
      } else {
        var ps := PixelsOf(oracle(pos, SourceId(imageId, dist)).value)[offset..offset + length];
        assert ps[..|ps|] == ps;
        WriteMatches(s.canvas, target, s.out, ps);
      }
  }

  lemma {:induction false} DescribedPlays(ps: seq<Piece>, imageId: nat, oracle: Oracle, pos: nat,
                                          target: seq<Pixel>, s: State<Pixel>)
    requires AllEncodable(ps) && Describe(ps, imageId, oracle, pos, target, s.out)
    requires s.out <= |s.canvas| == |target| && s.canvas[..s.out] == target[..s.out]
    ensures Play(ps, imageId, oracle, pos, s) == Finished(State(target, |target|))
    decreases |ps|
  {
    hide Apply, Matches, PieceEdit, EncodePiece;
    if ps == [] {
      assert s.canvas[..s.out] == s.canvas && target[..s.out] == target;
    } else {
      PieceExtends(ps[0], imageId, oracle, pos, target, s);
      var s' := Apply(s, PieceEdit(ps[0], imageId, oracle, pos)).state;
      DescribedPlays(ps[1..], imageId, oracle, pos + |EncodePiece(ps[0])|, target, s');
    }
  }

  // ----- Whole images

  function Be(n: nat, k: nat): (s: seq<byte>)
    ensures |s| == k
    decreases k
  {
    if k == 0 then [] else Be(n / 256, k - 1) + [n % 256]
  }

  lemma {:induction false} FromBeInverts(n: nat, k: nat)
    requires n < Pow256(k)
    ensures FromBe(Be(n, k)) == n
    decreases k
  {
    if k > 0 {
      FromBeInverts(n / 256, k - 1);
      var s := Be(n, k);
      assert s[..k - 1] == Be(n / 256, k - 1);
    }
  }

  lemma {:induction false} BeInverts(s: seq<byte>)
    ensures FromBe(s) < Pow256(|s|) && Be(FromBe(s), |s|) == s
  {
    if s != [] {
      var init, last := s[..|s| - 1], s[|s| - 1];
      BeInverts(init);
      assert FromBe(s) / 256 == FromBe(init) && FromBe(s) % 256 == last;
      assert s == init + [last];
    }
  }

  predicate HeaderFits(h: Header) {
    h.width < Pow256(4) && h.height < Pow256(4) && h.imageId < Pow256(8) && h.winHeadDist < Pow256(4)
  }

  /** The bytes of a header: magic, version 1, minor version, flags, width, height, stride, id, window
      head distance; minor version, stride and the other flags are not looked at. */
  function HeaderBytes(h: Header, flags: byte, minor: seq<byte>, stride: seq<byte>): (s: seq<byte>)
    requires |minor| == 2 && |stride| == 4
    ensures |s| == 33
  {
    [0x20, 0x20, 0x5A, 0x4C] + [0, 1] + minor + [flags] + Be(h.width, 4) + Be(h.height, 4) + stride
    + Be(h.imageId, 8) + Be(h.winHeadDist, 4)
  }

  /** A header parses to its fields, top-down exactly when flag 16 is set. */
  lemma {:induction false} HeaderParses(h: Header, flags: byte, minor: seq<byte>, stride: seq<byte>)
    requires HeaderFits(h) && |minor| == 2 && |stride| == 4
    ensures ParseHeader(HeaderBytes(h, flags, minor, stride))
            == HeaderOk(Header(flags / 16 % 2 == 1, h.width, h.height, h.imageId, h.winHeadDist))
  {
    hide Pow256, Be, FromBe;
    FromBeInverts(h.width, 4);
    FromBeInverts(h.height, 4);
    FromBeInverts(h.imageId, 8);
    FromBeInverts(h.winHeadDist, 4);
    BigEndian2(0, 1);
    HeaderFields([0x20, 0x20, 0x5A, 0x4C], [0, 1], minor, [flags], Be(h.width, 4), Be(h.height, 4), stride,
                 Be(h.imageId, 8), Be(h.winHeadDist, 4));
  }

  /** And only such bytes parse. */
  lemma {:induction false} HeaderWritten(data: seq<byte>)
    requires ParseHeader(data).HeaderOk?
    ensures var h := ParseHeader(data).header;
            && HeaderFits(h) && (h.topDown <==> data[8] / 16 % 2 == 1)
            && data[..33] == HeaderBytes(h, data[8], data[6..8], data[17..21])
  {
    hide Pow256, Be, FromBe;
    BeInverts(data[9..13]);
    BeInverts(data[13..17]);
    BeInverts(data[21..29]);
    BeInverts(data[29..33]);
    BigEndian2(data[4], data[5]);
    assert data[4..6] == [data[4], data[5]];
    HeaderJoined(data);
  }

  lemma {:induction false} HeaderJoined(data: seq<byte>)
    requires |data| >= 33
    ensures data[..33] == data[0..4] + data[4..6] + data[6..8] + [data[8]] + data[9..13] + data[13..17] + data[17..21]
                          + data[21..29] + data[29..33]
  {
  }

  /** Which error, exactly. */
  lemma {:induction false} HeaderErrors(data: seq<byte>)
    ensures ParseHeader(data) == HeaderErr(TooShort) <==> |data| < 33
    ensures ParseHeader(data) == HeaderErr(BadMagic) <==> |data| >= 33 && data[..4] != [0x20, 0x20, 0x5A, 0x4C]
    ensures ParseHeader(data) == HeaderErr(BadVersion)
            <==> |data| >= 33 && data[..4] == [0x20, 0x20, 0x5A, 0x4C] && !(data[4] == 0 && data[5] == 1)
  {
    hide FromBe;
    if |data| >= 33 {
      BigEndian2(data[4], data[5]);
      assert data[4..6] == [data[4], data[5]];
    }
  }

  /** So every header whose fields fit can be written. */
  lemma {:induction false} HeaderExists(h: Header, minor: nat, pixelType: nat, stride: nat) returns (header: seq<byte>)
    requires HeaderFits(h) && pixelType < 16
    ensures header == HeaderBytes(h, (if h.topDown then 16 else 0) + pixelType, Be(minor, 2), Be(stride, 4))
    ensures |header| == HEADER_BYTES && ParseHeader(header) == HeaderOk(h)
  {
    hide Pow256, Be, FromBe;
    header := HeaderBytes(h, (if h.topDown then 16 else 0) + pixelType, Be(minor, 2), Be(stride, 4));
    HeaderParses(h, (if h.topDown then 16 else 0) + pixelType, Be(minor, 2), Be(stride, 4));
  }

  /** Decoding inverts encoding: a header and pieces that describe an image decode to exactly that
      image, bottom-up images with their rows turned. */
  lemma {:induction false} DecodeInvertsEncode(header: seq<byte>, h: Header, ps: seq<Piece>, oracle: Oracle,
                                               target: seq<Pixel>)
    requires |header| == HEADER_BYTES && ParseHeader(header) == HeaderOk(h)
    requires RgbaLen(h.width, h.height).Some? && |target| == h.width * h.height
    requires AllEncodable(ps) && Describe(ps, h.imageId, oracle, HEADER_BYTES, target, 0)
    ensures |target| == RowsLen(h.width, h.height)
    ensures Decode(header + EncodeAll(ps), oracle)
            == Decoded(Image(h.width, h.height,
                             BytesOf(if h.topDown then target else FlipRows(target, h.width, h.height)),
                             h.imageId, h.winHeadDist))
  {
    hide RunFrom, Play, Describe, ParseHeader, BytesOf, FlipRows, EncodeAll, RowsLen;
    var data := header + EncodeAll(ps);
    HeaderOnly(header, EncodeAll(ps));
    RowsLenIsProduct(h.width, h.height);
    var s := Blank(|target|);
    assert data[HEADER_BYTES..] == EncodeAll(ps);
    assert s.canvas[..0] == target[..0];
    DecodesPieces(data, h.imageId, oracle, HEADER_BYTES, ps, s);
    DescribedPlays(ps, h.imageId, oracle, HEADER_BYTES, target, s);
    RunStops(data, h.imageId, oracle, |data|, State(target, |target|));
    FinishNeverRefuses(h, target);
  }

  // ----- Every opaque image has an encoding

  function Chunks(colours: seq<Colour>): seq<Piece> {
    if colours == [] then []
    else if |colours| <= LZ_MAX_COPY then [Colours(colours)]
    else [Colours(colours[..LZ_MAX_COPY])] + Chunks(colours[LZ_MAX_COPY..])
  }

  lemma {:induction false} ChunksDescribe(colours: seq<Colour>, imageId: nat, oracle: Oracle, pos: nat,
                                          target: seq<Pixel>, out: nat)
    requires out <= |target| && target[out..] == SolidAll(colours)
    ensures AllEncodable(Chunks(colours)) && Describe(Chunks(colours), imageId, oracle, pos, target, out)
    decreases |colours|
  {
    hide EncodePiece;
    if colours != [] {
      var k := Min(|colours|, LZ_MAX_COPY);
      var head, tail := colours[..k], colours[k..];
      assert target[out..out + k] == target[out..][..k] == SolidAll(head);
      assert target[out + k..] == target[out..][k..] == SolidAll(tail);
      ChunksDescribe(tail, imageId, oracle, pos + |EncodePiece(Colours(head))|, target, out + k);
      assert |colours| <= LZ_MAX_COPY ==> head == colours;
      assert Chunks(colours) == [Colours(head)] + Chunks(tail);
      DescribeCons(Colours(head), Chunks(tail), imageId, oracle, pos, target, out);
    }
  }

  lemma {:induction false} DescribeCons(p: Piece, ps: seq<Piece>, imageId: nat, oracle: Oracle, pos: nat,
                                        target: seq<Pixel>, out: nat)
    requires Encodable(p) && AllEncodable(ps) && out + PieceLength(p) <= |target|
    requires Matches(p, imageId, oracle, pos, target, out)
    requires Describe(ps, imageId, oracle, pos + |EncodePiece(p)|, target, out + PieceLength(p))
    ensures AllEncodable([p] + ps) && Describe([p] + ps, imageId, oracle, pos, target, out)
  {
    hide EncodePiece, Matches, Encodable;
    var all := [p] + ps;
    assert all[0] == p && all[1..] == ps;
    assert forall i :: 1 <= i < |all| ==> all[i] == ps[i - 1];
  }
}
