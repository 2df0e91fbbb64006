/** The byte stream of a GLZ image: header fields and tokens. */
module GlzStream {
  import opened Bytes

  const LZ_MAX_COPY: nat := 32

  /** One token: a run of literal pixels, whose bytes follow it, or a reference. A reference at
      image distance 0 is to this image. */
  datatype Token = Literal(count: nat) | Reference(length: nat, offset: nat, dist: nat)

  datatype Parsed = Truncated | Parsed(token: Token, next: nat)

  datatype Read = Read(value: nat, next: nat)

  /** Add run-length bytes up to and including the first that is not 255. */
  function ReadLength(data: seq<byte>, p: nat, acc: nat): (r: Read)
    requires p <= |data|
    ensures p <= r.next <= |data| && r.value >= acc
    decreases |data| - p
  {
    if p == |data| then Read(acc, p)
    else if data[p] != 255 then Read(acc + data[p], p + 1)
    else ReadLength(data, p + 1, acc + 255)
  }

  /** Add up to `count` little-endian bytes, the first worth `scale`. */
  function ReadLe(data: seq<byte>, p: nat, count: nat, scale: nat, acc: nat): (r: Read)
    requires p <= |data|
    ensures p <= r.next <= |data|
    decreases count
  {
    if count == 0 || p == |data| then Read(acc, p)
    else ReadLe(data, p + 1, count - 1, scale * 256, acc + data[p] as nat * scale)
  }

  function Sum(s: seq<byte>): nat {
    if s == [] then 0 else s[0] as nat + Sum(s[1..])
  }

  /** A run length is the sum of the bytes read: all 255 but the last, which ends it unless the stream
      does. */
  lemma {:induction false} ReadLengthMeans(data: seq<byte>, p: nat, acc: nat)
    requires p <= |data|
    ensures var r := ReadLength(data, p, acc);
            && r.value == acc + Sum(data[p..r.next])
            && (forall i :: p <= i < r.next - 1 ==> data[i] == 255)
            && (r.next == |data| || (p < r.next && data[r.next - 1] != 255))
    decreases |data| - p
  {
    var r := ReadLength(data, p, acc);
    if p < |data| {
      if data[p] == 255 { ReadLengthMeans(data, p + 1, acc + 255); }
      assert data[p..r.next][1..] == data[p + 1..r.next];
    }
  }

  /** The value of little-endian bytes. */
  function LeValue(s: seq<byte>): nat {
    if s == [] then 0 else s[0] as nat + 256 * LeValue(s[1..])
  }

  /** A distance is the little-endian value of the bytes that are present. */
  lemma {:induction false} ReadLeMeans(data: seq<byte>, p: nat, count: nat, scale: nat, acc: nat)
    requires p <= |data|
    ensures var next := if p + count <= |data| then p + count else |data|;
            ReadLe(data, p, count, scale, acc) == Read(acc + scale * LeValue(data[p..next]), next)
    decreases count
  {
    var next := if p + count <= |data| then p + count else |data|;
    if count > 0 && p < |data| {
      ReadLeMeans(data, p + 1, count - 1, scale * 256, acc + data[p] as nat * scale);
      assert LeValue(data[p..next]) == data[p] as nat + 256 * LeValue(data[p + 1..next]) by {
        assert data[p..next][1..] == data[p + 1..next];
      }
      LeStep(scale, data[p], LeValue(data[p + 1..next]));
    } else {
      assert data[p..next] == [] && LeValue(data[p..next]) == 0;
      assert scale * 0 == 0;
    }
  }

  lemma {:induction false} LeStep(scale: nat, b: byte, v: nat)
    ensures b as nat * scale + scale * 256 * v == scale * (b as nat + 256 * v)
  {
    assert scale * (b as nat + 256 * v) == scale * b as nat + scale * (256 * v);
  }

  /** The fields after the two code bytes of a reference. */
  function ParseTail(data: seq<byte>, p: nat, pixelFlag: nat, code2: byte, length: nat, offset: nat): (r: Parsed)
    requires p <= |data| && offset < 0x1000
    ensures r.Parsed? ==> p <= r.next <= |data| && r.token.Reference? && r.token.length == length
    ensures r.Parsed? ==> r.token.offset < 0x200_0000
  {
    var imageFlag := code2 as nat / 64;
    if pixelFlag == 0 then
      var dist := ReadLe(data, p, imageFlag, 64, code2 as nat % 64);
      Parsed(Reference(length, offset, dist.value), dist.next)
    else
      var offset' := offset + code2 as nat % 32 * 4096;
      var dist := ReadLe(data, p, imageFlag, 1, 0);
      if code2 as nat / 32 % 2 == 0 then Parsed(Reference(length, offset', dist.value), dist.next)
      else if dist.next >= |data| then Truncated
      else Parsed(Reference(length, offset' + data[dist.next] as nat * 131072, dist.value), dist.next + 1)
  }

  /** A reference from after its run length on. */
  function ParseCodes(data: seq<byte>, p: nat, ctrl: byte, length: nat): (r: Parsed)
    requires p <= |data|
    ensures r.Parsed? ==> p < r.next <= |data| && r.token.Reference? && r.token.length == length
    ensures r.Parsed? ==> r.token.offset < 0x200_0000
  {
    if p + 2 > |data| then Truncated
    else ParseTail(data, p + 2, ctrl as nat / 16 % 2, data[p + 1], length, ctrl as nat % 16 + data[p] as nat * 16)
  }

  /** The token at `pos`; it always takes at least its control byte. */
  function ParseToken(data: seq<byte>, pos: nat): (r: Parsed)
    requires pos < |data|
    ensures r.Parsed? ==> pos < r.next <= |data|
    ensures r.Parsed? && r.token.Literal? ==> 1 <= r.token.count <= LZ_MAX_COPY
    ensures r.Parsed? && r.token.Reference? ==> 1 <= r.token.length && r.token.offset < 0x200_0000
  {
    var ctrl := data[pos];
    if ctrl as nat < LZ_MAX_COPY then Parsed(Literal(ctrl as nat + 1), pos + 1)
    else if ctrl / 32 == 7 then
      var length := ReadLength(data, pos + 1, 7);
      ParseCodes(data, length.next, ctrl, length.value)
    else ParseCodes(data, pos + 1, ctrl, ctrl as nat / 32)
  }

  // ----- The same, byte by byte

  method ScanLength(data: seq<byte>, start: nat, first: nat) returns (length: nat, p: nat)
    requires start <= |data|
    ensures Read(length, p) == ReadLength(data, start, first)
  {
    length, p := first, start;
    while true
      invariant start <= p <= |data|
      invariant ReadLength(data, p, length) == ReadLength(data, start, first)
      decreases |data| - p
    {
      if p >= |data| {
        return;
      }
      var b := data[p];
      p := p + 1;
      length := length + b;
      if b != 255 {
        return;
      }
    }
  }

  method ScanLe(data: seq<byte>, start: nat, count: nat, scale0: nat, acc: nat) returns (value: nat, p: nat)
    requires start <= |data|
    ensures Read(value, p) == ReadLe(data, start, count, scale0, acc)
  {
    value, p := acc, start;
    var scale := scale0;
    for i := 0 to count
      invariant start <= p <= |data|
      invariant ReadLe(data, p, count - i, scale, value) == ReadLe(data, start, count, scale0, acc)
    {
      if p >= |data| {
        return;
      }
      value := value + data[p] as nat * scale;
      p := p + 1;
      scale := scale * 256;
    }
  }

  /** Read the reference whose control byte is at `pos`, or find the stream truncated. */
  method ScanReference(data: seq<byte>, pos: nat) returns (r: Parsed)
    requires pos < |data| && data[pos] as nat >= LZ_MAX_COPY
    ensures r == ParseToken(data, pos)
  {
    var ctrl := data[pos];
    var p := pos + 1;
    var length: nat := ctrl / 32;
    var pixelFlag := ctrl as nat / 16 % 2;
    var offset: nat := ctrl % 16;
    if length == 7 {
      length, p := ScanLength(data, p, length);
    }
    if p >= |data| {
      return Truncated;
    }
    offset := offset + data[p] as nat * 16;
    p := p + 1;
    if p >= |data| {
      return Truncated;
    }
    var code2 := data[p];
    p := p + 1;
    var imageFlag: nat := code2 / 64;
    var dist: nat;
    if pixelFlag == 0 {
      dist, p := ScanLe(data, p, imageFlag, 64, code2 % 64);
    } else {
      var more := code2 as nat / 32 % 2;
      offset := offset + code2 as nat % 32 * 4096;
      dist, p := ScanLe(data, p, imageFlag, 1, 0);
      if more != 0 {
        if p >= |data| {
          return Truncated;
        }
        offset := offset + data[p] as nat * 131072;
        p := p + 1;
      }
    }
    return Parsed(Reference(length, offset, dist), p);
  }

  // ----- Header

  function FromBe(s: seq<byte>): nat {
    if s == [] then 0 else FromBe(s[..|s| - 1]) * 256 + s[|s| - 1] as nat
  }

  const HEADER_BYTES: nat := 33

  datatype Header = Header(topDown: bool, width: nat, height: nat, imageId: nat, winHeadDist: nat)

  datatype HeaderError = TooShort | BadMagic | BadVersion

  datatype HeaderResult = HeaderOk(header: Header) | HeaderErr(error: HeaderError)

  function ParseHeader(data: seq<byte>): (r: HeaderResult)
    ensures r.HeaderOk? ==> HEADER_BYTES <= |data|
  {
    if |data| < HEADER_BYTES then HeaderErr(TooShort)
    else if data[0..4] != [0x20, 0x20, 0x5A, 0x4C] then HeaderErr(BadMagic)
    else if FromBe(data[4..6]) != 1 then HeaderErr(BadVersion)
    else HeaderOk(Header(data[8] / 16 % 2 != 0, FromBe(data[9..13]), FromBe(data[13..17]),
                         FromBe(data[21..29]), FromBe(data[29..33])))
  }

  /** The header is the first 33 bytes. */
  lemma {:induction false} HeaderOnly(header: seq<byte>, rest: seq<byte>)
    requires |header| == HEADER_BYTES
    ensures ParseHeader(header + rest) == ParseHeader(header)
  {
    var data := header + rest;
    assert data[0..4] == header[0..4] && data[4..6] == header[4..6] && data[9..13] == header[9..13];
    assert data[13..17] == header[13..17] && data[21..29] == header[21..29] && data[29..33] == header[29..33];
  }

  lemma {:induction false} HeaderFields(a: seq<byte>, b: seq<byte>, c: seq<byte>, d: seq<byte>, e: seq<byte>,
                                        f: seq<byte>, g: seq<byte>, i: seq<byte>, j: seq<byte>)
    requires |a| == 4 && |b| == 2 && |c| == 2 && |d| == 1 && |e| == 4 && |f| == 4 && |g| == 4 && |i| == 8 && |j| == 4
    ensures var data := a + b + c + d + e + f + g + i + j;
            && data[0..4] == a && data[4..6] == b && data[8] == d[0] && data[9..13] == e && data[13..17] == f
            && data[21..29] == i && data[29..33] == j
  {
  }

  lemma {:induction false} BigEndian2(a: byte, b: byte)
    ensures FromBe([a, b]) == 256 * a + b
  {
    assert [a, b][..1] == [a] && [a][..0] == [];
    assert FromBe([a]) == FromBe([]) * 256 + a;
  }

  lemma {:induction false} BigEndian4(a: byte)
    ensures FromBe([0, 0, 0, a]) == a as nat
  {
    assert [0, 0, 0, a][..3] == [0, 0, 0] && [0, 0, 0][..2] == [0, 0] && [0, 0][..1] == [0] && [0][..0] == [];
    assert FromBe([0]) == 0;
    assert FromBe([0, 0]) == 0;
    assert FromBe([0, 0, 0]) == 0;
  }
}
