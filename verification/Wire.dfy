/** SPICE mini-header messages as bytes, and the inspector's walk over a byte stream. */
module Wire {
  import opened Sequences
  import opened Bytes

  datatype Message = Message(kind: nat, body: seq<byte>)

  predicate WellFormed(m: Message) {
    m.kind < 0x1_0000 && |m.body| < 0x1_0000_0000
  }

  function Le16(n: nat): (s: seq<byte>)
    requires n < 0x1_0000
    ensures |s| == 2
  {
    [n % 256, n / 256]
  }

  function Le32(n: nat): (s: seq<byte>)
    requires n < 0x1_0000_0000
    ensures |s| == 4
  {
    [n % 256, n / 256 % 256, n / 65536 % 256, n / 16777216]
  }

  function FromLe16(s: seq<byte>): nat
    requires |s| == 2
  {
    s[0] as int + 256 * s[1] as int
  }

  function FromLe32(s: seq<byte>): nat
    requires |s| == 4
  {
    s[0] as int + 256 * s[1] as int + 65536 * s[2] as int + 16777216 * s[3] as int
  }

  /** A message on the wire: type, body length, body. */
  function Encode(m: Message): (s: seq<byte>)
    requires WellFormed(m)
    ensures |s| == 6 + |m.body|
  {
    Le16(m.kind) + Le32(|m.body|) + m.body
  }

  function EncodeAll(ms: seq<Message>): seq<byte>
    requires forall m :: m in ms ==> WellFormed(m)
  {
    if ms == [] then [] else Encode(ms[0]) + EncodeAll(ms[1..])
  }

  function KindAt(buf: seq<byte>): nat
    requires |buf| >= 6
  {
    FromLe16(buf[0..2])
  }

  function SizeAt(buf: seq<byte>): nat
    requires |buf| >= 6
  {
    FromLe32(buf[2..6])
  }

  /** The whole messages at the front of `buf`, up to the first truncated one. */
  function Parse(buf: seq<byte>): seq<Message> {
    if |buf| < 6 || 6 + SizeAt(buf) > |buf| then []
    else [Message(KindAt(buf), buf[6..6 + SizeAt(buf)])] + Parse(buf[6 + SizeAt(buf)..])
  }

  lemma {:induction false} Le16RoundTrip(n: nat)
    requires n < 0x1_0000
    ensures FromLe16(Le16(n)) == n
  {
  }

  lemma {:induction false} Le32RoundTrip(n: nat)
    requires n < 0x1_0000_0000
    ensures FromLe32(Le32(n)) == n
  {
    var a := n / 256;
    var b := a / 256;
    assert n / 65536 == b;
    assert n / 16777216 == b / 256;
  }

  lemma {:induction false} HeaderSlices(a: seq<byte>, b: seq<byte>, c: seq<byte>, rest: seq<byte>)
    requires |a| == 2 && |b| == 4
    ensures var buf := a + b + c + rest;
            && buf[0..2] == a && buf[2..6] == b && buf[6..6 + |c|] == c && buf[6 + |c|..] == rest
  {
  }

  lemma {:induction false} LeRoundTrip(m: Message, rest: seq<byte>)
    requires WellFormed(m)
    ensures KindAt(Encode(m) + rest) == m.kind
    ensures SizeAt(Encode(m) + rest) == |m.body|
    ensures (Encode(m) + rest)[6..6 + |m.body|] == m.body
    ensures (Encode(m) + rest)[6 + |m.body|..] == rest
  {
    HeaderSlices(Le16(m.kind), Le32(|m.body|), m.body, rest);
    Le16RoundTrip(m.kind);
    Le32RoundTrip(|m.body|);
  }

  lemma {:induction false} ParseTorn(torn: seq<byte>, next: Message)
    requires WellFormed(next) && torn <= Encode(next) && torn != Encode(next)
    ensures Parse(torn) == []
  {
    if |torn| >= 6 {
      hide Encode, FromLe32, Parse;
      LeRoundTrip(next, []);
      assert Encode(next) + [] == Encode(next);
      assert torn[2..6] == Encode(next)[2..6];
      ParseTruncated(torn);
    }
  }

  lemma {:induction false} ParseTruncated(buf: seq<byte>)
    requires |buf| >= 6 && 6 + SizeAt(buf) > |buf|
    ensures Parse(buf) == []
  {
  }

  lemma {:induction false} ParseOne(m: Message, rest: seq<byte>)
    requires WellFormed(m)
    ensures Parse(Encode(m) + rest) == [m] + Parse(rest)
  {
    hide Encode, KindAt, SizeAt;
    LeRoundTrip(m, rest);
  }

  lemma {:induction false} EncodeAllCons(ms: seq<Message>)
    requires ms != [] && forall m :: m in ms ==> WellFormed(m)
    ensures EncodeAll(ms) == Encode(ms[0]) + EncodeAll(ms[1..])
  {
  }

  /** Parsing inverts encoding, and a torn message at the end adds nothing. */
  lemma {:induction false} ParseEncodeAll(ms: seq<Message>, torn: seq<byte>, next: Message)
    requires forall m :: m in ms ==> WellFormed(m)
    requires WellFormed(next) && torn <= Encode(next) && torn != Encode(next)
    ensures Parse(EncodeAll(ms) + torn) == ms
  {
    if ms == [] {
      assert EncodeAll(ms) + torn == torn;
      ParseTorn(torn, next);
    } else {
      hide Parse, Encode, EncodeAll;
      EncodeAllCons(ms);
      Associative(Encode(ms[0]), EncodeAll(ms[1..]), torn);
      ParseOne(ms[0], EncodeAll(ms[1..]) + torn);
      ParseEncodeAll(ms[1..], torn, next);
      assert ms == [ms[0]] + ms[1..];
    }
  }

  lemma {:induction false} EncodeAllConcat(a: seq<Message>, b: seq<Message>)
    requires forall m :: m in a || m in b ==> WellFormed(m)
    ensures EncodeAll(a + b) == EncodeAll(a) + EncodeAll(b)
  {
    if a == [] {
      assert a + b == b;
    } else {
      assert (a + b)[1..] == a[1..] + b;
      EncodeAllConcat(a[1..], b);
    }
  }

  /** Two messages and the start of a third, byte for byte. */
  lemma {:induction false} ParsedBytes()
    ensures Parse([0x02, 0x01, 3, 0, 0, 0, 7, 8, 9] + [4, 0, 0, 0, 0, 0] + [5, 0, 1])
            == [Message(0x102, [7, 8, 9]), Message(4, [])]
  {
    var a: seq<byte>, b: seq<byte>, c: seq<byte> := [0x02, 0x01, 3, 0, 0, 0, 7, 8, 9], [4, 0, 0, 0, 0, 0], [5, 0, 1];
    var all, rest := a + b + c, b + c;
    assert all[0] == a[0] && all[1] == a[1] && all[2] == a[2] && all[3] == a[3] && all[4] == a[4] && all[5] == a[5];
    assert KindAt(all) == 0x102 && SizeAt(all) == 3;
    assert all[6..9] == [7, 8, 9] && all[9..] == rest;
    assert rest[0] == b[0] && rest[1] == b[1] && rest[2] == b[2] && rest[3] == b[3] && rest[4] == b[4];
    assert rest[5] == b[5];
    assert KindAt(rest) == 4 && SizeAt(rest) == 0;
    assert rest[6..6] == [] && rest[6..] == c;
    assert Parse(c) == [];
    assert Parse(rest) == [Message(4, [])] + Parse(c);
    assert Parse(all) == [Message(0x102, [7, 8, 9])] + Parse(rest);
  }

  /** One message found in a buffer: where it starts, its type and size, where it ends. */
  datatype Found = Found(offset: nat, kind: nat, size: nat, end: nat)

  function EndOf(found: seq<Found>): nat {
    if found == [] then 0 else found[|found| - 1].end
  }

  /** The records follow each other from the start of the buffer without gaps. */
  ghost predicate Tiles(buf: seq<byte>, found: seq<Found>) {
    forall i :: 0 <= i < |found| ==>
                  && found[i].offset == EndOf(found[..i])
                  && found[i].offset + 6 + found[i].size == found[i].end <= |buf|
  }

  function Extract(buf: seq<byte>, found: seq<Found>): seq<Message>
    requires forall i :: 0 <= i < |found| ==> found[i].offset + 6 <= found[i].end <= |buf|
  {
    seq(|found|, i requires 0 <= i < |found| => Message(found[i].kind, buf[found[i].offset + 6..found[i].end]))
  }

  lemma {:induction false} ExtractPush(buf: seq<byte>, found: seq<Found>, f: Found)
    requires forall i :: 0 <= i < |found| ==> found[i].offset + 6 <= found[i].end <= |buf|
    requires f.offset + 6 <= f.end <= |buf|
    ensures Extract(buf, found + [f]) == Extract(buf, found) + [Message(f.kind, buf[f.offset + 6..f.end])]
  {
  }

  lemma {:induction false} ParseAt(buf: seq<byte>, i: nat)
    requires i + 6 <= |buf|
    ensures var kind, size := FromLe16(buf[i..i + 2]), FromLe32(buf[i + 2..i + 6]);
            Parse(buf[i..]) == if i + 6 + size > |buf| then []
                               else [Message(kind, buf[i + 6..i + 6 + size])] + Parse(buf[i + 6 + size..])
  {
    var tail := buf[i..];
    assert tail[0..2] == buf[i..i + 2] && tail[2..6] == buf[i + 2..i + 6];
    var size := SizeAt(tail);
    if 6 + size <= |tail| {
      assert tail[6..6 + size] == buf[i + 6..i + 6 + size];
      assert tail[6 + size..] == buf[i + 6 + size..];
    }
  }

  ghost predicate Walked(buf: seq<byte>, found: seq<Found>, i: nat) {
    && i == EndOf(found) <= |buf|
    && Tiles(buf, found)
    && Extract(buf, found) + Parse(buf[i..]) == Parse(buf)
  }

  lemma {:induction false} TilesPush(buf: seq<byte>, found: seq<Found>, f: Found)
    requires Tiles(buf, found) && f.offset == EndOf(found) && f.offset + 6 + f.size == f.end <= |buf|
    ensures Tiles(buf, found + [f])
  {
    forall i | 0 <= i < |found + [f]| ensures EndOf((found + [f])[..i]) == EndOf(found[..i]) {
      assert (found + [f])[..i] == found[..i];
    }
    assert found[..|found|] == found;
  }

  lemma {:induction false} TilesInside(buf: seq<byte>, found: seq<Found>)
    requires Tiles(buf, found)
    ensures forall i :: 0 <= i < |found| ==> found[i].offset + 6 <= found[i].end <= |buf|
  {
  }

  lemma {:induction false} WalkOne(buf: seq<byte>, found: seq<Found>, i: nat)
    requires Walked(buf, found, i) && i + 6 <= |buf|
    requires i + 6 + FromLe32(buf[i + 2..i + 6]) <= |buf|
    ensures var size := FromLe32(buf[i + 2..i + 6]);
            Walked(buf, found + [Found(i, FromLe16(buf[i..i + 2]), size, i + 6 + size)], i + 6 + size)
  {
    hide Parse, FromLe16, FromLe32, Tiles, Extract;
    TilesInside(buf, found);
    var kind, size := FromLe16(buf[i..i + 2]), FromLe32(buf[i + 2..i + 6]);
    var f := Found(i, kind, size, i + 6 + size);
    var m, rest := Message(kind, buf[i + 6..i + 6 + size]), Parse(buf[i + 6 + size..]);
    TilesPush(buf, found, f);
    ParseAt(buf, i);
    ExtractPush(buf, found, f);
    assert Extract(buf, found) + ([m] + rest) == Extract(buf, found) + [m] + rest;
  }

  lemma {:induction false} WalkStart(buf: seq<byte>)
    ensures Walked(buf, [], 0)
  {
    assert buf[0..] == buf;
  }

  lemma {:induction false} WalkEnd(buf: seq<byte>, found: seq<Found>, i: nat)
    requires Walked(buf, found, i)
    requires i + 6 > |buf| || i + 6 + FromLe32(buf[i + 2..i + 6]) > |buf|
    ensures Tiles(buf, found) && Extract(buf, found) == Parse(buf)
  {
    if i + 6 <= |buf| { ParseAt(buf, i); }
  }

  /** Walk the messages of a buffer, stopping at the first truncated record. */
  method IterMessages(buf: seq<byte>) returns (found: seq<Found>)
    ensures Tiles(buf, found)
    ensures Extract(buf, found) == Parse(buf)
  {
    hide Walked, Tiles, Parse;
    found := [];
    var i := 0;
    WalkStart(buf);
    while i + 6 <= |buf|
      invariant 0 <= i <= |buf| && Walked(buf, found, i)
      decreases |buf| - i
    {
      var kind := FromLe16(buf[i..i + 2]);
      var size := FromLe32(buf[i + 2..i + 6]);
      if i + 6 + size > |buf| {
        WalkEnd(buf, found, i);
        return;
      }
      WalkOne(buf, found, i);
      found := found + [Found(i, kind, size, i + 6 + size)];
      i := i + 6 + size;
    }
    WalkEnd(buf, found, i);
  }
}
