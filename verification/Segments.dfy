/** Splitting a message into TCP segments. Frames are records of ports, sequence numbers and
    payload; their byte encoding is not modelled, only its length. */
module Segments {
  import opened Bytes
  import opened Wire

  const MAX_PAYLOAD: nat := 65495
  const SERVER_PORT: nat := 5900
  const TWO_32: nat := 0x1_0000_0000
  const PCAP_SNAPLEN: nat := 262144

  datatype Frame =
    | Frame(srcPort: nat, dstPort: nat, seqNo: nat, ack: nat, payload: seq<byte>)
    | Oversize  // refused by the IPv4 size rule, written as no bytes at all

  /** Ethernet, IPv4 and TCP headers, then the payload. */
  function FrameLen(f: Frame): nat {
    if f.Oversize? then 0 else 14 + 20 + 20 + |f.payload|
  }

  function PayloadOf(f: Frame): seq<byte> {
    if f.Oversize? then [] else f.payload
  }

  function BuildTcpFrame(srcPort: nat, dstPort: nat, seqNo: nat, ack: nat, payload: seq<byte>): Frame {
    if 20 + |payload| > 65515 then Oversize else Frame(srcPort, dstPort, seqNo, ack, payload)
  }

  /** A frame holds at most 65495 bytes of payload. */
  lemma {:induction false} OversizeIff(srcPort: nat, dstPort: nat, seqNo: nat, ack: nat, payload: seq<byte>)
    ensures BuildTcpFrame(srcPort, dstPort, seqNo, ack, payload).Oversize? <==> |payload| > 65495
  {
  }

  function WrappingAdd(a: nat, b: nat): nat {
    (a + b % TWO_32) % TWO_32
  }

  lemma {:induction false} WrappingAddCounts(a: nat, b: nat)
    ensures WrappingAdd(a % TWO_32, b) == (a + b) % TWO_32
  {
  }

  /** The six recorded channels; any other name has no ring of its own. */
  datatype Channel = Main | Display | Inputs | Cursor | Usbredir | Playback | Other(name: string)

  function ChannelPort(channel: Channel): nat {
    match channel
    case Main => 10001
    case Display => 10002
    case Inputs => 10003
    case Cursor => 10004
    case Usbredir => 10009
    case _ => 10099
  }

  /** The segments of `data` from `offset` on. */
  function SegmentFrom(srcPort: nat, dstPort: nat, seqNo: nat, ack: nat, data: seq<byte>, offset: nat): seq<Frame>
    requires offset <= |data|
    decreases |data| - offset
  {
    if offset + MAX_PAYLOAD >= |data| then
      [BuildTcpFrame(srcPort, dstPort, WrappingAdd(seqNo, offset), ack, data[offset..])]
    else
      [BuildTcpFrame(srcPort, dstPort, WrappingAdd(seqNo, offset), ack, data[offset..offset + MAX_PAYLOAD])]
      + SegmentFrom(srcPort, dstPort, seqNo, ack, data, offset + MAX_PAYLOAD)
  }

  function Segment(srcPort: nat, dstPort: nat, seqNo: nat, ack: nat, data: seq<byte>): seq<Frame> {
    SegmentFrom(srcPort, dstPort, seqNo, ack, data, 0)
  }

  method SegmentPayload(srcPort: nat, dstPort: nat, seqNo: nat, ack: nat, data: seq<byte>) returns (frames: seq<Frame>)
    requires seqNo < TWO_32
    ensures frames == Segment(srcPort, dstPort, seqNo, ack, data)
  {
    frames := [];
    var offset := 0;
    while offset < |data|
      invariant 0 <= offset <= |data|
      invariant offset < |data| ==>
                  frames + SegmentFrom(srcPort, dstPort, seqNo, ack, data, offset)
                  == Segment(srcPort, dstPort, seqNo, ack, data)
      invariant offset == |data| && data != [] ==> frames == Segment(srcPort, dstPort, seqNo, ack, data)
      invariant frames == [] <==> offset == 0
    {
      var end := if offset + MAX_PAYLOAD < |data| then offset + MAX_PAYLOAD else |data|;
      var chunk := data[offset..end];
      assert end == |data| ==> chunk == data[offset..];
      frames := frames + [BuildTcpFrame(srcPort, dstPort, WrappingAdd(seqNo, offset), ack, chunk)];
      offset := end;
    }
    if frames == [] {
      assert data == data[0..];
      frames := [BuildTcpFrame(srcPort, dstPort, seqNo, ack, data)];
    }
  }

  function Joined(frames: seq<Frame>): seq<byte> {
    if frames == [] then [] else PayloadOf(frames[0]) + Joined(frames[1..])
  }

  /** What a run of segments of `data` from `offset` must be. */
  ghost predicate Carries(frames: seq<Frame>, srcPort: nat, dstPort: nat, seqNo: nat, ack: nat, data: seq<byte>,
                          offset: nat) {
    && |frames| >= 1
    && Joined(frames) == data
    && (forall i :: 0 <= i < |frames| ==>
                      && frames[i].Frame?
                      && frames[i].srcPort == srcPort && frames[i].dstPort == dstPort && frames[i].ack == ack
                      && frames[i].seqNo == (seqNo + offset + MAX_PAYLOAD * i) % TWO_32)
    && (forall i :: 0 <= i < |frames| - 1 ==> |PayloadOf(frames[i])| == MAX_PAYLOAD)
    && |PayloadOf(frames[|frames| - 1])| <= MAX_PAYLOAD
    && (data != [] ==> PayloadOf(frames[|frames| - 1]) != [])
  }

  lemma {:induction false} SegmentFromCarries(srcPort: nat, dstPort: nat, seqNo: nat, ack: nat, data: seq<byte>,
                                              offset: nat)
    requires offset <= |data|
    ensures Carries(SegmentFrom(srcPort, dstPort, seqNo, ack, data, offset),
                    srcPort, dstPort, seqNo, ack, data[offset..], offset)
    decreases |data| - offset
  {
    hide Carries, SegmentFrom;
    SegmentStep(srcPort, dstPort, seqNo, ack, data, offset);
    var next := offset + MAX_PAYLOAD;
    if next < |data| {
      SegmentFromCarries(srcPort, dstPort, seqNo, ack, data, next);
      var rest := SegmentFrom(srcPort, dstPort, seqNo, ack, data, next);
      var first := Frame(srcPort, dstPort, (seqNo + offset) % TWO_32, ack, data[offset..next]);
      assert data[offset..] == data[offset..next] + data[next..];
      CarriesOneMore(first, rest, srcPort, dstPort, seqNo, ack, data[offset..next], data[next..], offset);
    } else {
      CarriesOne(srcPort, dstPort, seqNo, ack, data[offset..], offset);
    }
  }

  /** One segment is never oversize, and its number is the base plus the offset. */
  lemma {:induction false} SegmentStep(srcPort: nat, dstPort: nat, seqNo: nat, ack: nat, data: seq<byte>, offset: nat)
    requires offset <= |data|
    ensures var next, at := offset + MAX_PAYLOAD, (seqNo + offset) % TWO_32;
            SegmentFrom(srcPort, dstPort, seqNo, ack, data, offset)
            == if next >= |data| then [Frame(srcPort, dstPort, at, ack, data[offset..])]
               else
                 [Frame(srcPort, dstPort, at, ack, data[offset..next])]
                 + SegmentFrom(srcPort, dstPort, seqNo, ack, data, next)
  {
    WrappingAddOnce(seqNo, offset);
  }

  lemma {:induction false} WrappingAddOnce(a: nat, b: nat)
    ensures WrappingAdd(a, b) == (a + b) % TWO_32
  {
  }

  lemma {:induction false} CarriesOne(srcPort: nat, dstPort: nat, seqNo: nat, ack: nat, chunk: seq<byte>, offset: nat)
    requires |chunk| <= MAX_PAYLOAD
    ensures Carries([Frame(srcPort, dstPort, (seqNo + offset) % TWO_32, ack, chunk)],
                    srcPort, dstPort, seqNo, ack, chunk, offset)
  {
    var frames := [Frame(srcPort, dstPort, (seqNo + offset) % TWO_32, ack, chunk)];
    assert frames[1..] == [];
    assert Joined(frames) == chunk;
  }

  lemma {:induction false} CarriesOneMore(f: Frame, rest: seq<Frame>, srcPort: nat, dstPort: nat, seqNo: nat, ack: nat,
                                          chunk: seq<byte>, more: seq<byte>, offset: nat)
    requires |chunk| == MAX_PAYLOAD && more != []
    requires f == Frame(srcPort, dstPort, (seqNo + offset) % TWO_32, ack, chunk)
    requires Carries(rest, srcPort, dstPort, seqNo, ack, more, offset + MAX_PAYLOAD)
    ensures Carries([f] + rest, srcPort, dstPort, seqNo, ack, chunk + more, offset)
  {
    var frames := [f] + rest;
    assert frames[1..] == rest;
    forall i | 0 < i < |frames|
      ensures frames[i] == rest[i - 1]
      ensures seqNo + offset + MAX_PAYLOAD + MAX_PAYLOAD * (i - 1) == seqNo + offset + MAX_PAYLOAD * i
    {
    }
  }

  /** A message's segments join back to it, are full except perhaps the last, never reach the
      oversize rule, fit a pcap packet, and carry the message's sequence numbers modulo 2^32. */
  lemma {:induction false} SegmentCarries(srcPort: nat, dstPort: nat, seqNo: nat, ack: nat, data: seq<byte>)
    ensures Carries(Segment(srcPort, dstPort, seqNo, ack, data), srcPort, dstPort, seqNo, ack, data, 0)
    ensures forall f :: f in Segment(srcPort, dstPort, seqNo, ack, data) ==> 54 <= FrameLen(f) <= PCAP_SNAPLEN
  {
    SegmentFromCarries(srcPort, dstPort, seqNo, ack, data, 0);
    assert data[0..] == data;
  }

  /** How many segments `n` bytes take. */
  function SegmentsIn(n: nat): nat {
    if n == 0 then 1 else (n + 65494) / 65495
  }

  /** The number of segments from `offset` on, and which bytes each holds. */
  lemma {:induction false} SegmentFromAt(srcPort: nat, dstPort: nat, seqNo: nat, ack: nat, data: seq<byte>, offset: nat,
                                         i: nat)
    requires offset < |data| || offset == 0
    ensures offset <= |data|
    ensures |SegmentFrom(srcPort, dstPort, seqNo, ack, data, offset)| == SegmentsIn(|data| - offset)
    ensures i < SegmentsIn(|data| - offset) ==>
              var from, to := offset + 65495 * i, offset + 65495 * (i + 1);
              && from <= |data|
              && SegmentFrom(srcPort, dstPort, seqNo, ack, data, offset)[i]
                 == Frame(srcPort, dstPort, (seqNo + from) % 4294967296, ack,
                          if to <= |data| then data[from..to] else data[from..])
    decreases |data| - offset
  {
    hide SegmentFrom;
    SegmentStep(srcPort, dstPort, seqNo, ack, data, offset);
    var next := offset + 65495;
    if next < |data| {
      SegmentFromAt(srcPort, dstPort, seqNo, ack, data, next, if i > 0 then i - 1 else 0);
    } else if next == |data| {
      assert data[offset..next] == data[offset..];
    }
  }

  /** A message of `n` bytes takes one segment for every 65495 of them, and at least one; the i-th
      holds its i-th 65495 bytes. */
  lemma {:induction false} SegmentAt(srcPort: nat, dstPort: nat, seqNo: nat, ack: nat, data: seq<byte>, i: nat)
    ensures |Segment(srcPort, dstPort, seqNo, ack, data)| == if |data| == 0 then 1 else (|data| + 65494) / 65495
    ensures i < |Segment(srcPort, dstPort, seqNo, ack, data)| ==>
              && 65495 * i <= |data|
              && Segment(srcPort, dstPort, seqNo, ack, data)[i]
                 == Frame(srcPort, dstPort, (seqNo + 65495 * i) % 4294967296, ack,
                          if 65495 * (i + 1) <= |data| then data[65495 * i..65495 * (i + 1)] else data[65495 * i..])
  {
    hide SegmentFrom;
    SegmentFromAt(srcPort, dstPort, seqNo, ack, data, 0, i);
  }

  lemma {:induction false} JoinedConcat(a: seq<Frame>, b: seq<Frame>)
    ensures Joined(a + b) == Joined(a) + Joined(b)
  {
    if a == [] {
      assert a + b == b;
    } else {
      assert (a + b)[1..] == a[1..] + b;
      JoinedConcat(a[1..], b);
    }
  }

  // ----- One channel's two directions

  /** Where each direction of a connection has got to. */
  datatype Ends = Ends(clientSeq: nat, serverSeq: nat)

  const FIRST_ENDS := Ends(1000, 2000)

  function SrcPort(channel: Channel, sent: bool): nat {
    if sent then ChannelPort(channel) else SERVER_PORT
  }

  function DstPort(channel: Channel, sent: bool): nat {
    if sent then SERVER_PORT else ChannelPort(channel)
  }

  function FramesFor(channel: Channel, sent: bool, ends: Ends, data: seq<byte>): seq<Frame> {
    if sent then Segment(ChannelPort(channel), SERVER_PORT, ends.clientSeq, ends.serverSeq, data)
    else Segment(SERVER_PORT, ChannelPort(channel), ends.serverSeq, ends.clientSeq, data)
  }

  function Advance(ends: Ends, sent: bool, data: seq<byte>): Ends {
    if sent then ends.(clientSeq := WrappingAdd(ends.clientSeq, |data|))
    else ends.(serverSeq := WrappingAdd(ends.serverSeq, |data|))
  }

  lemma {:induction false} FramesForCarries(channel: Channel, sent: bool, ends: Ends, data: seq<byte>)
    ensures Carries(FramesFor(channel, sent, ends, data), SrcPort(channel, sent), DstPort(channel, sent),
                    if sent then ends.clientSeq else ends.serverSeq,
                    if sent then ends.serverSeq else ends.clientSeq, data, 0)
    ensures |FramesFor(channel, sent, ends, data)| >= 1
    ensures forall f :: f in FramesFor(channel, sent, ends, data) ==> 54 <= FrameLen(f) <= PCAP_SNAPLEN
  {
    if sent {
      SegmentCarries(ChannelPort(channel), SERVER_PORT, ends.clientSeq, ends.serverSeq, data);
    } else {
      SegmentCarries(SERVER_PORT, ChannelPort(channel), ends.serverSeq, ends.clientSeq, data);
    }
  }
}
