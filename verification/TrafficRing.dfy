/** One channel's recorded traffic: the live pcap writer and the byte-capped ring buffer. */
module TrafficRing {
  import opened Bytes
  import opened Wire
  import opened Segments

  /** One recorded message, as the channel handed it over. */
  datatype Record = Record(sent: bool, at: nat, data: seq<byte>)

  /** One ring entry: a message's first frame and any further segments. */
  datatype Entry = Entry(sent: bool, at: nat, first: Frame, more: seq<Frame>)

  /** One pcap packet. */
  datatype Packet = Packet(at: nat, frame: Frame)

  function SumLen(frames: seq<Frame>): nat {
    if frames == [] then 0 else FrameLen(frames[0]) + SumLen(frames[1..])
  }

  function EntryBytes(e: Entry): nat {
    FrameLen(e.first) + SumLen(e.more)
  }

  function RingBytes(s: seq<Entry>): nat {
    if s == [] then 0 else EntryBytes(s[0]) + RingBytes(s[1..])
  }

  // ----- History

  function EndsAfter(history: seq<Record>): Ends {
    if history == [] then FIRST_ENDS
    else
      var r := history[|history| - 1];
      Advance(EndsAfter(history[..|history| - 1]), r.sent, r.data)
  }

  function EntryFor(channel: Channel, ends: Ends, r: Record): Entry {
    var frames := FramesFor(channel, r.sent, ends, r.data);
    FramesForCarries(channel, r.sent, ends, r.data);
    Entry(r.sent, r.at, frames[0], frames[1..])
  }

  /** Every entry a channel's recorded messages ever produced. */
  function EntriesOf(channel: Channel, history: seq<Record>): (es: seq<Entry>)
    ensures |es| == |history|
  {
    if history == [] then []
    else
      EntriesOf(channel, history[..|history| - 1])
      + [EntryFor(channel, EndsAfter(history[..|history| - 1]), history[|history| - 1])]
  }

  function BytesIn(history: seq<Record>, sent: bool): nat {
    if history == [] then 0
    else
      var r := history[|history| - 1];
      BytesIn(history[..|history| - 1], sent) + (if r.sent == sent then |r.data| else 0)
  }

  /** Each direction's sequence number counts that direction's bytes modulo 2^32, however the
      two directions interleave. */
  lemma {:induction false} SequenceNumbersCountBytes(history: seq<Record>)
    ensures EndsAfter(history).clientSeq == (1000 + BytesIn(history, true)) % TWO_32
    ensures EndsAfter(history).serverSeq == (2000 + BytesIn(history, false)) % TWO_32
  {
    if history != [] {
      var init := history[..|history| - 1];
      SequenceNumbersCountBytes(init);
      WrappingAddCounts(1000 + BytesIn(init, true), |history[|init|].data|);
      WrappingAddCounts(2000 + BytesIn(init, false), |history[|init|].data|);
    }
  }

  lemma {:induction false} EntryAt(channel: Channel, history: seq<Record>, i: nat)
    requires i < |history|
    ensures EntriesOf(channel, history)[i] == EntryFor(channel, EndsAfter(history[..i]), history[i])
  {
    var init := history[..|history| - 1];
    if i < |init| {
      EntryAt(channel, init, i);
      assert init[..i] == history[..i];
    }
  }

  lemma {:induction false} EntryForCarries(channel: Channel, ends: Ends, r: Record, seqNo: nat, ack: nat)
    requires seqNo == if r.sent then ends.clientSeq else ends.serverSeq
    requires ack == if r.sent then ends.serverSeq else ends.clientSeq
    ensures var e := EntryFor(channel, ends, r);
            && e.sent == r.sent && e.at == r.at
            && Carries([e.first] + e.more, SrcPort(channel, r.sent), DstPort(channel, r.sent), seqNo, ack, r.data, 0)
  {
    var frames := FramesFor(channel, r.sent, ends, r.data);
    FramesForCarries(channel, r.sent, ends, r.data);
    assert [frames[0]] + frames[1..] == frames;
  }

  /** The sequence number direction `sent` has reached, from the bytes it has carried. */
  function SeqReached(history: seq<Record>, sent: bool): nat {
    ((if sent then 1000 else 2000) + BytesIn(history, sent)) % TWO_32
  }

  /** Entry `i` of a channel's history carries the message it was recorded from, numbered from
      the bytes its direction had carried before. */
  lemma {:induction false} EntryCarriesRecord(channel: Channel, history: seq<Record>, i: nat)
    requires i < |history|
    ensures var r, e := history[i], EntriesOf(channel, history)[i];
            && e.sent == r.sent && e.at == r.at
            && Carries([e.first] + e.more, SrcPort(channel, r.sent), DstPort(channel, r.sent),
                       SeqReached(history[..i], r.sent), SeqReached(history[..i], !r.sent), r.data, 0)
  {
    EntryAt(channel, history, i);
    SequenceNumbersCountBytes(history[..i]);
    var r := history[i];
    EntryForCarries(channel, EndsAfter(history[..i]), r,
                    SeqReached(history[..i], r.sent), SeqReached(history[..i], !r.sent));
  }

  lemma {:induction false} SegmentsSize(srcPort: nat, dstPort: nat, seqNo: nat, ack: nat, data: seq<byte>, offset: nat)
    requires offset < |data| || offset == 0
    ensures offset <= |data|
    ensures SumLen(SegmentFrom(srcPort, dstPort, seqNo, ack, data, offset))
            == 54 * SegmentsIn(|data| - offset) + (|data| - offset)
    decreases |data| - offset
  {
    hide SegmentFrom;
    SegmentStep(srcPort, dstPort, seqNo, ack, data, offset);
    var next := offset + 65495;
    var frames := SegmentFrom(srcPort, dstPort, seqNo, ack, data, offset);
    if next < |data| {
      SegmentsSize(srcPort, dstPort, seqNo, ack, data, next);
      assert frames[1..] == SegmentFrom(srcPort, dstPort, seqNo, ack, data, next);
    } else {
      assert frames[1..] == [];
    }
  }

  /** An entry counts 54 bytes of headers for each segment, and its message. */
  lemma {:induction false} EntrySize(channel: Channel, ends: Ends, r: Record)
    ensures EntryBytes(EntryFor(channel, ends, r))
            == 54 * (if |r.data| == 0 then 1 else (|r.data| + 65494) / 65495) + |r.data|
  {
    hide SegmentFrom;
    SegmentsSize(SrcPort(channel, r.sent), DstPort(channel, r.sent),
                 if r.sent then ends.clientSeq else ends.serverSeq,
                 if r.sent then ends.serverSeq else ends.clientSeq, r.data, 0);
    FramesForCarries(channel, r.sent, ends, r.data);
  }

  // ----- The byte cap

  /** Drop entries from the front until the rest fit. */
  function Retained(s: seq<Entry>, cap: nat): seq<Entry> {
    if RingBytes(s) <= cap then s else Retained(s[1..], cap)
  }

  /** What is retained is the longest suffix that fits. */
  lemma {:induction false} RetainedIsLongestSuffix(s: seq<Entry>, cap: nat) returns (k: nat)
    ensures k <= |s| && Retained(s, cap) == s[k..]
    ensures RingBytes(s[k..]) <= cap
    ensures forall j :: 0 <= j < k ==> RingBytes(s[j..]) > cap
  {
    if RingBytes(s) <= cap {
      k := 0;
      assert s[0..] == s;
    } else {
      var k' := RetainedIsLongestSuffix(s[1..], cap);
      k := k' + 1;
      assert s[1..][k'..] == s[k..];
      forall j | 0 <= j < k ensures RingBytes(s[j..]) > cap {
        if j == 0 {
          assert s[0..] == s;
        } else {
          assert s[1..][j - 1..] == s[j..];
        }
      }
    }
  }

  lemma {:induction false} RingBytesConcat(a: seq<Entry>, b: seq<Entry>)
    ensures RingBytes(a + b) == RingBytes(a) + RingBytes(b)
  {
    if a == [] {
      assert a + b == b;
    } else {
      assert (a + b)[1..] == a[1..] + b;
      RingBytesConcat(a[1..], b);
    }
  }

  /** Evicting early loses nothing: trimming before a push and after it gives what trimming
      once at the end would. */
  lemma {:induction false} RetainedPush(s: seq<Entry>, e: Entry, cap: nat)
    ensures Retained(Retained(s, cap) + [e], cap) == Retained(s + [e], cap)
  {
    if RingBytes(s) > cap {
      RingBytesConcat(s, [e]);
      assert (s + [e])[1..] == s[1..] + [e];
      RetainedPush(s[1..], e, cap);
    }
  }

  lemma {:induction false} EntriesPush(channel: Channel, history: seq<Record>, r: Record)
    ensures EndsAfter(history).clientSeq < TWO_32 && EndsAfter(history).serverSeq < TWO_32
    ensures |FramesFor(channel, r.sent, EndsAfter(history), r.data)| >= 1
    ensures var frames := FramesFor(channel, r.sent, EndsAfter(history), r.data);
            EntriesOf(channel, history + [r])
            == EntriesOf(channel, history) + [Entry(r.sent, r.at, frames[0], frames[1..])]
    ensures EndsAfter(history + [r]) == Advance(EndsAfter(history), r.sent, r.data)
  {
    hide Carries;
    SequenceNumbersCountBytes(history);
    FramesForCarries(channel, r.sent, EndsAfter(history), r.data);
    assert (history + [r])[..|history|] == history;
  }

  class TrafficRingBuffer {
    const channel: Channel
    const maxBytes: nat
    var entries: seq<Entry>
    var totalBytes: nat
    var clientSeq: nat
    var serverSeq: nat
    ghost var history: seq<Record>

    /** The ring is a function of everything ever recorded on its channel. */
    ghost predicate Valid()
      reads this
    {
      && entries == Retained(EntriesOf(channel, history), maxBytes)
      && totalBytes == RingBytes(entries)
      && Ends(clientSeq, serverSeq) == EndsAfter(history)
    }

    constructor (channel: Channel, maxBytes: nat)
      ensures Valid() && history == [] && this.channel == channel && this.maxBytes == maxBytes
    {
      this.channel := channel;
      this.maxBytes := maxBytes;
      entries, totalBytes, clientSeq, serverSeq, history := [], 0, 1000, 2000, [];
    }

    method Push(entry: Entry)
      requires totalBytes == RingBytes(entries)
      modifies this`entries, this`totalBytes
      ensures entries == Retained(old(entries) + [entry], maxBytes)
      ensures totalBytes == RingBytes(entries)
    {
      RingBytesConcat(entries, [entry]);
      totalBytes := totalBytes + EntryBytes(entry);
      entries := entries + [entry];
      while totalBytes > maxBytes
        invariant totalBytes == RingBytes(entries)
        invariant Retained(entries, maxBytes) == Retained(old(entries) + [entry], maxBytes)
        decreases |entries|
      {
        if entries != [] {
          totalBytes := totalBytes - EntryBytes(entries[0]);
          entries := entries[1..];
        } else {
          break;
        }
      }
    }

    method BuildSegmentedFrames(sent: bool, data: seq<byte>) returns (frames: seq<Frame>)
      requires clientSeq < TWO_32 && serverSeq < TWO_32
      modifies this`clientSeq, this`serverSeq
      ensures frames == FramesFor(channel, sent, old(Ends(clientSeq, serverSeq)), data)
      ensures Ends(clientSeq, serverSeq) == Advance(old(Ends(clientSeq, serverSeq)), sent, data)
    {
      var port := ChannelPort(channel);
      if sent {
        var s, a := clientSeq, serverSeq;
        clientSeq := WrappingAdd(clientSeq, |data|);
        frames := SegmentPayload(port, SERVER_PORT, s, a, data);
      } else {
        var s, a := serverSeq, clientSeq;
        serverSeq := WrappingAdd(serverSeq, |data|);
        frames := SegmentPayload(SERVER_PORT, port, s, a, data);
      }
    }

    /** Record one message in either direction. */
    method RecordMessage(sent: bool, at: nat, data: seq<byte>)
      requires Valid()
      modifies this
      ensures Valid()
      ensures history == old(history) + [Record(sent, at, data)]
    {
      hide Retained, EntriesOf, EndsAfter, Carries, FramesFor, RingBytes;
      EntriesPush(channel, history, Record(sent, at, data));
      var frames := BuildSegmentedFrames(sent, data);
      var entry := Entry(sent, at, frames[0], frames[1..]);
      RetainedPush(EntriesOf(channel, history), entry, maxBytes);
      Push(entry);
      history := history + [Record(sent, at, data)];
    }
  }

  // ----- The live capture writer

  /** A ring entry's packets: all its segments at its one timestamp. */
  function PacketsOf(e: Entry): seq<Packet> {
    Stamped(e.at, [e.first] + e.more)
  }

  function Stamped(at: nat, frames: seq<Frame>): (ps: seq<Packet>)
    ensures |ps| == |frames|
  {
    seq(|frames|, i requires 0 <= i < |frames| => Packet(at, frames[i]))
  }

  lemma {:induction false} StampedPush(at: nat, frames: seq<Frame>, i: nat)
    requires i < |frames|
    ensures Stamped(at, frames[..i + 1]) == Stamped(at, frames[..i]) + [Packet(at, frames[i])]
  {
  }

  function Flatten(es: seq<Entry>): seq<Packet> {
    if es == [] then [] else Flatten(es[..|es| - 1]) + PacketsOf(es[|es| - 1])
  }

  class PcapChannelWriter {
    const channel: Channel
    var clientSeq: nat
    var serverSeq: nat
    var written: seq<Packet>
    var refusedFrames: nat
    ghost var history: seq<Record>

    /** Everything recorded has been written, and nothing was refused. */
    ghost predicate Valid()
      reads this
    {
      && written == Flatten(EntriesOf(channel, history))
      && refusedFrames == 0
      && Ends(clientSeq, serverSeq) == EndsAfter(history)
    }

    constructor (channel: Channel)
      ensures Valid() && history == [] && this.channel == channel
    {
      this.channel := channel;
      clientSeq, serverSeq, written, refusedFrames, history := 1000, 2000, [], 0, [];
    }

    method WriteFrame(frame: Frame, elapsed: nat)
      modifies this`written, this`refusedFrames
      ensures FrameLen(frame) <= PCAP_SNAPLEN ==>
                written == old(written) + [Packet(elapsed, frame)] && refusedFrames == old(refusedFrames)
      ensures FrameLen(frame) > PCAP_SNAPLEN ==>
                written == old(written) && refusedFrames == old(refusedFrames) + 1
    {
      if FrameLen(frame) > PCAP_SNAPLEN {
        refusedFrames := refusedFrames + 1;
      } else {
        written := written + [Packet(elapsed, frame)];
      }
    }

    method WriteSegmented(sent: bool, data: seq<byte>, elapsed: nat)
      requires clientSeq < TWO_32 && serverSeq < TWO_32
      modifies this`written, this`refusedFrames
      ensures written == old(written) + Stamped(elapsed, FramesFor(channel, sent, Ends(clientSeq, serverSeq), data))
      ensures refusedFrames == old(refusedFrames)
    {
      var frames := SegmentPayload(SrcPort(channel, sent), DstPort(channel, sent),
                                   if sent then clientSeq else serverSeq,
                                   if sent then serverSeq else clientSeq, data);
      FramesForCarries(channel, sent, Ends(clientSeq, serverSeq), data);
      for i := 0 to |frames|
        invariant written == old(written) + Stamped(elapsed, frames[..i])
        invariant refusedFrames == old(refusedFrames)
      {
        assert frames[i] in frames;
        WriteFrame(frames[i], elapsed);
        StampedPush(elapsed, frames, i);
      }
      assert frames[..|frames|] == frames;
    }

    method WriteSent(data: seq<byte>, elapsed: nat)
      requires Valid()
      modifies this
      ensures Valid() && history == old(history) + [Record(true, elapsed, data)]
    {
      SequenceNumbersCountBytes(history);
      WriteSegmented(true, data, elapsed);
      FlattenPush(channel, history, Record(true, elapsed, data));
      clientSeq := WrappingAdd(clientSeq, |data|);
      history := history + [Record(true, elapsed, data)];
    }

    method WriteReceived(data: seq<byte>, elapsed: nat)
      requires Valid()
      modifies this
      ensures Valid() && history == old(history) + [Record(false, elapsed, data)]
    {
      SequenceNumbersCountBytes(history);
      WriteSegmented(false, data, elapsed);
      FlattenPush(channel, history, Record(false, elapsed, data));
      serverSeq := WrappingAdd(serverSeq, |data|);
      history := history + [Record(false, elapsed, data)];
    }
  }

  lemma {:induction false} FlattenPush(channel: Channel, history: seq<Record>, r: Record)
    ensures var h := history + [r];
            && Flatten(EntriesOf(channel, h))
               == Flatten(EntriesOf(channel, history))
                  + Stamped(r.at, FramesFor(channel, r.sent, EndsAfter(history), r.data))
            && EndsAfter(h) == Advance(EndsAfter(history), r.sent, r.data)
  {
    var h := history + [r];
    assert h[..|h| - 1] == history;
    var es := EntriesOf(channel, h);
    assert es[..|es| - 1] == EntriesOf(channel, history);
    FramesForCarries(channel, r.sent, EndsAfter(history), r.data);
    var frames := FramesFor(channel, r.sent, EndsAfter(history), r.data);
    assert [frames[0]] + frames[1..] == frames;
  }
}
