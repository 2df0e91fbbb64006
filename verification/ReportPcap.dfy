/** The bug report's pcap: every channel's packets merged by time and cut to a byte budget. */
module ReportPcap {
  import opened Options
  import opened Bytes
  import opened Wire
  import opened Segments
  import opened TrafficRing
  import opened Sorting

  const PCAP_FILE_HEADER_BYTES: nat := 24
  const PCAP_RECORD_HEADER_BYTES: nat := 16

  predicate ByTime(a: Packet, b: Packet) {
    a.at <= b.at
  }

  lemma {:induction false} ByTimeTotalPreorder()
    ensures TotalPreorder(ByTime)
  {
  }

  function RecordBytes(ps: seq<Packet>): nat {
    if ps == [] then 0 else PCAP_RECORD_HEADER_BYTES + FrameLen(ps[0].frame) + RecordBytes(ps[1..])
  }

  /** Size of a pcap file holding `ps`. */
  function PcapBytes(ps: seq<Packet>): nat {
    PCAP_FILE_HEADER_BYTES + RecordBytes(ps)
  }

  function FrameBytes(ps: seq<Packet>): nat {
    if ps == [] then 0 else FrameLen(ps[0].frame) + FrameBytes(ps[1..])
  }

  /** A pcap may begin at `start` without splitting a timestamp. */
  ghost predicate Aligned(ps: seq<Packet>, start: nat) {
    start <= |ps| && forall i, j :: 0 <= i < start <= j < |ps| ==> ps[i].at < ps[j].at
  }

  /** The earliest timestamp-aligned start whose pcap stays within the budget. */
  ghost predicate IsBudgetCut(ps: seq<Packet>, budget: nat, start: nat) {
    && Aligned(ps, start)
    && (start < |ps| ==> PcapBytes(ps[start..]) <= budget)
    && (forall s :: 0 <= s < start && Aligned(ps, s) ==> PcapBytes(ps[s..]) > budget)
  }

  /** A file of packets is 24 bytes, 16 for each packet, and the packets. */
  lemma {:induction false} PcapSize(ps: seq<Packet>)
    ensures PcapBytes(ps) == 24 + 16 * |ps| + FrameBytes(ps)
  {
    if ps != [] { PcapSize(ps[1..]); }
  }

  lemma {:induction false} RecordBytesShrink(ps: seq<Packet>, a: nat, b: nat)
    requires a <= b <= |ps|
    ensures RecordBytes(ps[b..]) <= RecordBytes(ps[a..])
    decreases b - a
  {
    if a < b {
      RecordBytesShrink(ps, a + 1, b);
      assert ps[a..][1..] == ps[a + 1..];
    }
  }

  lemma {:induction false} BudgetCutUnique(ps: seq<Packet>, budget: nat, a: nat, b: nat)
    requires IsBudgetCut(ps, budget, a) && IsBudgetCut(ps, budget, b)
    ensures a == b
  {
  }

  method NewestWithinBudget(ps: seq<Packet>, budget: nat) returns (start: nat)
    requires Sorted(ps, ByTime)
    ensures IsBudgetCut(ps, budget, start)
  {
    var used := PCAP_FILE_HEADER_BYTES;
    start := |ps|;
    while start > 0
      invariant 0 <= start <= |ps|
      invariant used == PcapBytes(ps[start..])
      invariant start < |ps| ==> used <= budget
    {
      var cost := PCAP_RECORD_HEADER_BYTES + FrameLen(ps[start - 1].frame);
      assert ps[start - 1..][1..] == ps[start..];
      if used + cost > budget {
        break;
      }
      used := used + cost;
      start := start - 1;
    }
    if start > 0 {
      ghost var first := start;
      var cut := ps[start - 1].at;
      while start < |ps| && ps[start].at == cut
        invariant first <= start <= |ps|
        invariant forall i :: first - 1 <= i < start ==> ps[i].at == cut
      {
        start := start + 1;
      }
      CutIsEarliest(ps, budget, first, start);
    }
  }

  lemma {:induction false} CutIsEarliest(ps: seq<Packet>, budget: nat, first: nat, start: nat)
    requires Sorted(ps, ByTime) && 0 < first <= start <= |ps|
    requires forall i :: first - 1 <= i < start ==> ps[i].at == ps[first - 1].at
    requires start < |ps| ==> ps[start].at != ps[first - 1].at
    requires first < |ps| ==> PcapBytes(ps[first..]) <= budget
    requires PcapBytes(ps[first - 1..]) > budget
    ensures IsBudgetCut(ps, budget, start)
  {
    forall i, j | 0 <= i < start <= j < |ps| ensures ps[i].at < ps[j].at {
      assert i < first - 1 ==> ByTime(ps[i], ps[first - 1]);
      assert start < j ==> ByTime(ps[start], ps[j]);
      assert ByTime(ps[first - 1], ps[start]);
    }
    if start < |ps| { RecordBytesShrink(ps, first, start); }
    forall s | first <= s < start ensures !Aligned(ps, s) {
      assert ps[s - 1].at == ps[s].at;
    }
    forall s | 0 <= s < first ensures PcapBytes(ps[s..]) > budget {
      RecordBytesShrink(ps, s, first - 1);
    }
  }

  datatype Summary = Summary(
    budgetBytes: nat, writtenBytes: nat, packetsWritten: nat, packetsOmitted: nat, bytesOmitted: nat,
    oldestPacket: seq<nat>,  // the oldest kept packet's time, if any packet is kept
    truncated: bool)

  lemma {:induction false} FrameBytesConcat(a: seq<Packet>, b: seq<Packet>)
    ensures FrameBytes(a + b) == FrameBytes(a) + FrameBytes(b)
  {
    if a == [] {
      assert a + b == b;
    } else {
      assert (a + b)[1..] == a[1..] + b;
      FrameBytesConcat(a[1..], b);
    }
  }

  /** The writer refuses a packet longer than the snap length, and one whose time the file format
      cannot hold. */
  predicate Writable(p: Packet, timeFits: nat -> bool) {
    FrameLen(p.frame) <= PCAP_SNAPLEN && timeFits(p.at)
  }

  method WritePackets(ps: seq<Packet>, timeFits: nat -> bool) returns (ok: bool, output: seq<Packet>)
    ensures ok <==> forall p :: p in ps ==> FrameLen(p.frame) <= 262144 && timeFits(p.at)
    ensures ok ==> output == ps
  {
    output := [];
    for i := 0 to |ps|
      invariant output == ps[..i] && forall p :: p in output ==> Writable(p, timeFits)
    {
      if FrameLen(ps[i].frame) > PCAP_SNAPLEN || !timeFits(ps[i].at) {
        assert ps[i] in ps;
        return false, output;
      }
      output := output + [ps[i]];
    }
    assert ps[..|ps|] == ps;
    ok := true;
  }

  datatype Report = Report(kept: seq<Packet>, summary: Summary)

  /** The summary agrees with the packets kept and accounts for every packet and byte. */
  ghost predicate Accounts(ps: seq<Packet>, budget: nat, r: Report) {
    && (r.kept != [] ==> r.summary.writtenBytes <= budget)
    && r.summary.packetsWritten == |r.kept| && r.summary.packetsWritten + r.summary.packetsOmitted == |ps|
    && r.summary.writtenBytes == 24 + 16 * |r.kept| + FrameBytes(r.kept)
    && r.summary.bytesOmitted + FrameBytes(r.kept) == FrameBytes(ps)
    && (r.summary.truncated <==> r.kept != ps)
    && r.summary.budgetBytes == budget
    && r.summary.oldestPacket == if r.kept == [] then [] else [r.kept[0].at]
  }

  /** Write the newest packets that fit the budget and say what was kept; nothing at all if the
      writer refuses one of them. */
  method WriteNewestPcap(ps: seq<Packet>, budget: nat, timeFits: nat -> bool)
    returns (report: Option<Report>, start: nat)
    requires Sorted(ps, ByTime)
    ensures IsBudgetCut(ps, budget, start)
    ensures report.Some? <==> forall p :: p in ps[start..] ==> Writable(p, timeFits)
    ensures report.Some? ==> report.value.kept == ps[start..] && Accounts(ps, budget, report.value)
  {
    hide Sorted, RecordBytes, FrameBytes;
    var cut := NewestWithinBudget(ps, budget);
    start := cut;
    var omitted, kept := ps[..cut], ps[cut..];
    var ok, output := WritePackets(kept, timeFits);
    if !ok {
      return None, start;
    }
    assert omitted + kept == ps;
    FrameBytesConcat(omitted, kept);
    PcapSize(kept);
    var summary := Summary(budget, PcapBytes(output), |kept|, |omitted|, FrameBytes(omitted),
                           if kept == [] then [] else [kept[0].at], omitted != []);
    report := Some(Report(output, summary));
  }
}

/** The inspector's regrouping of packets into half-streams. */
module Inspector {
  import opened Bytes
  import opened Wire
  import opened Segments
  import opened TrafficRing
  import opened Sorting

  /** Packets of one half-stream. */
  function Between(srcPort: nat, dstPort: nat): Packet -> bool {
    (p: Packet) => p.frame.Frame? && p.frame.srcPort == srcPort && p.frame.dstPort == dstPort
  }

  function PacketBytes(ps: seq<Packet>): seq<byte> {
    if ps == [] then [] else PacketBytes(ps[..|ps| - 1]) + PayloadOf(ps[|ps| - 1].frame)
  }

  /** All bytes that travelled from one port to the other, in packet order. */
  function HalfStream(ps: seq<Packet>, srcPort: nat, dstPort: nat): seq<byte> {
    PacketBytes(Filter(ps, Between(srcPort, dstPort)))
  }

  lemma {:induction false} HalfStreamPush(ps: seq<Packet>, p: Packet, srcPort: nat, dstPort: nat)
    ensures HalfStream(ps + [p], srcPort, dstPort)
            == HalfStream(ps, srcPort, dstPort)
               + (if Between(srcPort, dstPort)(p) then PayloadOf(p.frame) else [])
  {
    var f := Filter(ps, Between(srcPort, dstPort));
    assert (ps + [p])[..|ps|] == ps;
    if Between(srcPort, dstPort)(p) {
      assert (f + [p])[..|f|] == f;
    } else {
      assert f + [] == f;
    }
  }

  method Reassemble(ps: seq<Packet>) returns (streams: map<(nat, nat), seq<byte>>)
    ensures forall key :: key in streams <==> HalfStream(ps, key.0, key.1) != []
    ensures forall key :: key in streams ==> streams[key] == HalfStream(ps, key.0, key.1)
  {
    streams := map[];
    for o := 0 to |ps|
      invariant forall key :: key in streams <==> HalfStream(ps[..o], key.0, key.1) != []
      invariant forall key :: key in streams ==> streams[key] == HalfStream(ps[..o], key.0, key.1)
    {
      assert ps[..o + 1] == ps[..o] + [ps[o]];
      forall key: (nat, nat)
        ensures HalfStream(ps[..o + 1], key.0, key.1)
                == HalfStream(ps[..o], key.0, key.1)
                   + (if Between(key.0, key.1)(ps[o]) then PayloadOf(ps[o].frame) else [])
      {
        HalfStreamPush(ps[..o], ps[o], key.0, key.1);
      }
      if FrameLen(ps[o].frame) < 54 {
        continue;
      }
      var payload := PayloadOf(ps[o].frame);
      if payload == [] {
        continue;
      }
      var key := (ps[o].frame.srcPort, ps[o].frame.dstPort);
      streams := streams[key := (if key in streams then streams[key] else []) + payload];
    }
    assert ps[..|ps|] == ps;
  }

  /** One half-stream's messages, as the inspector finds them. */
  method Inspect(ps: seq<Packet>, srcPort: nat, dstPort: nat) returns (messages: seq<Message>)
    ensures messages == Parse(HalfStream(ps, srcPort, dstPort))
  {
    hide HalfStream, Parse;
    var streams := Reassemble(ps);
    var key := (srcPort, dstPort);
    var buf := if key in streams then streams[key] else [];
    assert buf == HalfStream(ps, key.0, key.1);
    var found := IterMessages(buf);
    messages := Extract(buf, found);
  }
}
