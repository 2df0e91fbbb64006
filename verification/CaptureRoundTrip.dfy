/** All channels together: what the inspector reads back from a report's pcap is, for every
    half-stream, a suffix of the messages recorded on it. */
module CaptureRoundTrip {
  import opened Options
  import opened Bytes
  import opened Sequences
  import opened Wire
  import opened Segments
  import opened TrafficRing
  import opened Sorting
  import opened ReportPcap
  import opened Inspector

  const CHANNELS := [Main, Display, Inputs, Cursor, Usbredir, Playback]

  function CapOf(channel: Channel): nat {
    match channel
    case Display => 32 * 1024 * 1024
    case Inputs => 2 * 1024 * 1024
    case _ => 4 * 1024 * 1024
  }

  /** The rings there are, and how many bytes each may hold. */
  lemma {:induction false} Rings()
    ensures forall c :: c in CHANNELS <==> c in {Main, Display, Inputs, Cursor, Usbredir, Playback}
    ensures forall c :: c in CHANNELS ==>
                          CapOf(c) == if c == Display then 33554432 else if c == Inputs then 2097152 else 4194304
  {
  }

  function RingEntries(channel: Channel, history: seq<Record>): seq<Entry> {
    Retained(EntriesOf(channel, history), CapOf(channel))
  }

  /** The named channels' packets, one channel after the other. */
  function Gathered(names: seq<Channel>, log: map<Channel, seq<Record>>): seq<Packet> {
    if names == [] then []
    else
      var name := names[|names| - 1];
      Gathered(names[..|names| - 1], log)
      + (if name in log then Flatten(RingEntries(name, log[name])) else [])
  }

  /** The rings are gathered in the order they are named, so that packets of equal times stay in it. */
  lemma {:induction false} GatheredInOrder(a: seq<Channel>, c: Channel, b: seq<Channel>, log: map<Channel, seq<Record>>)
    ensures Gathered(a + [c] + b, log)
            == Gathered(a, log) + (if c in log then Flatten(RingEntries(c, log[c])) else []) + Gathered(b, log)
  {
    hide Flatten, RingEntries;
    if b == [] {
      assert a + [c] + b == a + [c] && (a + [c])[..|a|] == a;
    } else {
      var init := b[..|b| - 1];
      GatheredInOrder(a, c, init, log);
      assert (a + [c] + b)[..|a| + |b|] == a + [c] + init;
    }
  }

  function Merged(names: seq<Channel>, log: map<Channel, seq<Record>>): seq<Packet> {
    StableSort(Gathered(names, log), ByTime)
  }

  class TrafficBuffers {
    const rings: map<Channel, TrafficRingBuffer>

    ghost predicate Valid()
      reads rings.Values
    {
      && (forall c :: c in rings <==> c in CHANNELS)
      && (forall c :: c in rings ==> rings[c].Valid() && rings[c].channel == c && rings[c].maxBytes == CapOf(c))
      && (forall c, d :: c in rings && d in rings && c != d ==> rings[c] != rings[d])
    }

    ghost function Log(): map<Channel, seq<Record>>
      reads rings.Values
    {
      map c | c in rings :: rings[c].history
    }

    constructor ()
      ensures Valid() && fresh(rings.Values)
      ensures Log() == map c | c in CHANNELS :: []
    {
      hide Retained, EntriesOf, EndsAfter, RingBytes, CapOf;
      var made := MakeRings(CHANNELS);
      rings := made;
    }

    static method MakeRings(names: seq<Channel>) returns (made: map<Channel, TrafficRingBuffer>)
      ensures forall c :: c in made <==> c in names
      ensures forall c :: c in made ==>
                            && fresh(made[c]) && made[c].Valid() && made[c].history == []
                            && made[c].channel == c && made[c].maxBytes == CapOf(c)
      ensures forall c, d :: c in made && d in made && c != d ==> made[c] != made[d]
    {
      hide Retained, EntriesOf, EndsAfter, RingBytes, CapOf;
      made := map[];
      for i := 0 to |names|
        invariant forall c :: c in made <==> c in names[..i]
        invariant forall c :: c in made ==>
                                && fresh(made[c]) && made[c].Valid() && made[c].history == []
                                && made[c].channel == c && made[c].maxBytes == CapOf(c)
        invariant forall c, d :: c in made && d in made && c != d ==> made[c] != made[d]
      {
        var ring := new TrafficRingBuffer(names[i], CapOf(names[i]));
        made := made[names[i] := ring];
      }
    }

    /** Record a message; a channel without a ring is not recorded. */
    method RecordMessage(channel: Channel, sent: bool, at: nat, data: seq<byte>)
      requires Valid()
      modifies rings.Values
      ensures Valid()
      ensures Log() == if channel in CHANNELS
                       then old(Log())[channel := old(Log())[channel] + [Record(sent, at, data)]]
                       else old(Log())
    {
      hide TrafficRingBuffer.Valid;
      if channel in rings {
        var ring := rings[channel];
        ring.RecordMessage(sent, at, data);
      }
    }

    static method AppendPackets(packets: seq<Packet>, entries: seq<Entry>) returns (all: seq<Packet>)
      ensures all == packets + Flatten(entries)
    {
      hide PacketsOf, Flatten;
      all := packets;
      FlattenNothing();
      assert entries[..0] == [];
      for i := 0 to |entries|
        invariant all == packets + Flatten(entries[..i])
      {
        FlattenSnoc(entries[..i], entries[i]);
        assert entries[..i + 1] == entries[..i] + [entries[i]];
        all := all + PacketsOf(entries[i]);
      }
      assert entries[..|entries|] == entries;
    }

    /** Every packet in the named channels' rings, in time order. */
    method CollectSegments(names: seq<Channel>) returns (packets: seq<Packet>)
      requires Valid()
      ensures packets == Merged(names, Log())
    {
      hide EntriesOf, EndsAfter, RingBytes, CapOf, Retained, StableSort, Flatten;
      packets := [];
      for n := 0 to |names|
        invariant packets == Gathered(names[..n], Log())
      {
        assert names[..n + 1][..n] == names[..n];
        if names[n] in rings {
          packets := AppendPackets(packets, rings[names[n]].entries);
        }
      }
      assert names[..|names|] == names;
      packets := StableSort(packets, ByTime);
    }

    /** The newest of the named channels' traffic that fits in the budget; nothing if and only if
        the file format cannot hold one of its times, never for a packet's length. */
    method DrainWithin(names: seq<Channel>, budget: nat, timeFits: nat -> bool)
      returns (report: Option<Report>, start: nat)
      requires Valid()
      ensures IsBudgetCut(Merged(names, Log()), budget, start)
      ensures report.Some? <==> forall p :: p in Merged(names, Log())[start..] ==> timeFits(p.at)
      ensures report.Some? ==>
                && report.value.kept == Merged(names, Log())[start..]
                && Accounts(Merged(names, Log()), budget, report.value)
    {
      hide Merged, Sorted, IsBudgetCut, Accounts;
      var packets := CollectSegments(names);
      AllSorted(names, Log());
      AllWritable(names, Log());
      report, start := WriteNewestPcap(packets, budget, timeFits);
      CutInRange(packets, budget, start);
      assert forall p :: p in packets[start..] ==> p in packets;
    }
  }

  lemma {:induction false} CutInRange(ps: seq<Packet>, budget: nat, start: nat)
    requires IsBudgetCut(ps, budget, start)
    ensures start <= |ps|
  {
  }

  lemma {:induction false} AllSorted(names: seq<Channel>, log: map<Channel, seq<Record>>)
    ensures Sorted(Merged(names, log), ByTime)
  {
    ByTimeTotalPreorder();
    StableSortSorts(Gathered(names, log), ByTime);
  }

  predicate Short(p: Packet) {
    FrameLen(p.frame) <= PCAP_SNAPLEN
  }

  lemma {:induction false} EntryWritable(channel: Channel, history: seq<Record>, i: nat, p: Packet)
    requires i < |history| && p in PacketsOf(EntriesOf(channel, history)[i])
    ensures Short(p)
  {
    hide EntriesOf, EndsAfter, FramesFor;
    EntryAt(channel, history, i);
    var ends, r := EndsAfter(history[..i]), history[i];
    var frames := FramesFor(channel, r.sent, ends, r.data);
    FramesForCarries(channel, r.sent, ends, r.data);
    assert [frames[0]] + frames[1..] == frames;
    var j :| 0 <= j < |frames| && p == Packet(r.at, frames[j]);
    assert frames[j] in frames;
  }

  lemma {:induction false} RingWritable(channel: Channel, history: seq<Record>, p: Packet)
    requires p in Flatten(RingEntries(channel, history))
    ensures Short(p)
  {
    hide EntriesOf, Flatten, PacketsOf, Retained, Short;
    var es := EntriesOf(channel, history);
    var k := RetainedIsLongestSuffix(es, CapOf(channel));
    var i := FlattenFrom(es[k..], p);
    EntryWritable(channel, history, k + i, p);
  }

  /** A packet comes from some entry. */
  lemma {:induction false} FlattenFrom(es: seq<Entry>, p: Packet) returns (i: nat)
    requires p in Flatten(es)
    ensures i < |es| && p in PacketsOf(es[i])
  {
    var n := |es| - 1;
    if p in Flatten(es[..n]) { i := FlattenFrom(es[..n], p); } else { i := n; }
  }

  lemma {:induction false} GatheredWritable(names: seq<Channel>, log: map<Channel, seq<Record>>)
    ensures forall p :: p in Gathered(names, log) ==> Short(p)
  {
    hide RingEntries, Flatten, Short;
    if names != [] {
      GatheredWritable(names[..|names| - 1], log);
      var name := names[|names| - 1];
      if name in log {
        forall p | p in Flatten(RingEntries(name, log[name])) ensures Short(p) {
          RingWritable(name, log[name], p);
        }
      }
    }
  }

  /** No packet of a report is longer than the snap length. */
  lemma {:induction false} AllWritable(names: seq<Channel>, log: map<Channel, seq<Record>>)
    ensures forall p :: p in Merged(names, log) ==> Short(p)
  {
    hide Gathered, Short, StableSort;
    GatheredWritable(names, log);
    ByTimeTotalPreorder();
    StableSortSorts(Gathered(names, log), ByTime);
    forall p | p in Merged(names, log) ensures Short(p) {
      assert p in multiset(Merged(names, log));
      assert p in multiset(Gathered(names, log));
    }
  }

  // ----- Recorded messages

  /** A whole SPICE message as it was recorded. */
  datatype Logged = Logged(sent: bool, at: nat, message: Message)

  predicate WellFormedLog(ls: seq<Logged>) {
    forall l :: l in ls ==> WellFormed(l.message)
  }

  predicate ByLoggedTime(a: Logged, b: Logged) {
    a.at <= b.at
  }

  predicate ByEntryTime(a: Entry, b: Entry) {
    a.at <= b.at
  }

  function Records(ls: seq<Logged>): (rs: seq<Record>)
    requires WellFormedLog(ls)
    ensures |rs| == |ls|
  {
    seq(|ls|, i requires 0 <= i < |ls| => Record(ls[i].sent, ls[i].at, Encode(ls[i].message)))
  }

  function RecordLog(logs: map<Channel, seq<Logged>>): map<Channel, seq<Record>>
    requires forall c :: c in logs ==> WellFormedLog(logs[c])
  {
    map c | c in logs :: Records(logs[c])
  }

  function LoggedDir(sent: bool): Logged -> bool {
    (l: Logged) => l.sent == sent
  }

  function EntryDir(sent: bool): Entry -> bool {
    (e: Entry) => e.sent == sent
  }

  function Messages(ls: seq<Logged>): (ms: seq<Message>)
    ensures |ms| == |ls|
  {
    seq(|ls|, i requires 0 <= i < |ls| => ls[i].message)
  }

  /** The messages recorded on a channel in one direction, oldest first. */
  function SentOrReceived(ls: seq<Logged>, sent: bool): seq<Message> {
    Messages(Filter(ls, LoggedDir(sent)))
  }

  // ----- Entries and the messages they hold

  ghost predicate Holds(channel: Channel, e: Entry, l: Logged) {
    && e.sent == l.sent && e.at == l.at
    && WellFormed(l.message)
    && Joined([e.first] + e.more) == Encode(l.message)
    && (forall f :: f in [e.first] + e.more ==>
                      && f.Frame? && f.srcPort == SrcPort(channel, e.sent) && f.dstPort == DstPort(channel, e.sent))
  }

  ghost predicate AllHold(channel: Channel, es: seq<Entry>, ls: seq<Logged>) {
    && |es| == |ls|
    && forall i :: 0 <= i < |es| ==> Holds(channel, es[i], ls[i])
  }

  lemma {:induction false} EntriesHoldMessages(channel: Channel, ls: seq<Logged>)
    requires WellFormedLog(ls)
    ensures AllHold(channel, EntriesOf(channel, Records(ls)), ls)
  {
    var rs := Records(ls);
    forall i | 0 <= i < |ls| ensures Holds(channel, EntriesOf(channel, rs)[i], ls[i]) {
      EntryCarriesRecord(channel, rs, i);
    }
  }

  lemma {:induction false} AllHoldFilter(channel: Channel, es: seq<Entry>, ls: seq<Logged>, sent: bool)
    requires AllHold(channel, es, ls)
    ensures AllHold(channel, Filter(es, EntryDir(sent)), Filter(ls, LoggedDir(sent)))
  {
    if es != [] {
      AllHoldFilter(channel, es[..|es| - 1], ls[..|ls| - 1], sent);
    }
  }

  // ----- Packets of one half-stream

  lemma {:induction false} AllPackets(ps: seq<Packet>, srcPort: nat, dstPort: nat)
    ensures (forall p :: p in ps ==> Between(srcPort, dstPort)(p)) ==> Filter(ps, Between(srcPort, dstPort)) == ps
    ensures (forall p :: p in ps ==> !Between(srcPort, dstPort)(p)) ==> Filter(ps, Between(srcPort, dstPort)) == []
  {
    if forall p :: p in ps ==> Between(srcPort, dstPort)(p) {
      FilterAll(ps, Between(srcPort, dstPort));
    }
    if forall p :: p in ps ==> !Between(srcPort, dstPort)(p) {
      FilterNone(ps, Between(srcPort, dstPort));
    }
  }

  predicate SameHalfStream(c: Channel, s: bool, d: Channel, t: bool) {
    SrcPort(c, s) == SrcPort(d, t) && DstPort(c, s) == DstPort(d, t)
  }

  lemma {:induction false} PortsAreUnique(c: Channel, s: bool, d: Channel, t: bool)
    requires c in CHANNELS && d in CHANNELS
    ensures SameHalfStream(c, s, d, t) <==> c == d && s == t
  {
  }

  /** The port a channel's client has; the server has 5900. */
  predicate HasPort(c: Channel, port: nat) {
    SrcPort(c, true) == DstPort(c, false) == port && DstPort(c, true) == SrcPort(c, false) == 5900
  }

  lemma {:induction false} PortNumbers()
    ensures HasPort(Main, 10001) && HasPort(Display, 10002) && HasPort(Inputs, 10003)
    ensures HasPort(Cursor, 10004) && HasPort(Usbredir, 10009) && HasPort(Playback, 10099)
  {
  }

  lemma {:induction false} PacketsOfHeld(c: Channel, e: Entry, l: Logged, d: Channel, sent: bool)
    requires Holds(c, e, l) && c in CHANNELS && d in CHANNELS
    ensures Filter(PacketsOf(e), Between(SrcPort(d, sent), DstPort(d, sent)))
            == if c == d && e.sent == sent then PacketsOf(e) else []
  {
    var ps := PacketsOf(e);
    PortsAreUnique(c, e.sent, d, sent);
    forall p | p in ps
      ensures Between(SrcPort(d, sent), DstPort(d, sent))(p) <==> c == d && e.sent == sent
    {
      assert p.frame in [e.first] + e.more;
    }
    AllPackets(ps, SrcPort(d, sent), DstPort(d, sent));
  }

  lemma {:induction false} FilterFlattenBy(es: seq<Entry>, p: Packet -> bool, q: Entry -> bool)
    requires forall e :: e in es ==> Filter(PacketsOf(e), p) == if q(e) then PacketsOf(e) else []
    ensures Filter(Flatten(es), p) == Flatten(Filter(es, q))
  {
    if es != [] {
      var init, e := es[..|es| - 1], es[|es| - 1];
      FilterFlattenBy(init, p, q);
      FilterConcat(Flatten(init), PacketsOf(e), p);
      assert e in es;
      var f := Filter(init, q);
      if q(e) { FlattenSnoc(f, e); } else { assert f + [] == f; }
    }
  }

  function Nobody(): Entry -> bool {
    (e: Entry) => false
  }

  /** Picking a half-stream's packets is picking its direction's entries. */
  lemma {:induction false} FilterFlatten(c: Channel, es: seq<Entry>, ls: seq<Logged>, d: Channel, sent: bool)
    requires AllHold(c, es, ls) && c in CHANNELS && d in CHANNELS
    ensures Filter(Flatten(es), Between(SrcPort(d, sent), DstPort(d, sent)))
            == if c == d then Flatten(Filter(es, EntryDir(sent))) else []
  {
    var p := Between(SrcPort(d, sent), DstPort(d, sent));
    var q := if c == d then EntryDir(sent) else Nobody();
    forall e | e in es ensures Filter(PacketsOf(e), p) == if q(e) then PacketsOf(e) else [] {
      var i :| 0 <= i < |es| && es[i] == e;
      PacketsOfHeld(c, e, ls[i], d, sent);
    }
    FilterFlattenBy(es, p, q);
    if c != d { FilterNone(es, Nobody()); }
  }

  lemma {:induction false} FlattenSnoc(es: seq<Entry>, e: Entry)
    ensures Flatten(es + [e]) == Flatten(es) + PacketsOf(e)
  {
    assert (es + [e])[..|es|] == es;
  }

  // ----- The ring keeps a suffix

  /** The recorded messages a channel's ring still holds. */
  function RingLog(c: Channel, ls: seq<Logged>): seq<Logged>
    requires WellFormedLog(ls)
  {
    var n := |RingEntries(c, Records(ls))|;
    if n <= |ls| then ls[|ls| - n..] else []
  }

  lemma {:induction false} RingHoldsSuffix(c: Channel, ls: seq<Logged>)
    requires WellFormedLog(ls)
    ensures AllHold(c, RingEntries(c, Records(ls)), RingLog(c, ls))
    ensures exists k :: 0 <= k <= |ls| && RingLog(c, ls) == ls[k..]
  {
    hide Records, WellFormedLog, Retained;
    var es := EntriesOf(c, Records(ls));
    EntriesHoldMessages(c, ls);
    var k := RetainedIsLongestSuffix(es, CapOf(c));
    assert RingLog(c, ls) == ls[k..];
    forall i | 0 <= i < |ls[k..]| ensures Holds(c, es[k..][i], ls[k..][i]) {
      assert Holds(c, es[k + i], ls[k + i]);
    }
  }

  /** The bytes messages take in a ring: six of message header and 54 of packet headers a segment. */
  function Room(ls: seq<Logged>): nat {
    if ls == [] then 0
    else
      var n := 6 + |ls[0].message.body|;
      54 * ((n + 65494) / 65495) + n + Room(ls[1..])
  }

  lemma {:induction false} RoomIsRingBytes(c: Channel, ls: seq<Logged>, j: nat)
    requires WellFormedLog(ls) && j <= |ls|
    ensures RingBytes(EntriesOf(c, Records(ls))[j..]) == Room(ls[j..])
    decreases |ls| - j
  {
    if j < |ls| {
      hide EntryBytes, EntryFor, EndsAfter, EntriesOf;
      var es := EntriesOf(c, Records(ls));
      RoomIsRingBytes(c, ls, j + 1);
      assert es[j..][1..] == es[j + 1..] && ls[j..][1..] == ls[j + 1..];
      EntryAt(c, Records(ls), j);
      EntrySize(c, EndsAfter(Records(ls)[..j]), Records(ls)[j]);
    }
  }

  /** A ring holds the longest run of newest messages that its cap has room for: 32 MiB for display,
      2 MiB for inputs, 4 MiB for the others. */
  lemma {:induction false} RingHoldsNewest(c: Channel, ls: seq<Logged>) returns (k: nat)
    requires WellFormedLog(ls)
    ensures k <= |ls| && RingLog(c, ls) == ls[k..]
    ensures var cap := if c == Display then 33554432 else if c == Inputs then 2097152 else 4194304;
            Room(ls[k..]) <= cap && forall j :: 0 <= j < k ==> Room(ls[j..]) > cap
  {
    hide Retained, EntriesOf, RingBytes, Room;
    var es := EntriesOf(c, Records(ls));
    k := RetainedIsLongestSuffix(es, CapOf(c));
    RoomIsRingBytes(c, ls, k);
    forall j | 0 <= j < k ensures Room(ls[j..]) > CapOf(c) {
      RoomIsRingBytes(c, ls, j);
    }
  }

  /** One ring's contribution to a half-stream. */
  lemma {:induction false} RingHalfStream(c: Channel, ls: seq<Logged>, d: Channel, sent: bool)
    requires WellFormedLog(ls) && c in CHANNELS && d in CHANNELS
    ensures Filter(Flatten(RingEntries(c, Records(ls))), Between(SrcPort(d, sent), DstPort(d, sent)))
            == if c == d then Flatten(Filter(RingEntries(c, Records(ls)), EntryDir(sent))) else []
  {
    RingHoldsSuffix(c, ls);
    FilterFlatten(c, RingEntries(c, Records(ls)), RingLog(c, ls), d, sent);
  }

  ghost predicate Distinct(names: seq<Channel>) {
    forall i, j :: 0 <= i < j < |names| ==> names[i] != names[j]
  }

  ghost predicate KnownLogs(logs: map<Channel, seq<Logged>>) {
    forall c :: c in logs ==> c in CHANNELS && WellFormedLog(logs[c])
  }

  lemma {:induction false} GatheredHalfStream(names: seq<Channel>, logs: map<Channel, seq<Logged>>, d: Channel,
                                              sent: bool)
    requires KnownLogs(logs) && Distinct(names) && d in logs
    ensures Filter(Gathered(names, RecordLog(logs)), Between(SrcPort(d, sent), DstPort(d, sent)))
            == if d in names then Flatten(Filter(RingEntries(d, Records(logs[d])), EntryDir(sent))) else []
  {
    if names != [] {
      var init, c := names[..|names| - 1], names[|names| - 1];
      var p := Between(SrcPort(d, sent), DstPort(d, sent));
      GatheredHalfStream(init, logs, d, sent);
      assert d in names <==> d in init || d == c;
      var ring := if c in logs then Flatten(RingEntries(c, Records(logs[c]))) else [];
      assert Filter(ring, p)
          == if c == d then Flatten(Filter(RingEntries(d, Records(logs[d])), EntryDir(sent))) else [] by {
        if c in logs { RingHalfStream(c, logs[c], d, sent); }
      }
      FilterConcat(Gathered(init, RecordLog(logs)), ring, p);
    }
  }

  // ----- Time order and the cut

  lemma {:induction false} LoggedTimeTotalPreorder()
    ensures TotalPreorder(ByLoggedTime) && TotalPreorder(ByEntryTime)
  {
  }

  /** Where the entries later than `t` begin. */
  lemma {:induction false} TimeSplit(es: seq<Entry>, t: nat) returns (k: nat)
    requires Sorted(es, ByEntryTime)
    ensures k <= |es|
    ensures forall i :: 0 <= i < k ==> es[i].at <= t
    ensures forall i :: k <= i < |es| ==> es[i].at > t
  {
    k := |es|;
    while k > 0 && es[k - 1].at > t
      invariant k <= |es| && forall i :: k <= i < |es| ==> es[i].at > t
    {
      k := k - 1;
    }
    forall i | 0 <= i < k ensures es[i].at <= t {
      if i < k - 1 { assert ByEntryTime(es[i], es[k - 1]); }
    }
  }

  lemma {:induction false} PacketTimes(es: seq<Entry>, p: Packet)
    requires p in Flatten(es)
    ensures exists i :: 0 <= i < |es| && es[i].at == p.at
  {
    var i := FlattenFrom(es, p);
    assert es[i].at == p.at;
  }

  lemma {:induction false} FlattenConcat(a: seq<Entry>, b: seq<Entry>)
    ensures Flatten(a + b) == Flatten(a) + Flatten(b)
  {
    hide PacketsOf, Flatten;
    if b == [] {
      assert a + b == a && Flatten(b) == [] by { FlattenNothing(); }
    } else {
      var init, e := b[..|b| - 1], b[|b| - 1];
      FlattenConcat(a, init);
      FlattenSnoc(init, e);
      FlattenSnoc(a + init, e);
      assert b == init + [e] && a + b == a + init + [e];
    }
  }

  lemma {:induction false} FlattenNothing()
    ensures Flatten([]) == []
  {
  }

  ghost predicate NotAfter(ps: seq<Packet>, t: nat) {
    forall p :: p in ps ==> p.at <= t
  }

  ghost predicate AllAfter(ps: seq<Packet>, t: nat) {
    forall p :: p in ps ==> p.at > t
  }

  lemma {:induction false} InsertBetween(front: seq<Packet>, late: seq<Packet>, x: Packet)
    requires NotAfter(front, x.at) && AllAfter(late, x.at)
    ensures Insert(front + late, x, ByTime) == front + [x] + late
  {
    var r := front + late;
    assert forall i :: 0 <= i < |front| ==> r[i] in front;
    assert forall i :: |front| <= i < |r| ==> r[i] in late;
    InsertAt(r, x, ByTime, |front|);
    assert r[..|front|] == front && r[|front|..] == late;
  }

  /** Sorting in packets of one time, behind everything that is not later. */
  lemma {:induction false} SortInPackets(s: seq<Packet>, b: seq<Packet>, t: nat, early: seq<Packet>, late: seq<Packet>)
    requires StableSort(s, ByTime) == early + late
    requires forall i :: 0 <= i < |b| ==> b[i].at == t
    requires NotAfter(early, t) && AllAfter(late, t)
    ensures StableSort(s + b, ByTime) == early + b + late
    decreases |b|
  {
    hide StableSort, Insert;
    if b == [] {
      assert s + b == s && early + b == early;
    } else {
      var init, x := b[..|b| - 1], b[|b| - 1];
      SortInPackets(s, init, t, early, late);
      assert s + b == s + init + [x];
      StableSortSnoc(s + init, x, ByTime);
      var front := early + init;
      assert NotAfter(front, t);
      InsertBetween(front, late, x);
      assert front + [x] == early + b;
    }
  }

  lemma {:induction false} FlattenInserted(a: seq<Entry>, e: Entry, b: seq<Entry>)
    ensures Flatten(a + [e] + b) == Flatten(a) + PacketsOf(e) + Flatten(b)
  {
    hide Flatten, PacketsOf;
    FlattenSnoc(a, e);
    FlattenConcat(a + [e], b);
  }

  lemma {:induction false} SplitTimes(es: seq<Entry>, k: nat, t: nat)
    requires k <= |es|
    requires forall i :: 0 <= i < k ==> es[i].at <= t
    requires forall i :: k <= i < |es| ==> es[i].at > t
    ensures NotAfter(Flatten(es[..k]), t) && AllAfter(Flatten(es[k..]), t)
  {
    hide Flatten;
    forall p | p in Flatten(es[..k]) ensures p.at <= t {
      PacketTimes(es[..k], p);
    }
    forall p | p in Flatten(es[k..]) ensures p.at > t {
      PacketTimes(es[k..], p);
    }
  }

  /** An entry goes in behind everything that is not later. */
  lemma {:induction false} InsertByTime(es: seq<Entry>, e: Entry) returns (k: nat)
    requires Sorted(es, ByEntryTime)
    ensures k <= |es| && Insert(es, e, ByEntryTime) == es[..k] + [e] + es[k..]
    ensures NotAfter(Flatten(es[..k]), e.at) && AllAfter(Flatten(es[k..]), e.at)
  {
    hide Flatten, Insert, NotAfter, AllAfter;
    k := TimeSplit(es, e.at);
    InsertAt(es, e, ByEntryTime, k);
    SplitTimes(es, k, e.at);
  }

  lemma {:induction false} SortInEntry(packets: seq<Packet>, es: seq<Entry>, e: Entry)
    requires Sorted(es, ByEntryTime) && StableSort(packets, ByTime) == Flatten(es)
    ensures StableSort(packets + PacketsOf(e), ByTime) == Flatten(Insert(es, e, ByEntryTime))
  {
    hide StableSort, Flatten, PacketsOf, Insert, Sorted, NotAfter, AllAfter;
    var k := InsertByTime(es, e);
    var early, late := es[..k], es[k..];
    assert es == early + late;
    FlattenConcat(early, late);
    OneTime(e);
    SortInPackets(packets, PacketsOf(e), e.at, Flatten(early), Flatten(late));
    FlattenInserted(early, e, late);
  }

  lemma {:induction false} EntriesSorted(es: seq<Entry>)
    ensures Sorted(StableSort(es, ByEntryTime), ByEntryTime)
  {
    LoggedTimeTotalPreorder();
    StableSortSorts(es, ByEntryTime);
  }

  /** Sorting packets by time is sorting whole entries by time: all packets of an entry share its
      time and the sort is stable. */
  lemma {:induction false} SortKeepsEntriesWhole(es: seq<Entry>)
    ensures StableSort(Flatten(es), ByTime) == Flatten(StableSort(es, ByEntryTime))
  {
    if es != [] {
      hide StableSort, Flatten, PacketsOf, Insert, Sorted;
      var init := es[..|es| - 1];
      LastStep(es);
      SortKeepsEntriesWhole(init);
      EntriesSorted(init);
      SortInEntry(Flatten(init), StableSort(init, ByEntryTime), es[|es| - 1]);
    }
  }

  lemma {:induction false} LastStep(es: seq<Entry>)
    requires es != []
    ensures Flatten(es) == Flatten(es[..|es| - 1]) + PacketsOf(es[|es| - 1])
    ensures StableSort(es, ByEntryTime) == Insert(StableSort(es[..|es| - 1], ByEntryTime), es[|es| - 1], ByEntryTime)
  {
  }

  lemma {:induction false} OneTime(e: Entry)
    ensures forall i :: 0 <= i < |PacketsOf(e)| ==> PacketsOf(e)[i].at == e.at
  {
  }

  lemma {:induction false} AllHoldInsert(c: Channel, es: seq<Entry>, ls: seq<Logged>, e: Entry, l: Logged)
    requires AllHold(c, es, ls) && Holds(c, e, l)
    ensures AllHold(c, Insert(es, e, ByEntryTime), Insert(ls, l, ByLoggedTime))
  {
    hide Holds;
    if es != [] {
      var n := |es| - 1;
      HoldsTime(c, es[n], ls[n]);
      HoldsTime(c, e, l);
      if es[n].at > e.at { AllHoldInsert(c, es[..n], ls[..n], e, l); }
    }
  }

  /** Entries and the messages they hold sort alike. */
  lemma {:induction false} AllHoldSort(c: Channel, es: seq<Entry>, ls: seq<Logged>)
    requires AllHold(c, es, ls)
    ensures AllHold(c, StableSort(es, ByEntryTime), StableSort(ls, ByLoggedTime))
  {
    hide Holds, Insert;
    if es != [] {
      var n := |es| - 1;
      AllHoldSort(c, es[..n], ls[..n]);
      AllHoldInsert(c, StableSort(es[..n], ByEntryTime), StableSort(ls[..n], ByLoggedTime), es[n], ls[n]);
    }
  }

  lemma {:induction false} CutInside(f: seq<Packet>, pe: seq<Packet>, a: seq<Packet>, b: seq<Packet>)
    requires a + b == f + pe && b != [] && |f| < |a|
    requires forall i, j :: 0 <= i < j < |pe| ==> pe[i].at == pe[j].at
    ensures a[|f|].at == b[|b| - 1].at
  {
    assert a[|f|] == (a + b)[|f|] == pe[0];
    assert b[|b| - 1] == (a + b)[|a + b| - 1] == pe[|pe| - 1];
  }

  /** A cut between different times falls between entries. */
  lemma {:induction false} CutBetweenEntries(es: seq<Entry>, a: seq<Packet>, b: seq<Packet>) returns (k: nat)
    requires Flatten(es) == a + b
    requires forall p, q :: p in a && q in b ==> p.at < q.at
    ensures k <= |es| && a == Flatten(es[..k]) && b == Flatten(es[k..])
  {
    hide Flatten;
    if b == [] {
      k := |es|;
      assert es[..k] == es && es[k..] == [] && a + b == a;
      FlattenNothing();
    } else if es == [] {
      FlattenNothing();
      assert false;
    } else {
      var init, e := es[..|es| - 1], es[|es| - 1];
      var f, pe := Flatten(init), PacketsOf(e);
      assert es == init + [e];
      FlattenSnoc(init, e);
      if |a| <= |f| {
        var b' := f[|a|..];
        TwoCuts(a, b, f, pe);
        forall p, q | p in a && q in b' ensures p.at < q.at {
          assert q in b;
        }
        k := CutBetweenEntries(init, a, b');
        assert es[..k] == init[..k] && es[k..] == init[k..] + [e];
        FlattenSnoc(init[k..], e);
      } else {
        OneTime(e);
        CutInside(f, pe, a, b);
        assert false;
      }
    }
  }

  lemma {:induction false} EntryHeldBytes(c: Channel, e: Entry, l: Logged)
    requires Holds(c, e, l)
    ensures PacketBytes(PacketsOf(e)) == Encode(l.message)
  {
    StampedBytes(e.at, [e.first] + e.more);
  }

  lemma {:induction false} EncodeAllPush(ms: seq<Message>, m: Message)
    requires WellFormed(m) && forall x :: x in ms ==> WellFormed(x)
    ensures EncodeAll(ms + [m]) == EncodeAll(ms) + Encode(m)
  {
    EncodeAllConcat(ms, [m]);
    assert [m][1..] == [];
    assert EncodeAll([m]) == Encode(m) + EncodeAll([]);
  }

  lemma {:induction false} HeldMessagesWellFormed(c: Channel, es: seq<Entry>, ls: seq<Logged>)
    requires AllHold(c, es, ls)
    ensures forall m :: m in Messages(ls) ==> WellFormed(m)
  {
    forall m | m in Messages(ls) ensures WellFormed(m) {
      var i :| 0 <= i < |ls| && Messages(ls)[i] == m;
      assert Holds(c, es[i], ls[i]);
    }
  }

  lemma {:induction false} FlattenBytes(es: seq<Entry>, ms: seq<Message>)
    requires |es| == |ms| && forall m :: m in ms ==> WellFormed(m)
    requires forall i :: 0 <= i < |es| ==> PacketBytes(PacketsOf(es[i])) == Encode(ms[i])
    ensures PacketBytes(Flatten(es)) == EncodeAll(ms)
  {
    if es != [] {
      var n := |es| - 1;
      FlattenBytes(es[..n], ms[..n]);
      PacketBytesConcat(Flatten(es[..n]), PacketsOf(es[n]));
      EncodeAllLast(ms);
    }
  }

  lemma {:induction false} EncodeAllLast(ms: seq<Message>)
    requires ms != [] && forall m :: m in ms ==> WellFormed(m)
    ensures EncodeAll(ms) == EncodeAll(ms[..|ms| - 1]) + Encode(ms[|ms| - 1])
  {
    assert ms == ms[..|ms| - 1] + [ms[|ms| - 1]];
    EncodeAllPush(ms[..|ms| - 1], ms[|ms| - 1]);
  }

  lemma {:induction false} HeldBytes(c: Channel, es: seq<Entry>, ls: seq<Logged>)
    requires AllHold(c, es, ls)
    ensures forall m :: m in Messages(ls) ==> WellFormed(m)
    ensures PacketBytes(Flatten(es)) == EncodeAll(Messages(ls))
  {
    HeldMessagesWellFormed(c, es, ls);
    forall i | 0 <= i < |es| ensures PacketBytes(PacketsOf(es[i])) == Encode(Messages(ls)[i]) {
      EntryHeldBytes(c, es[i], ls[i]);
    }
    FlattenBytes(es, Messages(ls));
  }

  lemma {:induction false} PacketBytesSnoc(ps: seq<Packet>, p: Packet)
    ensures PacketBytes(ps + [p]) == PacketBytes(ps) + PayloadOf(p.frame)
  {
    hide PayloadOf;
    assert (ps + [p])[..|ps|] == ps;
  }

  lemma {:induction false} PacketBytesConcat(a: seq<Packet>, b: seq<Packet>)
    ensures PacketBytes(a + b) == PacketBytes(a) + PacketBytes(b)
  {
    if b == [] {
      assert a + b == a;
    } else {
      hide PayloadOf, PacketBytes;
      var init, p := b[..|b| - 1], b[|b| - 1];
      assert b == init + [p] && a + b == a + init + [p];
      PacketBytesConcat(a, init);
      PacketBytesSnoc(init, p);
      PacketBytesSnoc(a + init, p);
      Associative(PacketBytes(a), PacketBytes(init), PayloadOf(p.frame));
    }
  }

  lemma {:induction false} StampedCons(at: nat, frames: seq<Frame>)
    requires frames != []
    ensures Stamped(at, frames) == [Packet(at, frames[0])] + Stamped(at, frames[1..])
  {
  }

  lemma {:induction false} PacketBytesOne(p: Packet)
    ensures PacketBytes([p]) == PayloadOf(p.frame)
  {
    assert [p][..0] == [];
  }

  lemma {:induction false} StampedBytes(at: nat, frames: seq<Frame>)
    ensures PacketBytes(Stamped(at, frames)) == Joined(frames)
  {
    if frames != [] {
      hide PacketBytes, Stamped, PayloadOf;
      StampedBytes(at, frames[1..]);
      StampedCons(at, frames);
      PacketBytesOne(Packet(at, frames[0]));
      PacketBytesConcat([Packet(at, frames[0])], Stamped(at, frames[1..]));
    }
  }

  // ----- The theorem

  lemma {:induction false} HalfStreamSplit(ps: seq<Packet>, start: nat, p: Packet -> bool)
    requires Aligned(ps, start)
    ensures Filter(ps, p) == Filter(ps[..start], p) + Filter(ps[start..], p)
    ensures forall x, y :: x in Filter(ps[..start], p) && y in Filter(ps[start..], p) ==> x.at < y.at
  {
    var a, b := ps[..start], ps[start..];
    assert ps == a + b;
    FilterConcat(a, b, p);
    FilterMembers(a, p);
    FilterMembers(b, p);
    AlignedTimes(ps, start);
  }

  lemma {:induction false} AlignedTimes(ps: seq<Packet>, start: nat)
    requires Aligned(ps, start)
    ensures forall x, y :: x in ps[..start] && y in ps[start..] ==> x.at < y.at
  {
  }

  /** Recorded no earlier than the first packet of `ps[start..]`. */
  function Since(ps: seq<Packet>, start: nat): Logged -> bool {
    (l: Logged) => start < |ps| && ps[start].at <= l.at
  }

  /** The messages a half-stream's ring still holds, as recorded. */
  function KeptMessages(d: Channel, ls: seq<Logged>, sent: bool): seq<Logged>
    requires WellFormedLog(ls)
  {
    Filter(RingLog(d, ls), LoggedDir(sent))
  }

  /** For every half-stream of a report's pcap, whatever the budget and whatever the times, the
      inspector reads back exactly the messages its ring holds from the cut time on, each whole,
      in the order of time, and of equal times in the order recorded. */
  lemma {:induction false} ReportReads(names: seq<Channel>, logs: map<Channel, seq<Logged>>, budget: nat,
                                       start: nat, d: Channel, sent: bool)
    requires KnownLogs(logs) && Distinct(names) && d in logs && d in names
    requires IsBudgetCut(Merged(names, RecordLog(logs)), budget, start)
    ensures var merged := Merged(names, RecordLog(logs));
            Parse(HalfStream(merged[start..], SrcPort(d, sent), DstPort(d, sent)))
            == Messages(Filter(StableSort(KeptMessages(d, logs[d], sent), ByLoggedTime), Since(merged, start)))
  {
    hide RingEntries, Records, Filter, Flatten, StableSort, Parse, EncodeAll, Gathered, KeptMessages;
    var p := Between(SrcPort(d, sent), DstPort(d, sent));
    var mine, mineLogged := MergedHalfStream(names, logs, d, sent);
    var merged := Merged(names, RecordLog(logs));
    HalfStreamSplit(merged, start, p);
    var cut := CutBetweenEntries(mine, Filter(merged[..start], p), Filter(merged[start..], p));
    HeldBytes(d, mine[cut..], mineLogged[cut..]);
    ParseWhole(Messages(mineLogged[cut..]));
    AllSorted(names, RecordLog(logs));
    CutKeepsSince(d, merged, start, p, mine, mineLogged, cut);
  }

  /** The half-stream between two ports reads back as direction `sent` of channel `d`. */
  ghost predicate ReadsBetween(names: seq<Channel>, logs: map<Channel, seq<Logged>>, start: nat, src: nat, dst: nat,
                               d: Channel, sent: bool)
    requires KnownLogs(logs)
  {
    var merged := Merged(names, RecordLog(logs));
    d in logs && d in names && start <= |merged| ==>
      Parse(HalfStream(merged[start..], src, dst))
      == Messages(Filter(StableSort(KeptMessages(d, logs[d], sent), ByLoggedTime), Since(merged, start)))
  }

  /** By number: which ports' half-streams read back as which channel. */
  lemma {:induction false} ReportReadsByPort(names: seq<Channel>, logs: map<Channel, seq<Logged>>, budget: nat,
                                             start: nat)
    requires KnownLogs(logs) && Distinct(names)
    requires IsBudgetCut(Merged(names, RecordLog(logs)), budget, start)
    ensures ReadsBetween(names, logs, start, 10001, 5900, Main, true)
    ensures ReadsBetween(names, logs, start, 5900, 10001, Main, false)
    ensures ReadsBetween(names, logs, start, 10002, 5900, Display, true)
    ensures ReadsBetween(names, logs, start, 5900, 10002, Display, false)
    ensures ReadsBetween(names, logs, start, 10003, 5900, Inputs, true)
    ensures ReadsBetween(names, logs, start, 5900, 10003, Inputs, false)
    ensures ReadsBetween(names, logs, start, 10004, 5900, Cursor, true)
    ensures ReadsBetween(names, logs, start, 5900, 10004, Cursor, false)
    ensures ReadsBetween(names, logs, start, 10009, 5900, Usbredir, true)
    ensures ReadsBetween(names, logs, start, 5900, 10009, Usbredir, false)
    ensures ReadsBetween(names, logs, start, 10099, 5900, Playback, true)
    ensures ReadsBetween(names, logs, start, 5900, 10099, Playback, false)
  {
    hide ReadsBetween, KnownLogs, Distinct, Merged, RecordLog, IsBudgetCut, SrcPort, DstPort;
    PortNumbers();
    forall d, sent | d in CHANNELS
      ensures ReadsBetween(names, logs, start, SrcPort(d, sent), DstPort(d, sent), d, sent)
    {
      ReadsOwnPorts(names, logs, budget, start, d, sent);
    }
    assert forall c :: c in {Main, Display, Inputs, Cursor, Usbredir, Playback} ==> c in CHANNELS;
  }

  lemma {:induction false} ReadsOwnPorts(names: seq<Channel>, logs: map<Channel, seq<Logged>>, budget: nat, start: nat,
                                         d: Channel, sent: bool)
    requires KnownLogs(logs) && Distinct(names)
    requires IsBudgetCut(Merged(names, RecordLog(logs)), budget, start)
    ensures ReadsBetween(names, logs, start, SrcPort(d, sent), DstPort(d, sent), d, sent)
  {
    hide IsBudgetCut, Merged, RecordLog, Parse, HalfStream, KeptMessages, Filter, StableSort;
    if d in logs && d in names { ReportReads(names, logs, budget, start, d, sent); }
  }

  /** If the messages a half-stream's ring still holds were recorded in the order of time, what is
      read back is a suffix of the messages ever recorded on it, none missing in between. */
  lemma {:induction false} ReportRoundTrip(names: seq<Channel>, logs: map<Channel, seq<Logged>>, budget: nat,
                                           start: nat, d: Channel, sent: bool)
    returns (k: nat)
    requires KnownLogs(logs) && Distinct(names) && d in logs && d in names
    requires IsBudgetCut(Merged(names, RecordLog(logs)), budget, start)
    requires Sorted(KeptMessages(d, logs[d], sent), ByLoggedTime)
    ensures k <= |SentOrReceived(logs[d], sent)|
    ensures Parse(HalfStream(Merged(names, RecordLog(logs))[start..], SrcPort(d, sent), DstPort(d, sent)))
            == SentOrReceived(logs[d], sent)[k..]
  {
    hide Parse, Merged, RecordLog, Filter, StableSort, HalfStream, Sorted, KeptMessages, RingLog;
    var merged, mine := Merged(names, RecordLog(logs)), KeptMessages(d, logs[d], sent);
    ReportReads(names, logs, budget, start, d, sent);
    SortedStays(mine, ByLoggedTime);
    var cut := SinceIsSuffix(mine, merged, start);
    k := SuffixOfSuffix(d, logs[d], sent, cut);
  }

  /** Of messages in the order of time, those since a cut are a suffix. */
  lemma {:induction false} SinceIsSuffix(ls: seq<Logged>, merged: seq<Packet>, start: nat) returns (cut: nat)
    requires Sorted(ls, ByLoggedTime)
    ensures cut <= |ls| && Filter(ls, Since(merged, start)) == ls[cut..]
  {
    hide Filter;
    var q := Since(merged, start);
    cut := 0;
    while cut < |ls| && !q(ls[cut])
      invariant cut <= |ls| && forall i :: 0 <= i < cut ==> !q(ls[i])
    {
      cut := cut + 1;
    }
    forall i | cut <= i < |ls| ensures q(ls[i]) {
      if cut < i { assert ByLoggedTime(ls[cut], ls[i]); }
    }
    FilterNone(ls[..cut], q);
    FilterAll(ls[cut..], q);
    FilterConcat(ls[..cut], ls[cut..], q);
    assert ls == ls[..cut] + ls[cut..];
  }

  // ----- The order recorded, exactly when it is the order of time

  /** Whatever the budget, the half-stream reads back in the order recorded. */
  ghost predicate ReadsAsRecorded(names: seq<Channel>, logs: map<Channel, seq<Logged>>, d: Channel, sent: bool)
    requires KnownLogs(logs) && d in logs
  {
    var merged := Merged(names, RecordLog(logs));
    forall budget: nat, start: nat :: IsBudgetCut(merged, budget, start) ==>
      Parse(HalfStream(merged[start..], SrcPort(d, sent), DstPort(d, sent)))
      == Messages(Filter(KeptMessages(d, logs[d], sent), Since(merged, start)))
  }

  ghost predicate DistinctMessages(ls: seq<Logged>) {
    forall i, j :: 0 <= i < j < |ls| ==> ls[i].message != ls[j].message
  }

  /** With different messages, a half-stream reads back in the order recorded under every budget if
      and only if the times of what its ring holds do not decrease. */
  lemma {:induction false} RecordedOrderIff(names: seq<Channel>, logs: map<Channel, seq<Logged>>, d: Channel,
                                            sent: bool)
    requires KnownLogs(logs) && Distinct(names) && d in logs && d in names
    requires DistinctMessages(KeptMessages(d, logs[d], sent))
    ensures ReadsAsRecorded(names, logs, d, sent) <==> Sorted(KeptMessages(d, logs[d], sent), ByLoggedTime)
  {
    hide Merged, RecordLog, KeptMessages, Filter, StableSort, Parse, HalfStream, Messages, PcapBytes;
    var merged, mine := Merged(names, RecordLog(logs)), KeptMessages(d, logs[d], sent);
    if Sorted(mine, ByLoggedTime) {
      SortedStays(mine, ByLoggedTime);
      forall budget: nat, start: nat | IsBudgetCut(merged, budget, start)
        ensures Parse(HalfStream(merged[start..], SrcPort(d, sent), DstPort(d, sent)))
                == Messages(Filter(mine, Since(merged, start)))
      {
        ReportReads(names, logs, budget, start, d, sent);
      }
    } else if ReadsAsRecorded(names, logs, d, sent) {
      WholePcapIsACut(merged);
      ReportReads(names, logs, PcapBytes(merged), 0, d, sent);
      EverythingSinceStart(names, logs, d, sent);
      SameMessagesSameOrder(mine);
      LoggedTimeTotalPreorder();
      SortedIffUnchanged(mine, ByLoggedTime);
    }
  }

  lemma {:induction false} WholePcapIsACut(ps: seq<Packet>)
    ensures IsBudgetCut(ps, PcapBytes(ps), 0)
  {
    assert ps[0..] == ps;
  }

  lemma {:induction false} EverythingSinceStart(names: seq<Channel>, logs: map<Channel, seq<Logged>>, d: Channel,
                                                sent: bool)
    requires KnownLogs(logs) && Distinct(names) && d in logs && d in names
    ensures var merged, mine := Merged(names, RecordLog(logs)), KeptMessages(d, logs[d], sent);
            && Filter(mine, Since(merged, 0)) == mine
            && Filter(StableSort(mine, ByLoggedTime), Since(merged, 0)) == StableSort(mine, ByLoggedTime)
  {
    hide Merged, RecordLog, KeptMessages, Filter, StableSort, Flatten, Holds;
    var merged, mine := Merged(names, RecordLog(logs)), KeptMessages(d, logs[d], sent);
    var es, ls := MergedHalfStream(names, logs, d, sent);
    AllSorted(names, RecordLog(logs));
    LoggedTimeTotalPreorder();
    StableSortSorts(mine, ByLoggedTime);
    FilterMembers(merged, Between(SrcPort(d, sent), DstPort(d, sent)));
    forall l | l in ls ensures Since(merged, 0)(l) {
      var i :| 0 <= i < |ls| && ls[i] == l;
      HoldsTime(d, es[i], ls[i]);
      FlattenMember(es, i);
      assert merged[0..] == merged;
      SortedFrom(merged, 0, Packet(es[i].at, es[i].first));
    }
    forall l | l in mine ensures Since(merged, 0)(l) {
      assert l in multiset(mine);
      assert l in multiset(ls);
    }
    FilterAll(mine, Since(merged, 0));
    FilterAll(ls, Since(merged, 0));
  }

  lemma {:induction false} SameMessagesSameOrder(ls: seq<Logged>)
    requires DistinctMessages(ls)
    ensures Messages(StableSort(ls, ByLoggedTime)) == Messages(ls) ==> StableSort(ls, ByLoggedTime) == ls
  {
    hide StableSort, Sorted, TotalPreorder;
    var s := StableSort(ls, ByLoggedTime);
    LoggedTimeTotalPreorder();
    StableSortSorts(ls, ByLoggedTime);
    if Messages(s) == Messages(ls) {
      forall i | 0 <= i < |ls| ensures s[i] == ls[i] {
        assert Messages(s)[i] == Messages(ls)[i];
        assert s[i] in multiset(s);
        var j :| 0 <= j < |ls| && ls[j] == s[i];
        assert ls[j].message == ls[i].message;
      }
    }
  }

  lemma {:induction false} FlattenMember(es: seq<Entry>, i: nat)
    requires i < |es|
    ensures Packet(es[i].at, es[i].first) in Flatten(es)
  {
    var n := |es| - 1;
    if i < n {
      FlattenMember(es[..n], i);
    } else {
      assert PacketsOf(es[n])[0] == Packet(es[n].at, es[n].first);
    }
  }

  lemma {:induction false} CutKeepsSince(c: Channel, merged: seq<Packet>, start: nat, p: Packet -> bool,
                                         es: seq<Entry>, ls: seq<Logged>, cut: nat)
    requires Sorted(merged, ByTime) && Aligned(merged, start) && AllHold(c, es, ls) && cut <= |es|
    requires Flatten(es[..cut]) == Filter(merged[..start], p) && Flatten(es[cut..]) == Filter(merged[start..], p)
    ensures ls[cut..] == Filter(ls, Since(merged, start))
  {
    hide Flatten, Filter, Holds;
    FilterMembers(merged[..start], p);
    FilterMembers(merged[start..], p);
    var q := Since(merged, start);
    forall l | l in ls[..cut] ensures !q(l) {
      var i :| 0 <= i < cut && ls[i] == l;
      HoldsTime(c, es[i], ls[i]);
      FlattenMember(es[..cut], i);
      assert Packet(es[i].at, es[i].first) in merged[..start];
    }
    forall l | l in ls[cut..] ensures q(l) {
      var i :| cut <= i < |ls| && ls[i] == l;
      HoldsTime(c, es[i], ls[i]);
      FlattenMember(es[cut..], i - cut);
      assert Packet(es[i].at, es[i].first) in merged[start..];
      SortedFrom(merged, start, Packet(es[i].at, es[i].first));
    }
    FilterNone(ls[..cut], q);
    FilterAll(ls[cut..], q);
    FilterConcat(ls[..cut], ls[cut..], q);
    assert ls == ls[..cut] + ls[cut..];
  }

  lemma {:induction false} HoldsTime(c: Channel, e: Entry, l: Logged)
    requires Holds(c, e, l)
    ensures e.at == l.at
  {
  }

  lemma {:induction false} SortedFrom(ps: seq<Packet>, start: nat, x: Packet)
    requires Sorted(ps, ByTime) && start <= |ps| && x in ps[start..]
    ensures start < |ps| && ps[start].at <= x.at
  {
    var j :| start <= j < |ps| && ps[j] == x;
    if start < j { assert ByTime(ps[start], ps[j]); }
  }

  /** A half-stream of the merge is its ring's entries of that direction, whole, sorted by time. */
  lemma {:induction false} MergedHalfStream(names: seq<Channel>, logs: map<Channel, seq<Logged>>, d: Channel,
                                            sent: bool)
    returns (mine: seq<Entry>, mineLogged: seq<Logged>)
    requires KnownLogs(logs) && Distinct(names) && d in logs && d in names
    ensures mineLogged == StableSort(KeptMessages(d, logs[d], sent), ByLoggedTime) && AllHold(d, mine, mineLogged)
    ensures Filter(Merged(names, RecordLog(logs)), Between(SrcPort(d, sent), DstPort(d, sent))) == Flatten(mine)
  {
    hide Records, Retained, Filter, Flatten, StableSort, Gathered, RingLog, RingEntries;
    var es := RingEntries(d, Records(logs[d]));
    var ours := Filter(es, EntryDir(sent));
    mine, mineLogged := StableSort(ours, ByEntryTime), StableSort(KeptMessages(d, logs[d], sent), ByLoggedTime);
    RingHoldsSuffix(d, logs[d]);
    AllHoldFilter(d, es, RingLog(d, logs[d]), sent);
    AllHoldSort(d, ours, KeptMessages(d, logs[d], sent));
    GatheredHalfStream(names, logs, d, sent);
    ByTimeTotalPreorder();
    StableSortFilter(Gathered(names, RecordLog(logs)), ByTime, Between(SrcPort(d, sent), DstPort(d, sent)));
    SortKeepsEntriesWhole(ours);
  }

  lemma {:induction false} ParseWhole(ms: seq<Message>)
    requires forall m :: m in ms ==> WellFormed(m)
    ensures Parse(EncodeAll(ms)) == ms
  {
    ParseEncodeAll(ms, [], Message(0, []));
    assert EncodeAll(ms) + [] == EncodeAll(ms);
  }

  lemma {:induction false} MessagesFrom(ls: seq<Logged>, k: nat)
    requires k <= |ls|
    ensures Messages(ls[k..]) == Messages(ls)[k..]
  {
  }

  lemma {:induction false} RingIsSuffix(c: Channel, ls: seq<Logged>) returns (n: nat)
    requires WellFormedLog(ls)
    ensures n <= |ls| && RingLog(c, ls) == ls[n..]
  {
    hide RingLog, AllHold, RingEntries, Records;
    RingHoldsSuffix(c, ls);
    n :| 0 <= n <= |ls| && RingLog(c, ls) == ls[n..];
  }

  /** What a ring holds of one direction is a suffix of all recorded in it. */
  lemma {:induction false} KeptIsSuffix(c: Channel, ls: seq<Logged>, sent: bool) returns (j: nat)
    requires WellFormedLog(ls)
    ensures j <= |Filter(ls, LoggedDir(sent))| && KeptMessages(c, ls, sent) == Filter(ls, LoggedDir(sent))[j..]
  {
    hide Filter, RingLog, WellFormedLog;
    var p := LoggedDir(sent);
    var n := RingIsSuffix(c, ls);
    assert ls == ls[..n] + ls[n..];
    FilterConcat(ls[..n], ls[n..], p);
    j := |Filter(ls[..n], p)|;
    TakeApart(Filter(ls[..n], p), Filter(ls[n..], p));
  }

  lemma {:induction false} SuffixOfSuffix(c: Channel, ls: seq<Logged>, sent: bool, cut: nat) returns (k: nat)
    requires WellFormedLog(ls) && cut <= |KeptMessages(c, ls, sent)|
    ensures k <= |SentOrReceived(ls, sent)|
    ensures Messages(KeptMessages(c, ls, sent)[cut..]) == SentOrReceived(ls, sent)[k..]
  {
    hide Filter, Messages, KeptMessages, WellFormedLog;
    var all := Filter(ls, LoggedDir(sent));
    var j := KeptIsSuffix(c, ls, sent);
    k := j + cut;
    assert all[j..][cut..] == all[k..];
    MessagesFrom(all, k);
  }

  // ----- The live capture

  /** Everything handed over in one direction, joined. */
  function DataIn(history: seq<Record>, sent: bool): seq<byte> {
    if history == [] then []
    else
      var r := history[|history| - 1];
      DataIn(history[..|history| - 1], sent) + (if r.sent == sent then r.data else [])
  }

  /** A record's packets belong to its own direction's half-stream and carry its data. */
  lemma {:induction false} RecordStream(c: Channel, ends: Ends, r: Record, sent: bool)
    ensures HalfStream(PacketsOf(EntryFor(c, ends, r)), SrcPort(c, sent), DstPort(c, sent))
            == if r.sent == sent then r.data else []
  {
    hide PacketBytes, PacketsOf, Filter, FramesFor;
    var e, p := EntryFor(c, ends, r), Between(SrcPort(c, sent), DstPort(c, sent));
    var frames := FramesFor(c, r.sent, ends, r.data);
    FramesForCarries(c, r.sent, ends, r.data);
    assert [frames[0]] + frames[1..] == frames;
    RecordPackets(e, frames, c, sent);
    AllPackets(PacketsOf(e), SrcPort(c, sent), DstPort(c, sent));
    StampedPackets(e);
    StampedBytes(e.at, frames);
    NoBytes();
  }

  lemma {:induction false} RecordPackets(e: Entry, frames: seq<Frame>, c: Channel, sent: bool)
    requires [e.first] + e.more == frames
    requires forall i :: 0 <= i < |frames| ==>
                           && frames[i].Frame?
                           && frames[i].srcPort == SrcPort(c, e.sent) && frames[i].dstPort == DstPort(c, e.sent)
    ensures forall p :: p in PacketsOf(e) ==> (Between(SrcPort(c, sent), DstPort(c, sent))(p) <==> e.sent == sent)
  {
  }

  lemma {:induction false} StampedPackets(e: Entry)
    ensures PacketsOf(e) == Stamped(e.at, [e.first] + e.more)
  {
  }

  lemma {:induction false} NoBytes()
    ensures PacketBytes([]) == []
  {
  }

  lemma {:induction false} HalfStreamConcat(a: seq<Packet>, b: seq<Packet>, srcPort: nat, dstPort: nat)
    ensures HalfStream(a + b, srcPort, dstPort) == HalfStream(a, srcPort, dstPort) + HalfStream(b, srcPort, dstPort)
  {
    hide Filter, PacketBytes;
    var p := Between(srcPort, dstPort);
    FilterConcat(a, b, p);
    PacketBytesConcat(Filter(a, p), Filter(b, p));
  }

  /** Whatever is handed to a channel's live writer, in whatever pieces, the file's half-stream of a
      direction is all that was handed over in that direction, joined. */
  lemma {:induction false} LiveStream(c: Channel, history: seq<Record>, sent: bool)
    ensures HalfStream(Flatten(EntriesOf(c, history)), SrcPort(c, sent), DstPort(c, sent)) == DataIn(history, sent)
  {
    if history == [] {
      NoBytes();
    } else {
      hide HalfStream, Flatten, PacketsOf, EntryFor, EndsAfter;
      var init, r := history[..|history| - 1], history[|history| - 1];
      var e := EntryFor(c, EndsAfter(init), r);
      LiveStream(c, init, sent);
      FlattenSnoc(EntriesOf(c, init), e);
      HalfStreamConcat(Flatten(EntriesOf(c, init)), PacketsOf(e), SrcPort(c, sent), DstPort(c, sent));
      RecordStream(c, EndsAfter(init), r, sent);
    }
  }

  /** The live capture reads back every whole message of a direction however the reads cut it up: if
      what was handed over in it, joined, is messages followed by a torn one, exactly those. */
  lemma {:induction false} LiveReads(c: Channel, history: seq<Record>, sent: bool, ms: seq<Message>,
                                     torn: seq<byte>, next: Message)
    requires forall m :: m in ms ==> WellFormed(m)
    requires WellFormed(next) && torn <= Encode(next) && torn != Encode(next)
    requires DataIn(history, sent) == EncodeAll(ms) + torn
    ensures Parse(HalfStream(Flatten(EntriesOf(c, history)), SrcPort(c, sent), DstPort(c, sent))) == ms
  {
    hide HalfStream, Parse, Flatten, EntriesOf, Encode, EncodeAll;
    LiveStream(c, history, sent);
    ParseEncodeAll(ms, torn, next);
  }

  /** By number: a live file's half-stream between a channel's port and 5900 is that direction's bytes. */
  predicate LiveBetween(c: Channel, history: seq<Record>, port: nat) {
    var file := Flatten(EntriesOf(c, history));
    && HalfStream(file, port, 5900) == DataIn(history, true)
    && HalfStream(file, 5900, port) == DataIn(history, false)
  }

  /** The five channels that have a file. */
  lemma {:induction false} LiveStreamByPort(history: seq<Record>)
    ensures LiveBetween(Main, history, 10001) && LiveBetween(Display, history, 10002)
    ensures LiveBetween(Inputs, history, 10003) && LiveBetween(Cursor, history, 10004)
    ensures LiveBetween(Usbredir, history, 10009)
  {
    hide HalfStream, Flatten, EntriesOf, DataIn, SrcPort, DstPort;
    PortNumbers();
    forall c, sent
      ensures HalfStream(Flatten(EntriesOf(c, history)), SrcPort(c, sent), DstPort(c, sent)) == DataIn(history, sent)
    {
      LiveStream(c, history, sent);
    }
  }

  lemma {:induction false} LoggedSnoc(ls: seq<Logged>, sent: bool)
    requires ls != []
    ensures var init, l := ls[..|ls| - 1], ls[|ls| - 1];
            SentOrReceived(ls, sent) == SentOrReceived(init, sent) + (if l.sent == sent then [l.message] else [])
  {
    var init, l := ls[..|ls| - 1], ls[|ls| - 1];
    assert ls == init + [l];
    FilterSnoc(init, l, LoggedDir(sent));
  }

  lemma {:induction false} DataSnoc(history: seq<Record>, r: Record, sent: bool)
    ensures DataIn(history + [r], sent)
            == if r.sent == sent then DataIn(history, sent) + r.data else DataIn(history, sent)
  {
    assert (history + [r])[..|history|] == history;
    assert DataIn(history, sent) + [] == DataIn(history, sent);
  }

  lemma {:induction false} SentWellFormed(ls: seq<Logged>, sent: bool)
    requires WellFormedLog(ls)
    ensures forall m :: m in SentOrReceived(ls, sent) ==> WellFormed(m)
  {
    hide Filter, WellFormed;
    FilterMembers(ls, LoggedDir(sent));
  }

  lemma {:induction false} RecordsSnoc(ls: seq<Logged>)
    requires WellFormedLog(ls) && ls != []
    ensures var init, l := ls[..|ls| - 1], ls[|ls| - 1];
            && WellFormedLog(init) && WellFormed(l.message)
            && Records(ls) == Records(init) + [Record(l.sent, l.at, Encode(l.message))]
  {
    hide Encode, WellFormed;
    assert ls[|ls| - 1] in ls;
  }

  lemma {:induction false} LoggedData(ls: seq<Logged>, sent: bool)
    requires WellFormedLog(ls)
    ensures forall m :: m in SentOrReceived(ls, sent) ==> WellFormed(m)
    ensures DataIn(Records(ls), sent) == EncodeAll(SentOrReceived(ls, sent))
  {
    SentWellFormed(ls, sent);
    if ls == [] {
      assert SentOrReceived(ls, sent) == [];
    } else {
      hide SentOrReceived, Encode, EncodeAll, DataIn, Records, WellFormed, WellFormedLog;
      var init, l := ls[..|ls| - 1], ls[|ls| - 1];
      RecordsSnoc(ls);
      LoggedData(init, sent);
      LoggedSnoc(ls, sent);
      DataSnoc(Records(init), Record(l.sent, l.at, Encode(l.message)), sent);
      if l.sent == sent {
        EncodeAllPush(SentOrReceived(init, sent), l.message);
      } else {
        assert SentOrReceived(init, sent) + [] == SentOrReceived(init, sent);
      }
    }
  }

  /** In particular, when every piece handed over is one message, every message reads back. */
  lemma {:induction false} LiveRoundTrip(c: Channel, ls: seq<Logged>, sent: bool)
    requires WellFormedLog(ls)
    ensures Parse(HalfStream(Flatten(EntriesOf(c, Records(ls))), SrcPort(c, sent), DstPort(c, sent)))
            == SentOrReceived(ls, sent)
  {
    hide Records, HalfStream, Flatten, Parse, EncodeAll, EntriesOf, SentOrReceived;
    LoggedData(ls, sent);
    assert EncodeAll(SentOrReceived(ls, sent)) + [] == EncodeAll(SentOrReceived(ls, sent));
    LiveReads(c, Records(ls), sent, SentOrReceived(ls, sent), [], Message(0, []));
  }

  // ----- The whole way

  /** Drain a report from the buffers and inspect one half-stream of it: every message the ring
      holds from the cut time on, whole, in the order of time. */
  method ReadBack(buffers: TrafficBuffers, names: seq<Channel>, budget: nat, timeFits: nat -> bool, d: Channel,
                  sent: bool, ghost logs: map<Channel, seq<Logged>>)
    returns (messages: Option<seq<Message>>, start: nat)
    requires buffers.Valid() && KnownLogs(logs) && buffers.Log() == RecordLog(logs)
    requires Distinct(names) && d in logs && d in names
    ensures IsBudgetCut(Merged(names, buffers.Log()), budget, start)
    ensures messages.Some? <==> forall p :: p in Merged(names, buffers.Log())[start..] ==> timeFits(p.at)
    ensures messages.Some? ==>
              messages.value == Messages(Filter(StableSort(KeptMessages(d, logs[d], sent), ByLoggedTime),
                                                Since(Merged(names, buffers.Log()), start)))
  {
    hide Merged, IsBudgetCut, Filter, StableSort, Parse, HalfStream, Accounts, KeptMessages, RecordLog;
    var report;
    report, start := buffers.DrainWithin(names, budget, timeFits);
    if report.None? {
      return None, start;
    }
    var found := Inspect(report.value.kept, SrcPort(d, sent), DstPort(d, sent));
    ReportReads(names, logs, budget, start, d, sent);
    messages := Some(found);
  }

  // ----- Two records whose times decrease

  lemma {:induction false} ShortEntry(c: Channel, ends: Ends, r: Record)
    requires |r.data| <= MAX_PAYLOAD
    ensures EntryBytes(EntryFor(c, ends, r)) == 54 + |r.data|
  {
    hide EntryBytes, EntryFor;
    EntrySize(c, ends, r);
  }

  /** A ring holds two short messages. */
  lemma {:induction false} HoldsTwo(c: Channel, ls: seq<Logged>)
    requires WellFormedLog(ls) && |ls| == 2 && forall i :: 0 <= i < 2 ==> ls[i].message.body == []
    ensures RingLog(c, ls) == ls
  {
    hide EntryBytes, EntryFor, EndsAfter;
    var rs := Records(ls);
    var es := EntriesOf(c, rs);
    EntryAt(c, rs, 0);
    EntryAt(c, rs, 1);
    ShortEntry(c, EndsAfter(rs[..0]), rs[0]);
    ShortEntry(c, EndsAfter(rs[..1]), rs[1]);
    var k := RetainedIsLongestSuffix(es, CapOf(c));
    TwoBytes(es);
    assert es[0..] == es;
    assert k == 0;
  }

  lemma {:induction false} TwoBytes(es: seq<Entry>)
    requires |es| == 2
    ensures RingBytes(es) == EntryBytes(es[0]) + EntryBytes(es[1])
  {
    hide EntryBytes;
    var rest := es[1..];
    assert rest[0] == es[1] && rest[1..] == [];
    assert RingBytes(rest) == EntryBytes(rest[0]) + RingBytes([]);
  }

  const FIRST_RECORDED := Logged(true, 2, Message(1, []))
  const SECOND_RECORDED := Logged(true, 1, Message(2, []))
  const DECREASING: map<Channel, seq<Logged>> := map[Main := [FIRST_RECORDED, SECOND_RECORDED]]

  /** Two messages recorded with decreasing times, and a budget for all: they read back swapped. */
  lemma {:induction false} DecreasingTimesSwap()
    ensures KnownLogs(DECREASING)
    ensures var merged := Merged([Main], RecordLog(DECREASING));
            && IsBudgetCut(merged, PcapBytes(merged), 0)
            && Parse(HalfStream(merged[0..], SrcPort(Main, true), DstPort(Main, true)))
               == [Message(2, []), Message(1, [])]
  {
    hide Merged, RecordLog, Parse, HalfStream, RingLog, PcapBytes, IsBudgetCut, Filter, StableSort;
    var ls, names := DECREASING[Main], [Main];
    var merged := Merged(names, RecordLog(DECREASING));
    HoldsTwo(Main, ls);
    FilterAll(ls, LoggedDir(true));
    SwapTwo(FIRST_RECORDED, SECOND_RECORDED);
    WholePcapIsACut(merged);
    ReportReads(names, DECREASING, PcapBytes(merged), 0, Main, true);
    EverythingSinceStart(names, DECREASING, Main, true);
  }

  lemma {:induction false} SwapTwo(x: Logged, y: Logged)
    requires y.at < x.at
    ensures StableSort([x, y], ByLoggedTime) == [y, x]
  {
    hide StableSort, Insert;
    StableSortSnoc([], x, ByLoggedTime);
    SortedStays([], ByLoggedTime);
    InsertBehind([], x, ByLoggedTime);
    assert [] + [x] == [x] && [x] + [y] == [x, y];
    StableSortSnoc([x], y, ByLoggedTime);
    InsertSnoc([], x, y, ByLoggedTime);
    InsertBehind([], y, ByLoggedTime);
  }
}
