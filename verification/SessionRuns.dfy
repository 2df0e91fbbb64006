/** Every interleaving of attempts, the event pump and the relay around one session link. */
module SessionRuns {
  import opened Options
  import opened SessionLink

  /** Where the pump stands with the event after those it has handed on. */
  datatype Pump =
    | Ready
    | Beginning                    // the event announces the session; the link is not told yet
    | Handing(firstSurface: bool)  // on its way to the bus
    | Announcing                   // handed on; the link is not told of the surface yet

  datatype Relay = Idle | Took(item: nat, inOutage: bool) | Sending(item: nat, to: Option<nat>)

  datatype Handed = Handed(attempt: nat, event: Event)

  /** An item whose route was looked up: where it led, what was going on then, and whether it was
      received in an outage. */
  datatype Taken = Taken(item: nat, to: Option<nat>, attempt: nat, outage: bool, receivedInOutage: bool)

  /** How an item came out: whether the queue it was sent to took it, and whose queue that was. */
  datatype Settled = Settled(item: nat, accepted: bool, delivered: Option<nat>)

  datatype Sys = Sys(
    link: LinkState,
    attempt: nat, active: bool,
    previous: seq<seq<Event>>,  // the events of each ended attempt
    emitted: seq<Event>,        // the events of the current attempt
    pumped: nat,                // how many of them the bus was handed
    pump: Pump, began: bool, surface: bool,
    bus: seq<Handed>,
    relay: Relay, taken: seq<Taken>, settled: seq<Settled>, dropped: nat)

  const START := Sys(FIRST_LINK, 0, false, [], [], 0, Ready, false, false, [], Idle, [], [], 0)

  datatype Act =
    | Start | Emit(event: Event) | Receive | Begin | Hand | Announce | Agent(up: bool) | End
    | Take(item: nat) | Look | Settle(accepted: bool)

  /** No session the relay could send to. */
  predicate Outage(s: Sys) {
    !s.active || (s.attempt > 1 && !s.began)
  }

  predicate Enabled(s: Sys, a: Act) {
    match a
    case Start => !s.active
    case Emit(_) => s.active
    case Receive => s.active && s.pump.Ready? && s.pumped < |s.emitted|
    case Begin => s.active && s.pump.Beginning?
    case Hand => s.active && s.pump.Handing? && s.pumped < |s.emitted|
    case Announce => s.active && s.pump.Announcing?
    case Agent(_) => s.active
    case End => s.active && s.pump.Ready? && s.pumped == |s.emitted|
    case Take(_) => s.relay.Idle?
    case Look => s.relay.Took?
    case Settle(_) => s.relay.Sending?
  }

  function Routes(s: Sys): Option<nat> {
    if s.attempt > 1 then Some(s.attempt) else None
  }

  function FirstSurface(s: Sys, began: bool, e: Event): bool {
    began && !s.surface && IsSurface(e)
  }

  function Next(s: Sys, a: Act): Sys
    requires Enabled(s, a)
  {
    match a
    case Start =>
      var n := s.attempt + 1;
      s.(attempt := n, active := true, emitted := [], pumped := 0, pump := Ready, began := false, surface := false,
         link := if n == 1 then Routed(s.link, n) else s.link)
    case Emit(e) => s.(emitted := s.emitted + [e])
    case Receive =>
      var e := s.emitted[s.pumped];
      s.(pump := if !s.began && e.SessionInitialized? then Beginning else Handing(FirstSurface(s, s.began, e)))
    case Begin =>
      s.(link := SessionBegan(s.link, Routes(s)), began := true, pump := Handing(false))
    case Hand =>
      s.(bus := s.bus + [Handed(s.attempt, s.emitted[s.pumped])], pumped := s.pumped + 1,
         pump := if s.pump.firstSurface then Announcing else Ready)
    case Announce => s.(link := SurfaceArrived(s.link), surface := true, pump := Ready)
    case Agent(up) => s.(link := s.link.(agentConnected := up))
    case End =>
      s.(link := SessionEnded(s.link), active := false, previous := s.previous + [s.emitted],
         emitted := [], pumped := 0)
    case Take(item) => s.(relay := Took(item, Outage(s)))
    case Look =>
      s.(relay := Sending(s.relay.item, s.link.input),
         taken := s.taken + [Taken(s.relay.item, s.link.input, s.attempt, Outage(s), s.relay.inOutage)])
    case Settle(accepted) =>
      var to := if accepted then s.relay.to else None;
      s.(relay := Idle, settled := s.settled + [Settled(s.relay.item, accepted, to)],
         dropped := s.dropped + if to.None? then 1 else 0)
  }

  // ----- The invariant

  function Tagged(attempt: nat, es: seq<Event>): (hs: seq<Handed>)
    ensures |hs| == |es|
  {
    seq(|es|, i requires 0 <= i < |es| => Handed(attempt, es[i]))
  }

  /** Ended attempts' events, attempt by attempt from the first. */
  function AllTagged(previous: seq<seq<Event>>): seq<Handed> {
    if previous == [] then []
    else AllTagged(previous[..|previous| - 1]) + Tagged(|previous|, previous[|previous| - 1])
  }

  ghost predicate BusInv(s: Sys) {
    && s.pumped <= |s.emitted|
    && |s.previous| == (if s.active then s.attempt - 1 else s.attempt)
    && (s.active ==> s.attempt >= 1)
    && (!s.active ==> s.emitted == [] && s.pumped == 0)
    && s.bus == AllTagged(s.previous) + Tagged(s.attempt, s.emitted[..s.pumped])
  }

  ghost predicate PumpInv(s: Sys) {
    s.active ==>
      && s.pumped <= |s.emitted|
      && var done := s.emitted[..s.pumped];
      match s.pump
      case Ready => s.began == Announced(done) && s.surface == SurfaceAfter(done)
      case Beginning =>
        && s.pumped < |s.emitted| && s.emitted[s.pumped].SessionInitialized?
        && !s.began && !Announced(done) && !SurfaceAfter(done) && !s.surface
      case Handing(first) =>
        && s.pumped < |s.emitted|
        && s.began == (Announced(done) || s.emitted[s.pumped].SessionInitialized?)
        && s.surface == SurfaceAfter(done)
        && first == (s.began && !s.surface && IsSurface(s.emitted[s.pumped]))
      case Announcing => s.began && Announced(done) && SurfaceAfter(done) && !s.surface
  }

  ghost predicate LinkInv(s: Sys) {
    && s.link.input == s.link.resize == (if Outage(s) then None else Some(s.attempt))
    && s.link.connected == (s.attempt == 0 || !Outage(s))
    && s.link.spiceUp == (s.attempt == 0 || (s.active && (s.attempt == 1 || s.surface)))
    && (!s.active ==> !s.link.agentConnected)
  }

  function Drops(settled: seq<Settled>): nat {
    if settled == [] then 0
    else Drops(settled[..|settled| - 1]) + (if settled[|settled| - 1].delivered.None? then 1 else 0)
  }

  ghost predicate RelayInv(s: Sys) {
    && |s.taken| == |s.settled| + (if s.relay.Sending? then 1 else 0)
    && (s.relay.Sending? ==> s.taken[|s.taken| - 1].item == s.relay.item && s.taken[|s.taken| - 1].to == s.relay.to)
    && (forall i :: 0 <= i < |s.settled| ==>
                      && s.settled[i].item == s.taken[i].item
                      && s.settled[i].delivered == if s.settled[i].accepted then s.taken[i].to else None)
    && (forall i :: 0 <= i < |s.taken| ==>
                      s.taken[i].to == if s.taken[i].outage then None else Some(s.taken[i].attempt))
    && s.dropped == Drops(s.settled)
  }

  ghost predicate Inv(s: Sys) {
    BusInv(s) && PumpInv(s) && LinkInv(s) && RelayInv(s)
  }

  // ----- Every step keeps it

  lemma {:induction false} BusStep(s: Sys, a: Act)
    requires Inv(s) && Enabled(s, a)
    ensures BusInv(Next(s, a))
  {
    hide PumpInv, LinkInv, RelayInv, AllTagged, Tagged;
    match a
    case Start => BusStarts(s);
    case Emit(e) => assert s.active && (s.emitted + [e])[..s.pumped] == s.emitted[..s.pumped];
    case Hand => BusHands(s);
    case End => BusEnds(s);
    case _ =>
  }

  lemma {:induction false} BusStarts(s: Sys)
    requires BusInv(s) && !s.active
    ensures BusInv(Next(s, Start))
  {
    hide AllTagged;
    assert Tagged(s.attempt, s.emitted[..0]) == [] == Tagged(s.attempt + 1, [][..0]);
  }

  lemma {:induction false} BusHands(s: Sys)
    requires BusInv(s) && Enabled(s, Hand)
    ensures BusInv(Next(s, Hand))
  {
    hide AllTagged;
    assert Tagged(s.attempt, s.emitted[..s.pumped + 1])
        == Tagged(s.attempt, s.emitted[..s.pumped]) + [Handed(s.attempt, s.emitted[s.pumped])];
  }

  lemma {:induction false} BusEnds(s: Sys)
    requires BusInv(s) && Enabled(s, End)
    ensures BusInv(Next(s, End))
  {
    var t := Next(s, End);
    assert t.previous[..|s.previous|] == s.previous;
    assert s.emitted[..s.pumped] == s.emitted;
    assert Tagged(t.attempt, [][..0]) == [];
  }

  lemma {:induction false} PumpStep(s: Sys, a: Act)
    requires Inv(s) && Enabled(s, a)
    ensures PumpInv(Next(s, a))
  {
    hide BusInv, LinkInv, RelayInv;
    match a
    case Start => assert Next(s, a).emitted[..0] == [];
    case Emit(e) => assert s.active && (s.emitted + [e])[..s.pumped] == s.emitted[..s.pumped];
    case Receive => SurfaceNeedsAnnouncement(s.emitted[..s.pumped]);
    case Hand => PumpHands(s);
    case Begin =>
    case Announce =>
    case _ =>
  }

  lemma {:induction false} PumpHands(s: Sys)
    requires PumpInv(s) && Enabled(s, Hand)
    ensures PumpInv(Next(s, Hand))
  {
    hide Announced, SurfaceAfter;
    var done := s.emitted[..s.pumped];
    assert s.emitted[..s.pumped + 1] == done + [s.emitted[s.pumped]];
    AnnouncedSnoc(done, s.emitted[s.pumped]);
    SurfaceNeedsAnnouncement(done);
  }

  lemma {:induction false} LinkStep(s: Sys, a: Act)
    requires Inv(s) && Enabled(s, a)
    ensures LinkInv(Next(s, a))
  {
    hide Announced, SurfaceAfter, RelayInv, AllTagged;
  }

  lemma {:induction false} RelayStep(s: Sys, a: Act)
    requires Inv(s) && Enabled(s, a)
    ensures RelayInv(Next(s, a))
  {
    hide PumpInv, BusInv;
    match a
    case Look => RelayLooks(s);
    case Settle(accepted) => RelaySettles(s, accepted);
    case _ =>
  }

  lemma {:induction false} RelayLooks(s: Sys)
    requires RelayInv(s) && s.relay.Took? && s.link.input == if Outage(s) then None else Some(s.attempt)
    ensures RelayInv(Next(s, Look))
  {
    hide Drops, Outage;
  }

  lemma {:induction false} RelaySettles(s: Sys, accepted: bool)
    requires RelayInv(s) && s.relay.Sending?
    ensures RelayInv(Next(s, Settle(accepted)))
  {
    assert Next(s, Settle(accepted)).settled[..|s.settled|] == s.settled;
  }

  function After(acts: seq<Act>): Sys
    requires Run(acts)
    decreases |acts|, 1
  {
    if acts == [] then START else Next(After(acts[..|acts| - 1]), acts[|acts| - 1])
  }

  predicate Run(acts: seq<Act>)
    decreases |acts|, 0
  {
    acts != [] ==> Run(acts[..|acts| - 1]) && Enabled(After(acts[..|acts| - 1]), acts[|acts| - 1])
  }

  lemma {:induction false} RunInv(acts: seq<Act>)
    requires Run(acts)
    ensures Inv(After(acts))
  {
    if acts != [] {
      hide BusInv, PumpInv, LinkInv, RelayInv, Next, Enabled;
      var s, a := After(acts[..|acts| - 1]), acts[|acts| - 1];
      RunInv(acts[..|acts| - 1]);
      BusStep(s, a);
      PumpStep(s, a);
      LinkStep(s, a);
      RelayStep(s, a);
    }
  }

  // ----- What it means

  /** Over every interleaving, the bus is handed each attempt's events completely and in order,
      one attempt after the other, and of the current attempt a prefix. */
  lemma {:induction false} BusKeepsOrder(acts: seq<Act>)
    requires Run(acts)
    ensures var s := After(acts);
            && s.pumped <= |s.emitted|
            && s.bus == AllTagged(s.previous) + Tagged(s.attempt, s.emitted[..s.pumped])
  {
    RunInv(acts);
  }

  /** The bus was handed the current attempt's session start and, after it, a surface. */
  ghost predicate SurfaceHanded(s: Sys) {
    exists i, j :: && 0 <= i < j < |s.bus|
                   && s.bus[i].attempt == s.bus[j].attempt == s.attempt
                   && s.bus[i].event.SessionInitialized?
                   && (s.bus[j].event.SurfaceCreated? || s.bus[j].event.ImageReady?)
  }

  lemma {:induction false} HandedOnBus(s: Sys)
    requires BusInv(s) && SurfaceAfter(s.emitted[..s.pumped])
    ensures SurfaceHanded(s)
  {
    hide SurfaceAfter, AllTagged;
    var done := s.emitted[..s.pumped];
    SurfaceAfterMeans(done);
    var i, j :| 0 <= i < j < |done| && done[i].SessionInitialized? && (done[j].SurfaceCreated? || done[j].ImageReady?);
    var n := |AllTagged(s.previous)|;
    assert s.bus[n + i] == Handed(s.attempt, done[i]) && s.bus[n + j] == Handed(s.attempt, done[j]);
  }

  /** After an outage SPICE reads as up only while an attempt is running whose session start, and
      after it a surface, were handed to the bus. */
  lemma {:induction false} UpOnlyAfterSurface(acts: seq<Act>)
    requires Run(acts)
    ensures var s := After(acts);
            s.attempt >= 2 && s.link.spiceUp ==> s.active && SurfaceHanded(s)
  {
    hide BusInv, RelayInv, SurfaceHanded, After, Run;
    RunInv(acts);
    var s := After(acts);
    if s.attempt >= 2 && s.link.spiceUp { HandedOnBus(s); }
  }

  /** Whoever sees an attempt's session start on the bus finds the routes in place: the link is told
      before the bus. */
  lemma {:induction false} RoutedBeforeAnnounced(acts: seq<Act>, i: nat)
    requires Run(acts) && i < |After(acts).bus|
    ensures var s := After(acts);
            s.active && s.bus[i].attempt == s.attempt && s.bus[i].event.SessionInitialized? ==>
              s.link.input == s.link.resize == Some(s.attempt) && s.link.connected
  {
    hide RelayInv, After, Run, AllTagged, SurfaceAfter, Announced;
    RunInv(acts);
    var s := After(acts);
    if s.active && s.bus[i].attempt == s.attempt && s.bus[i].event.SessionInitialized? {
      var done, n := s.emitted[..s.pumped], |AllTagged(s.previous)|;
      EarlierAttempts(s.previous);
      assert i >= n && s.bus[i] == Tagged(s.attempt, done)[i - n];
      AnnouncedMeans(done);
      assert done[i - n].SessionInitialized?;
    }
  }

  lemma {:induction false} EarlierAttempts(previous: seq<seq<Event>>)
    ensures forall h :: h in AllTagged(previous) ==> h.attempt <= |previous|
  {
    if previous != [] { EarlierAttempts(previous[..|previous| - 1]); }
  }

  /** Between attempts everything reads as down; while a later attempt has no session there is
      still nowhere to relay to. */
  lemma {:induction false} OutageIsVisible(acts: seq<Act>)
    requires Run(acts)
    ensures var s := After(acts);
            && (s.attempt >= 1 && !s.active ==> !s.link.spiceUp && !s.link.connected && !s.link.agentConnected)
            && (Outage(s) ==> s.link.input == None && s.link.resize == None)
            && (!Outage(s) ==> s.link.input == s.link.resize == Some(s.attempt) && s.link.connected)
  {
    hide BusInv, RelayInv, PumpInv, After, Run;
    RunInv(acts);
  }

  function Delivered(settled: seq<Settled>): nat {
    if settled == [] then 0
    else Delivered(settled[..|settled| - 1]) + (if settled[|settled| - 1].delivered.Some? then 1 else 0)
  }

  lemma {:induction false} DeliveredOrDropped(settled: seq<Settled>)
    ensures Delivered(settled) + Drops(settled) == |settled|
  {
    if settled != [] { DeliveredOrDropped(settled[..|settled| - 1]); }
  }

  /** Every item the relay took was delivered or counted as dropped, except the one it may be
      sending. It was delivered if and only if its route was not looked up in an outage and the
      queue found took it, and then to the session routed at that moment. */
  lemma {:induction false} RelayConserves(acts: seq<Act>)
    requires Run(acts)
    ensures var s := After(acts);
            && |s.settled| <= |s.taken|
            && |s.taken| == Delivered(s.settled) + s.dropped + (if s.relay.Sending? then 1 else 0)
            && (forall i :: 0 <= i < |s.settled| ==>
                              && s.settled[i].item == s.taken[i].item
                              && (s.settled[i].delivered.Some? <==> !s.taken[i].outage && s.settled[i].accepted)
                              && (s.settled[i].delivered.Some? ==> s.settled[i].delivered.value == s.taken[i].attempt))
  {
    RunInv(acts);
    DeliveredOrDropped(After(acts).settled);
  }

  // ----- Received in one state, looked up in another

  /** One lost session; an item received in the outage; a second session before its route is looked
      up. */
  const LATE_LOOK: seq<Act> := [Start, End, Take(7), Start, Emit(SessionInitialized(0)), Receive, Begin, Look,
                                Settle(true)]

  function StepAll(s: Sys, acts: seq<Act>, n: nat): Option<Sys>
    requires n <= |acts|
    decreases |acts| - n
  {
    if n == |acts| then Some(s)
    else if !Enabled(s, acts[n]) then None
    else StepAll(Next(s, acts[n]), acts, n + 1)
  }

  /** Between receiving an item and looking its route up a session may begin: then an item received
      in an outage does reach a later session. `RelayConserves` counts by the lookup. */
  lemma {:induction false} LateLookReachesNextSession()
    ensures var end := StepAll(START, LATE_LOOK, 0);
            && end.Some? && |end.value.settled| == |end.value.taken| == 1
            && end.value.taken[0].receivedInOutage && !end.value.taken[0].outage
            && end.value.settled[0] == Settled(7, true, Some(2))
  {
    hide StepAll;
    var s5 := FirstHalf();
    SecondHalf(s5);
  }

  lemma {:induction false} OneStep(s: Sys, n: nat)
    requires n < |LATE_LOOK| && Enabled(s, LATE_LOOK[n])
    ensures StepAll(s, LATE_LOOK, n) == StepAll(Next(s, LATE_LOOK[n]), LATE_LOOK, n + 1)
  {
  }

  /** The second attempt's session start is on its way, and the item waits for its lookup. */
  predicate ReceivedLate(s: Sys) {
    && s.attempt == 2 && s.active && !s.began && s.pump.Ready?
    && s.emitted == [SessionInitialized(0)] && s.pumped == 0
    && s.relay == Took(7, true) && s.taken == [] && s.settled == []
  }

  lemma {:induction false} FirstHalf() returns (s: Sys)
    ensures StepAll(START, LATE_LOOK, 0) == StepAll(s, LATE_LOOK, 5)
    ensures ReceivedLate(s)
  {
    hide StepAll;
    OneStep(START, 0);
    var s1 := Next(START, Start);
    OneStep(s1, 1);
    var s2 := Next(s1, End);
    OneStep(s2, 2);
    var s3 := Next(s2, Take(7));
    OneStep(s3, 3);
    var s4 := Next(s3, Start);
    OneStep(s4, 4);
    s := Next(s4, Emit(SessionInitialized(0)));
  }

  lemma {:induction false} SecondHalf(s: Sys)
    requires ReceivedLate(s)
    ensures var end := StepAll(s, LATE_LOOK, 5);
            && end.Some? && end.value.taken == [Taken(7, Some(2), 2, false, true)]
            && end.value.settled == [Settled(7, true, Some(2))]
  {
    hide StepAll;
    OneStep(s, 5);
    var s6 := Next(s, Receive);
    OneStep(s6, 6);
    var s7 := Next(s6, Begin);
    OneStep(s7, 7);
    var s8 := Next(s7, Look);
    OneStep(s8, 8);
    NoStepsLeft(Next(s8, Settle(true)));
  }

  lemma {:induction false} NoStepsLeft(s: Sys)
    ensures StepAll(s, LATE_LOOK, 9) == Some(s)
  {
  }
}
