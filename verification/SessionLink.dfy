/** The fixed ends of the SPICE session that outlive each attempt: the link's state, the event pump
    of one attempt, and the relay. */
module SessionLink {
  import opened Options

  /** Channel events, as far as the pump tells them apart. */
  datatype Event = SessionInitialized(id: nat) | SurfaceCreated(id: nat) | ImageReady(id: nat) | OtherEvent(id: nat)

  predicate IsSurface(e: Event) {
    e.SurfaceCreated? || e.ImageReady?
  }

  /** What the link's watches hold. A route is the number of the attempt whose queue it leads to. */
  datatype LinkState = LinkState(
    input: Option<nat>, resize: Option<nat>, agentConnected: bool, spiceUp: bool, connected: bool, surfaces: seq<nat>)

  function Routed(l: LinkState, attempt: nat): LinkState {
    l.(input := Some(attempt), resize := Some(attempt))
  }

  /** The mirror is emptied, the routes are taken if there are any, and SPICE reads as connected. */
  function SessionBegan(l: LinkState, routes: Option<nat>): LinkState {
    var cleared := l.(surfaces := [], connected := true);
    if routes.Some? then Routed(cleared, routes.value) else cleared
  }

  function SurfaceArrived(l: LinkState): LinkState {
    l.(spiceUp := true)
  }

  function SessionEnded(l: LinkState): LinkState {
    l.(input := None, resize := None, agentConnected := false, connected := false, spiceUp := false)
  }

  const FIRST_LINK := LinkState(None, None, false, true, true, [])

  class Link {
    var input: Option<nat>
    var resize: Option<nat>
    var agentConnected: bool
    var spiceUp: bool
    var connected: bool
    var surfaces: seq<nat>

    function State(): LinkState
      reads this
    {
      LinkState(input, resize, agentConnected, spiceUp, connected, surfaces)
    }

    constructor ()
      ensures State() == FIRST_LINK
      ensures input == resize == None && spiceUp && connected && !agentConnected && surfaces == []
    {
      input, resize, agentConnected, spiceUp, connected, surfaces := None, None, false, true, true, [];
    }

    method Route(attempt: nat)
      modifies this`input, this`resize
      ensures State() == Routed(old(State()), attempt)
    {
      input := Some(attempt);
      resize := Some(attempt);
    }

    method Began(routes: Option<nat>)
      modifies this
      ensures State() == SessionBegan(old(State()), routes)
      ensures surfaces == [] && connected && spiceUp == old(spiceUp) && agentConnected == old(agentConnected)
      ensures input == (if routes.Some? then routes else old(input))
      ensures resize == (if routes.Some? then routes else old(resize))
    {
      surfaces := [];
      if routes.Some? {
        Route(routes.value);
      }
      connected := true;
    }

    method Arrived()
      modifies this`spiceUp
      ensures State() == SurfaceArrived(old(State()))
    {
      spiceUp := true;
    }

    method Ended()
      modifies this
      ensures State() == SessionEnded(old(State()))
      ensures input == resize == None && !agentConnected && !connected && !spiceUp && surfaces == old(surfaces)
    {
      input := None;
      resize := None;
      agentConnected := false;
      connected := false;
      spiceUp := false;
    }

    /** Pass one attempt's events to the bus, which takes `open` more before it closes. They arrive
        in order and none is lost before that; the session begins at its first announcement, and
        SPICE reads as up from the first surface after it, whether the bus is open or not. */
    method PumpEvents(events: seq<Event>, routes: Option<nat>, open: nat) returns (began: bool, bus: seq<Event>)
      modifies this
      ensures bus == if open < |events| then events[..open] else events
      ensures began <==> exists i :: 0 <= i < |events| && events[i].SessionInitialized?
      ensures State() == PumpedLink(old(State()), events, routes)
      ensures began ==> surfaces == [] && connected && (routes.Some? ==> input == resize == routes)
      ensures !began ==> State() == old(State())
      ensures spiceUp <==>
                || old(spiceUp)
                || exists i, j :: && 0 <= i < j < |events| && events[i].SessionInitialized?
                                  && (events[j].SurfaceCreated? || events[j].ImageReady?)
    {
      hide Announced, SurfaceAfter, PumpedLink, SessionBegan, SurfaceArrived;
      began := false;
      bus := [];
      NothingPumped(State(), routes);
      assert events[..0] == [];
      var surface := false;
      var left := routes;
      for n := 0 to |events|
        invariant bus == if open < n then events[..open] else events[..n]
        invariant began == Announced(events[..n]) && surface == SurfaceAfter(events[..n])
        invariant left == if began then None else routes
        invariant State() == PumpedLink(old(State()), events[..n], routes)
      {
        var event := events[n];
        assert events[..n + 1] == events[..n] + [event];
        AnnouncedSnoc(events[..n], event);
        PumpedSnoc(old(State()), events[..n], event, routes);
        if !began && event.SessionInitialized? {
          Began(left);
          left := None;
          began := true;
        }
        var firstSurface := began && !surface && IsSurface(event);
        if |bus| < open {
          bus := bus + [event];
        }
        if firstSurface {
          Arrived();
          surface := true;
        }
      }
      assert events[..|events|] == events;
      AnnouncedMeans(events);
      SurfaceAfterMeans(events);
      PumpedMeans(old(State()), events, routes);
    }
  }

  /** Whether a session was announced. */
  predicate Announced(es: seq<Event>) {
    es != [] && (Announced(es[..|es| - 1]) || es[|es| - 1].SessionInitialized?)
  }

  /** Whether a surface followed the announcement. */
  predicate SurfaceAfter(es: seq<Event>) {
    es != [] && (SurfaceAfter(es[..|es| - 1]) || (Announced(es[..|es| - 1]) && IsSurface(es[|es| - 1])))
  }

  /** The link after pumping `es`. */
  function PumpedLink(l: LinkState, es: seq<Event>, routes: Option<nat>): LinkState {
    var begun := if Announced(es) then SessionBegan(l, routes) else l;
    if SurfaceAfter(es) then SurfaceArrived(begun) else begun
  }

  lemma {:induction false} AnnouncedSnoc(es: seq<Event>, e: Event)
    ensures Announced(es + [e]) == (Announced(es) || e.SessionInitialized?)
    ensures SurfaceAfter(es + [e]) == (SurfaceAfter(es) || (Announced(es) && IsSurface(e)))
  {
    assert (es + [e])[..|es|] == es;
  }

  lemma {:induction false} SurfaceNeedsAnnouncement(es: seq<Event>)
    ensures SurfaceAfter(es) ==> Announced(es)
  {
    if es != [] { SurfaceNeedsAnnouncement(es[..|es| - 1]); }
  }

  /** How one more event moves the link. */
  lemma {:induction false} PumpedSnoc(l: LinkState, es: seq<Event>, e: Event, routes: Option<nat>)
    ensures var so, begins := PumpedLink(l, es, routes), !Announced(es) && e.SessionInitialized?;
            var begun := if begins then SessionBegan(so, routes) else so;
            var first := (Announced(es) || begins) && !SurfaceAfter(es) && IsSurface(e);
            PumpedLink(l, es + [e], routes) == if first then SurfaceArrived(begun) else begun
  {
    hide Announced, SurfaceAfter;
    AnnouncedSnoc(es, e);
    SurfaceNeedsAnnouncement(es);
  }

  lemma {:induction false} PumpedMeans(l: LinkState, es: seq<Event>, routes: Option<nat>)
    ensures var m := PumpedLink(l, es, routes);
            && (Announced(es) ==> m.surfaces == [] && m.connected && (routes.Some? ==> m.input == m.resize == routes))
            && (!Announced(es) ==> m == l)
            && (m.spiceUp <==> l.spiceUp || SurfaceAfter(es))
  {
    SurfaceNeedsAnnouncement(es);
  }

  lemma {:induction false} NothingPumped(l: LinkState, routes: Option<nat>)
    ensures !Announced([]) && !SurfaceAfter([]) && PumpedLink(l, [], routes) == l
  {
  }

  lemma {:induction false} AnnouncedMeans(es: seq<Event>)
    ensures Announced(es) <==> exists i :: 0 <= i < |es| && es[i].SessionInitialized?
  {
    if es != [] {
      var init := es[..|es| - 1];
      AnnouncedMeans(init);
      assert forall i :: 0 <= i < |init| ==> init[i] == es[i];
      if Announced(init) {
        var i :| 0 <= i < |init| && init[i].SessionInitialized?;
        assert es[i].SessionInitialized?;
      }
    }
  }

  /** A surface followed the announcement: there is one at a later place. */
  lemma {:induction false} SurfaceAfterMeans(es: seq<Event>)
    ensures SurfaceAfter(es)
            <==> exists i, j :: && 0 <= i < j < |es| && es[i].SessionInitialized?
                                && (es[j].SurfaceCreated? || es[j].ImageReady?)
  {
    if es != [] {
      var n := |es| - 1;
      var init := es[..n];
      SurfaceAfterMeans(init);
      AnnouncedMeans(init);
      if i, j :| 0 <= i < j < |es| && es[i].SessionInitialized? && IsSurface(es[j]) {
        assert init[i] == es[i];
        assert j < n ==> init[j] == es[j];
      }
      if SurfaceAfter(init) {
        var i, j :| 0 <= i < j < |init| && init[i].SessionInitialized? && IsSurface(init[j]);
        assert es[i].SessionInitialized? && IsSurface(es[j]);
      } else if Announced(init) && IsSurface(es[n]) {
        var i :| 0 <= i < |init| && init[i].SessionInitialized?;
        assert es[i].SessionInitialized? && IsSurface(es[n]);
      }
    }
  }

  // ----- The relay on its own

  /** An item the relay took, the route it then found, and whether that session's queue took it. */
  datatype Offer = Offer(item: nat, to: Option<nat>, accepted: bool)

  datatype Delivery = Delivery(item: nat, to: nat)

  predicate Goes(o: Offer) {
    o.to.Some? && o.accepted
  }

  function Deliveries(offers: seq<Offer>): seq<Delivery> {
    if offers == [] then []
    else
      var last := offers[|offers| - 1];
      Deliveries(offers[..|offers| - 1]) + (if Goes(last) then [Delivery(last.item, last.to.value)] else [])
  }

  /** Drops since the last delivery. */
  function Trailing(offers: seq<Offer>): nat {
    if offers == [] || Goes(offers[|offers| - 1]) then 0 else Trailing(offers[..|offers| - 1]) + 1
  }

  /** The counts reported: at each delivery, the drops since the one before, if any. */
  function Reports(offers: seq<Offer>): seq<nat> {
    if offers == [] then []
    else
      var init, last := offers[..|offers| - 1], offers[|offers| - 1];
      Reports(init) + if Goes(last) && Trailing(init) > 0 then [Trailing(init)] else []
  }

  /** Each item offered to an open route that takes it is delivered there, in its place among the
      others; and no other. */
  lemma {:induction false} DeliveriesInOrder(a: seq<Offer>, o: Offer, b: seq<Offer>)
    ensures Deliveries(a + [o] + b)
            == Deliveries(a) + (if o.to.Some? && o.accepted then [Delivery(o.item, o.to.value)] else []) + Deliveries(b)
  {
    if b == [] {
      assert a + [o] + b == a + [o] && (a + [o])[..|a|] == a;
    } else {
      var init := b[..|b| - 1];
      DeliveriesInOrder(a, o, init);
      assert (a + [o] + b)[..|a| + |b|] == a + [o] + init;
    }
  }

  /** The drops since the last delivery are just that. */
  lemma {:induction false} TrailingMeans(offers: seq<Offer>)
    ensures var n := Trailing(offers);
            && n <= |offers|
            && (forall i :: |offers| - n <= i < |offers| ==> offers[i].to.None? || !offers[i].accepted)
            && (n < |offers| ==> offers[|offers| - n - 1].to.Some? && offers[|offers| - n - 1].accepted)
  {
    if offers != [] && !Goes(offers[|offers| - 1]) { TrailingMeans(offers[..|offers| - 1]); }
  }

  function Sum(ns: seq<nat>): nat {
    if ns == [] then 0 else Sum(ns[..|ns| - 1]) + ns[|ns| - 1]
  }

  /** Relay items in order until the senders are gone. Each is delivered where its route led or
      counted as dropped; the reports made cover every drop but those after the last delivery. */
  method RelayAll(offers: seq<Offer>) returns (dropped: nat, delivered: seq<Delivery>, reports: seq<nat>)
    ensures delivered == Deliveries(offers)
    ensures dropped + |delivered| == |offers|
    ensures Sum(reports) + Trailing(offers) == dropped
    ensures reports == Reports(offers) && forall i :: 0 <= i < |reports| ==> reports[i] > 0
  {
    dropped, delivered, reports := 0, [], [];
    var unreported: nat := 0;
    for n := 0 to |offers|
      invariant delivered == Deliveries(offers[..n]) && dropped + |delivered| == n
      invariant unreported == Trailing(offers[..n]) && Sum(reports) + unreported == dropped
      invariant reports == Reports(offers[..n]) && forall i :: 0 <= i < |reports| ==> reports[i] > 0
    {
      var o := offers[n];
      assert offers[..n + 1][..n] == offers[..n];
      if !Goes(o) {
        dropped := dropped + 1;
        unreported := unreported + 1;
      } else {
        delivered := delivered + [Delivery(o.item, o.to.value)];
        if unreported > 0 {
          ghost var before := reports;
          reports := reports + [unreported];
          assert reports[..|before|] == before;
          unreported := 0;
        }
      }
    }
    assert offers[..|offers|] == offers;
  }
}
