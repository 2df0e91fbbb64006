/** What the window tells the guest's keyboard: the translated keys, the modifiers it presses and
    releases on its own account, and the cadence's spaces; and what the guest makes of it beside
    any other sender. */
module GuestKeys {
  import opened Options
  import opened Keys
  import opened Keyboard
  import opened KeySenders

  const LEFT_CTRL: nat := 0x1D
  const LEFT_SHIFT: nat := 0x2A
  const LEFT_ALT: nat := 0x38

  /** The event, if any, that takes one modifier from `prev` to `now`. */
  function ModifierEvent(prev: bool, now: bool, code: nat): seq<InputEvent> {
    if prev == now then [] else if now then [KeyDown(code)] else [KeyUp(SetBreakBit(code))]
  }

  /** The key events that take the guest from modifiers `prev` to `now`. */
  function ModifierEvents(prev: Modifiers, now: Modifiers): seq<InputEvent> {
    ModifierEvent(prev.ctrl, now.ctrl, LEFT_CTRL)
    + ModifierEvent(prev.shift, now.shift, LEFT_SHIFT)
    + ModifierEvent(prev.alt, now.alt, LEFT_ALT)
  }

  function ModifierPositions(m: Modifiers): set<nat> {
    (if m.ctrl then {LEFT_CTRL} else {}) + (if m.shift then {LEFT_SHIFT} else {}) + (if m.alt then {LEFT_ALT} else {})
  }

  const MODIFIERS: set<nat> := {LEFT_CTRL, LEFT_SHIFT, LEFT_ALT}

  datatype App = App(keys: View, last: Option<Modifiers>)

  const START := App(FRESH, None)

  /** What the window loop does with the keyboard. `Cadence` is the space it types every two
      seconds on request, without a key of the host's. */
  datatype Action =
    | HandleInput(now: Modifiers, run: seq<Handled>)
    | ReleaseGuestKeys(order: seq<Key>)
    | WithholdPasteRelease
    | EndFrame(now: Modifiers)
    | Cadence

  const SPACE_KEY := Logical(Whitespace(Space))
  const SPACE: nat := 0x39

  const TICK: seq<InputEvent> := [KeyDown(0x39), KeyUp(0xB9)]

  function LastModifiers(a: App): Modifiers {
    if a.last.Some? then a.last.value else NO_MODIFIERS
  }

  ghost predicate Legal(a: App, x: Action) {
    match x
    case HandleInput(_, run) => IsRun(a.keys, run)
    case ReleaseGuestKeys(order) => IsOrder(a.keys.held, order)
    case _ => true
  }

  function Next(a: App, x: Action): App {
    match x
    case HandleInput(now, run) => App(LastView(a.keys, run), Some(now))
    case ReleaseGuestKeys(_) => App(View(map[], {}, map[], a.keys.modifiers), None)
    case WithholdPasteRelease => a.(keys := a.keys.(clipboard := a.keys.clipboard[Paste := None]))
    case EndFrame(now) => a.(keys := a.keys.(modifiers := now))
    case Cadence => a
  }

  function Sends(a: App, x: Action): seq<InputEvent>
    requires x.ReleaseGuestKeys? ==> forall k :: k in x.order ==> k in a.keys.held
  {
    match x
    case HandleInput(now, run) => ModifierEvents(LastModifiers(a), now) + SentIn(run)
    case ReleaseGuestKeys(order) =>
      Releases(a.keys.held, order) + ModifierEvents(LastModifiers(a), NO_MODIFIERS)
    case Cadence => TICK
    case _ => []
  }

  // ----- Modifiers and keys do not interfere

  lemma {:induction false} ModifiersAreNoKeys(k: Key)
    requires Scancode(k).Some?
    ensures PositionOf(k) !in MODIFIERS
  {
    hide Scancode, PositionOf;
    ScancodeNamesKey(k);
    assert KeyAt(LEFT_CTRL) == None && KeyAt(LEFT_SHIFT) == None && KeyAt(LEFT_ALT) == None;
  }

  ghost predicate Disjoint(codes: seq<nat>) {
    forall c :: c in codes ==> Position(c) !in MODIFIERS
  }

  lemma {:induction false} ReplayBeside(pressed: set<nat>, extra: set<nat>, codes: seq<nat>)
    requires extra <= MODIFIERS && Disjoint(codes)
    ensures GuestReplay(pressed + extra, codes) == GuestReplay(pressed, codes) + extra
  {
    hide Position, IsBreak;
    if codes != [] {
      ReplayBeside(pressed, extra, codes[..|codes| - 1]);
    }
  }

  lemma {:induction false} SentIsDisjoint(es: seq<InputEvent>)
    requires forall e :: e in es ==> SentForGuest(e)
    ensures Disjoint(CodesOf(es))
  {
    hide Scancode, PositionOf, Position;
    forall c | c in CodesOf(es) ensures Position(c) !in MODIFIERS {
      var i :| 0 <= i < |es| && CodesOf(es)[i] == c;
      assert es[i] in es;
      var k :| Scancode(k).Some? && !IsShortcutKey(k)
               && (es[i] == KeyDown(Scancode(k).value.down) || es[i] == KeyUp(Scancode(k).value.up));
      ScancodeNamesKey(k);
      ModifiersAreNoKeys(k);
    }
  }

  lemma {:induction false} ReleasesForGuest(v: View, order: seq<Key>)
    requires Consistent(v) && IsOrder(v.held, order)
    ensures forall e :: e in Releases(v.held, order) ==> SentForGuest(e)
  {
    hide Scancode;
    forall e | e in Releases(v.held, order) ensures SentForGuest(e) {
      var i :| 0 <= i < |order| && Releases(v.held, order)[i] == e;
      assert order[i] in order;
    }
  }

  lemma {:induction false} HandledForGuest(v: View, h: Handled)
    requires Consistent(v) && Handles(v, h.event, h.view, h.sent)
    ensures forall e :: e in h.sent ==> SentForGuest(e)
  {
    hide SentForGuest, Translate, Consistent, Releases;
    if h.event.FocusLost? {
      var order :| IsOrder(v.held, order) && h.sent == Releases(v.held, order);
      ReleasesForGuest(v, order);
    } else if !h.event.Unrelated? {
      TranslateAgrees(v, h.event);
    }
  }

  /** A frame's events, for a guest that also has modifiers pressed. */
  lemma {:induction false} RunBeside(v: View, run: seq<Handled>, extra: set<nat>)
    requires Consistent(v) && IsRun(v, run) && extra <= MODIFIERS
    ensures Consistent(LastView(v, run))
    ensures GuestReplay(HeldPositions(v.held) + extra, CodesOf(SentIn(run)))
            == HeldPositions(LastView(v, run).held) + extra
    ensures forall e :: e in SentIn(run) ==> SentForGuest(e)
  {
    hide Handles, HeldPositions, Consistent, SentForGuest;
    if run == [] {
      ReplayOne(HeldPositions(v.held) + extra, KeyUp(0));
    } else {
      var init, last := run[..|run| - 1], run[|run| - 1];
      RunPrefix(v, run);
      RunBeside(v, init, extra);
      var mid := LastView(v, init);
      HandlesAgrees(mid, last.event, last.view, last.sent);
      HandledForGuest(mid, last);
      SentIsDisjoint(last.sent);
      ReplayBeside(HeldPositions(mid.held), extra, CodesOf(last.sent));
      CodesOfConcat(SentIn(init), last.sent);
      GuestReplayConcat(HeldPositions(v.held) + extra, CodesOf(SentIn(init)), CodesOf(last.sent));
    }
  }

  /** No key that ryll keeps for itself is ever held, nor is its code ever sent. */
  lemma {:induction false} ShortcutsNeverSent(run: seq<Handled>, e: InputEvent, s: Key)
    requires IsRun(FRESH, run) && e in SentIn(run) && IsShortcutKey(s) && Scancode(s).Some?
    ensures s !in LastView(FRESH, run).held && Position(e.code) != PositionOf(s)
  {
    hide Scancode, PositionOf, Position, IsRun, SentIn, LastView;
    FreshConsistent();
    RunBeside(FRESH, run, {});
    var k :| Scancode(k).Some? && !IsShortcutKey(k)
             && (e == KeyDown(Scancode(k).value.down) || e == KeyUp(Scancode(k).value.up));
    ScancodeNamesKey(k);
    PositionsDiffer(k, s);
  }

  lemma {:induction false} ModifierEventAgrees(pressed: set<nat>, prev: bool, now: bool, code: nat)
    requires code in MODIFIERS && (code in pressed <==> prev)
    ensures GuestReplay(pressed, CodesOf(ModifierEvent(prev, now, code)))
            == if now then pressed + {code} else pressed - {code}
  {
    assert Position(code) == Position(SetBreakBit(code)) == code && !IsBreak(code) && IsBreak(SetBreakBit(code));
    ReplayOne(pressed, KeyDown(code));
    ReplayOne(pressed, KeyUp(SetBreakBit(code)));
  }

  lemma {:induction false} SwitchOne(keys: set<nat>, m: Modifiers, b: bool)
    requires keys !! MODIFIERS
    ensures var p := keys + ModifierPositions(m);
            && (LEFT_CTRL in p <==> m.ctrl) && (LEFT_SHIFT in p <==> m.shift) && (LEFT_ALT in p <==> m.alt)
            && keys + ModifierPositions(m.(ctrl := b)) == (if b then p + {LEFT_CTRL} else p - {LEFT_CTRL})
            && keys + ModifierPositions(m.(shift := b)) == (if b then p + {LEFT_SHIFT} else p - {LEFT_SHIFT})
            && keys + ModifierPositions(m.(alt := b)) == (if b then p + {LEFT_ALT} else p - {LEFT_ALT})
  {
  }

  lemma {:induction false} ModifierEventsAgree(keys: set<nat>, prev: Modifiers, now: Modifiers)
    requires keys !! MODIFIERS
    ensures GuestReplay(keys + ModifierPositions(prev), CodesOf(ModifierEvents(prev, now)))
            == keys + ModifierPositions(now)
  {
    hide Position, IsBreak, SetBreakBit, ModifierEvent, ModifierPositions, GuestReplay, CodesOf;
    var c0, c1, c2 := CodesOf(ModifierEvent(prev.ctrl, now.ctrl, LEFT_CTRL)),
                      CodesOf(ModifierEvent(prev.shift, now.shift, LEFT_SHIFT)),
                      CodesOf(ModifierEvent(prev.alt, now.alt, LEFT_ALT));
    var m1 := prev.(ctrl := now.ctrl);
    var m2 := m1.(shift := now.shift);
    SwitchOne(keys, prev, now.ctrl);
    ModifierEventAgrees(keys + ModifierPositions(prev), prev.ctrl, now.ctrl, LEFT_CTRL);
    SwitchOne(keys, m1, now.shift);
    ModifierEventAgrees(keys + ModifierPositions(m1), prev.shift, now.shift, LEFT_SHIFT);
    SwitchOne(keys, m2, now.alt);
    ModifierEventAgrees(keys + ModifierPositions(m2), prev.alt, now.alt, LEFT_ALT);
    SameModifierKeys(m2.(alt := now.alt), now);
    ModifierCodes(prev, now);
    GuestReplayConcat(keys + ModifierPositions(prev), c0, c1);
    GuestReplayConcat(keys + ModifierPositions(prev), c0 + c1, c2);
  }

  lemma {:induction false} SameModifierKeys(m: Modifiers, n: Modifiers)
    requires m.ctrl == n.ctrl && m.shift == n.shift && m.alt == n.alt
    ensures ModifierPositions(m) == ModifierPositions(n)
  {
  }

  lemma {:induction false} ModifierCodes(prev: Modifiers, now: Modifiers)
    ensures CodesOf(ModifierEvents(prev, now))
            == CodesOf(ModifierEvent(prev.ctrl, now.ctrl, LEFT_CTRL))
               + CodesOf(ModifierEvent(prev.shift, now.shift, LEFT_SHIFT))
               + CodesOf(ModifierEvent(prev.alt, now.alt, LEFT_ALT))
  {
    hide ModifierEvent;
    var e0, e1, e2 := ModifierEvent(prev.ctrl, now.ctrl, LEFT_CTRL), ModifierEvent(prev.shift, now.shift, LEFT_SHIFT),
                      ModifierEvent(prev.alt, now.alt, LEFT_ALT);
    CodesOfConcat(e0, e1);
    CodesOfConcat(e0 + e1, e2);
  }

  lemma {:induction false} HeldBesideModifiers(v: View)
    requires Consistent(v)
    ensures HeldPositions(v.held) !! MODIFIERS
  {
    hide Scancode, PositionOf;
    forall k | k in v.held ensures PositionOf(k) !in MODIFIERS {
      ModifiersAreNoKeys(k);
    }
  }

  // ----- Whole runs of the window loop

  ghost function Expected(a: App): set<nat> {
    HeldPositions(a.keys.held) + ModifierPositions(LastModifiers(a))
  }

  /** Everything but the cadence keeps the guest in step. */
  lemma {:induction false} ActionAgrees(a: App, x: Action)
    requires Consistent(a.keys) && Legal(a, x) && !x.Cadence?
    ensures Consistent(Next(a, x).keys)
    ensures GuestReplay(Expected(a), CodesOf(Sends(a, x))) == Expected(Next(a, x))
  {
    match x
    case HandleInput(now, run) => HandleInputAgrees(a, now, run);
    case ReleaseGuestKeys(order) => ReleaseGuestKeysAgrees(a, order);
    case WithholdPasteRelease => ReplayOne(Expected(a), KeyUp(0));
    case EndFrame(now) => ReplayOne(Expected(a), KeyUp(0));
    case Cadence => assert false;
  }

  lemma {:induction false} HandleInputAgrees(a: App, now: Modifiers, run: seq<Handled>)
    requires Consistent(a.keys) && IsRun(a.keys, run)
    ensures Consistent(LastView(a.keys, run))
    ensures var x := HandleInput(now, run);
            GuestReplay(Expected(a), CodesOf(Sends(a, x))) == Expected(Next(a, x))
  {
    hide Consistent, HeldPositions, IsRun, SentIn, ModifierEvents, GuestReplay, ModifierPositions;
    var mods := ModifierEvents(LastModifiers(a), now);
    HeldBesideModifiers(a.keys);
    ModifierEventsAgree(HeldPositions(a.keys.held), LastModifiers(a), now);
    ModifierPositionsBound(now);
    RunBeside(a.keys, run, ModifierPositions(now));
    CodesOfConcat(mods, SentIn(run));
    GuestReplayConcat(Expected(a), CodesOf(mods), CodesOf(SentIn(run)));
  }

  lemma {:induction false} ModifierPositionsBound(m: Modifiers)
    ensures ModifierPositions(m) <= MODIFIERS
  {
  }

  lemma {:induction false} ReleaseGuestKeysAgrees(a: App, order: seq<Key>)
    requires Consistent(a.keys) && IsOrder(a.keys.held, order)
    ensures var x := ReleaseGuestKeys(order);
            && Consistent(Next(a, x).keys)
            && GuestReplay(Expected(a), CodesOf(Sends(a, x))) == Expected(Next(a, x)) == {}
  {
    hide HeldPositions, ModifierEvents, GuestReplay, Scancode, PositionOf;
    var held, m := a.keys.held, LastModifiers(a);
    var ups, mods := Releases(held, order), ModifierEvents(m, NO_MODIFIERS);
    ReleasesAgree(held, order);
    ReleasesForGuest(a.keys, order);
    SentIsDisjoint(ups);
    ModifierPositionsBound(m);
    ReplayBeside(HeldPositions(held), ModifierPositions(m), CodesOf(ups));
    ModifierEventsAgree({}, m, NO_MODIFIERS);
    CodesOfConcat(ups, mods);
    GuestReplayConcat(Expected(a), CodesOf(ups), CodesOf(mods));
    FreshConsistent();
    assert {} + ModifierPositions(m) == ModifierPositions(m);
  }

  function After(actions: seq<Action>): App {
    if actions == [] then START else Next(After(actions[..|actions| - 1]), actions[|actions| - 1])
  }

  ghost predicate LegalRun(actions: seq<Action>) {
    actions != [] ==>
      && LegalRun(actions[..|actions| - 1])
      && Legal(After(actions[..|actions| - 1]), actions[|actions| - 1])
  }

  ghost function SentBy(actions: seq<Action>): seq<InputEvent>
    requires LegalRun(actions)
  {
    if actions == [] then []
    else SentBy(actions[..|actions| - 1]) + Sends(After(actions[..|actions| - 1]), actions[|actions| - 1])
  }

  // ----- The cadence

  /** The guest's belief about the space bar is about that key alone. */
  lemma {:induction false} SpaceExpected(a: App)
    requires Consistent(a.keys)
    ensures SPACE in Expected(a) <==> SPACE_KEY in a.keys.held
    ensures PositionOf(SPACE_KEY) == SPACE
  {
    hide Scancode, Position;
    SpaceCodes();
    var held := a.keys.held;
    ModifierPositionsBound(LastModifiers(a));
    if SPACE in HeldPositions(held) {
      var k :| k in held && PositionOf(k) == SPACE;
      if k != SPACE_KEY { PositionsDiffer(k, SPACE_KEY); }
    }
  }

  lemma {:induction false} SpaceCodes()
    ensures Scancode(SPACE_KEY) == Some(Codes(0x39, 0xB9)) && PositionOf(SPACE_KEY) == SPACE
    ensures Position(0x39) == Position(0xB9) == SPACE && !IsBreak(0x39) && IsBreak(0xB9)
  {
  }

  lemma {:induction false} TickReplay(pressed: set<nat>)
    ensures GuestReplay(pressed, CodesOf(TICK)) == pressed - {SPACE}
  {
    hide Position, IsBreak, GuestReplay;
    SpaceCodes();
    CodesOfConcat([KeyDown(0x39)], [KeyUp(0xB9)]);
    assert TICK == [KeyDown(0x39)] + [KeyUp(0xB9)];
    GuestReplayConcat(pressed, CodesOf([KeyDown(0x39)]), CodesOf([KeyUp(0xB9)]));
    ReplayOne(pressed, KeyDown(0x39));
    ReplayOne(GuestReplay(pressed, CodesOf([KeyDown(0x39)])), KeyUp(0xB9));
  }

  /** A tick keeps a guest that is in step if and only if the space bar is not held; held, it is
      lost to the guest. */
  lemma {:induction false} TickAgreesIff(a: App)
    requires Consistent(a.keys)
    ensures GuestReplay(Expected(a), CodesOf(Sends(a, Cadence))) == Expected(a) - {SPACE}
    ensures GuestReplay(Expected(a), CodesOf(Sends(a, Cadence))) == Expected(Next(a, Cadence))
            <==> SPACE_KEY !in a.keys.held
  {
    hide Expected, GuestReplay;
    TickReplay(Expected(a));
    SpaceExpected(a);
  }

  /** The codes of a run as the guest gets them: all are for the host's keys but the cadence's. */
  ghost function Stream(actions: seq<Action>): seq<Sent>
    requires LegalRun(actions)
  {
    if actions == [] then []
    else
      var init, x := actions[..|actions| - 1], actions[|actions| - 1];
      Stream(init) + Tag(!x.Cadence?, CodesOf(Sends(After(init), x)))
  }

  ghost predicate Names(es: seq<InputEvent>, position: nat) {
    exists e :: e in es && Position(e.code) == position
  }

  /** A tick has come since anything was last sent for the space bar. */
  ghost predicate TickStands(actions: seq<Action>)
    requires LegalRun(actions)
  {
    actions != [] &&
    var init, x := actions[..|actions| - 1], actions[|actions| - 1];
    x.Cadence? || (TickStands(init) && !Names(Sends(After(init), x), SPACE))
  }

  lemma {:induction false} StandingSnoc(s: seq<Sent>, c: nat)
    ensures var o, p := StandingAfter(s), Position(c);
            StandingAfter(s + [Sent(true, c)]) == Standing(o.up - {p}, o.down - {p})
  {
    assert (s + [Sent(true, c)])[..|s|] == s;
  }

  /** Codes for the host's keys overrule whatever stood for their positions. */
  lemma {:induction false} OwnCodesClear(s: seq<Sent>, codes: seq<nat>, p: nat)
    ensures var o, o' := StandingAfter(s), StandingAfter(s + Tag(true, codes));
            && (p in o'.up <==> p in o.up && forall c :: c in codes ==> Position(c) != p)
            && (p in o'.down <==> p in o.down && forall c :: c in codes ==> Position(c) != p)
    decreases |codes|
  {
    hide Position, IsBreak, StandingAfter;
    if codes == [] {
      assert s + Tag(true, codes) == s;
    } else {
      var init, c := codes[..|codes| - 1], codes[|codes| - 1];
      OwnCodesClear(s, init, p);
      TagSnoc(true, codes);
      var t := s + Tag(true, init);
      assert s + Tag(true, codes) == t + [Sent(true, c)];
      StandingSnoc(t, c);
      assert codes == init + [c];
      assert c in codes && forall d :: d in codes <==> d in init || d == c;
    }
  }

  lemma {:induction false} TickStanding(s: seq<Sent>)
    ensures var o, o' := StandingAfter(s), StandingAfter(s + Tag(false, CodesOf(TICK)));
            o'.up == o.up + {SPACE} && o'.down == o.down - {SPACE}
  {
    hide Position, IsBreak;
    SpaceCodes();
    var down, up := Sent(false, 0x39), Sent(false, 0xB9);
    assert Tag(false, CodesOf(TICK)) == [down, up];
    var t := s + [down];
    assert s + [down, up] == t + [up] && (t + [up])[..|t|] == t && t[..|s|] == s;
  }

  lemma {:induction false} NamesCodes(es: seq<InputEvent>, position: nat)
    ensures Names(es, position) <==> exists c :: c in CodesOf(es) && Position(c) == position
  {
    hide Position;
    if Names(es, position) {
      var e :| e in es && Position(e.code) == position;
      var i :| 0 <= i < |es| && es[i] == e;
      assert CodesOf(es)[i] == e.code;
    }
    if c :| c in CodesOf(es) && Position(c) == position {
      var i :| 0 <= i < |es| && CodesOf(es)[i] == c;
      assert es[i] in es;
    }
  }

  /** Of the positions the cadence sent for, only the space bar's can stand, and does so exactly
      while the tick does. */
  lemma {:induction false} OnlyTicksStand(actions: seq<Action>)
    requires LegalRun(actions)
    ensures StandingAfter(Stream(actions)) == Standing(if TickStands(actions) then {SPACE} else {}, {})
  {
    hide Position, StandingAfter, Sends, After, Names;
    if actions == [] {
      NothingStands();
    } else {
      var init, x := actions[..|actions| - 1], actions[|actions| - 1];
      OnlyTicksStand(init);
      var es := Sends(After(init), x);
      if x.Cadence? {
        CadenceSends(After(init));
        TickStanding(Stream(init));
      } else {
        var before, after := StandingAfter(Stream(init)), StandingAfter(Stream(actions));
        forall p: nat
          ensures p in after.up <==> p in before.up && (p == SPACE ==> !Names(es, SPACE))
          ensures p !in after.down
        {
          OwnCodesClear(Stream(init), CodesOf(es), p);
          NamesCodes(es, SPACE);
        }
      }
    }
  }

  lemma {:induction false} CadenceSends(a: App)
    ensures Sends(a, Cadence) == TICK
  {
  }

  lemma {:induction false} NothingStands()
    ensures StandingAfter([]) == Standing({}, {})
  {
  }

  /** What is sent for the host's keys, by itself, always leaves the guest with exactly the held
      keys and the modifiers last reported. */
  lemma {:induction false} OwnCodesAgree(actions: seq<Action>)
    requires LegalRun(actions)
    ensures Consistent(After(actions).keys)
    ensures GuestReplay({}, OwnCodes(Stream(actions))) == Expected(After(actions))
    ensures AllCodes(Stream(actions)) == CodesOf(SentBy(actions))
  {
    hide Expected, Consistent, Next, Sends;
    if actions == [] {
      FreshConsistent();
      ReplayOne({}, KeyUp(0));
      StartExpectsNothing();
    } else {
      var init, x := actions[..|actions| - 1], actions[|actions| - 1];
      OwnCodesAgree(init);
      var a, codes := After(init), CodesOf(Sends(After(init), x));
      AppendTagged(Stream(init), !x.Cadence?, codes);
      CodesOfConcat(SentBy(init), Sends(a, x));
      if x.Cadence? {
        CadenceChangesNothing(a);
        assert OwnCodes(Stream(init)) + [] == OwnCodes(Stream(init));
      } else {
        ActionAgrees(a, x);
        GuestReplayConcat({}, OwnCodes(Stream(init)), codes);
      }
    }
  }

  lemma {:induction false} CadenceChangesNothing(a: App)
    ensures Next(a, Cadence) == a
  {
  }

  /** Over every run of frames, releases and cadence ticks the guest believes pressed the held keys
      and the modifiers last reported, except a held space bar that a tick has released since
      anything was last sent for it. So it is in step if and only if there is no such tick. */
  lemma {:induction false} GuestAgreement(actions: seq<Action>)
    requires LegalRun(actions)
    ensures Consistent(After(actions).keys)
    ensures var lost := TickStands(actions) && SPACE_KEY in After(actions).keys.held;
            var believed := GuestReplay({}, CodesOf(SentBy(actions)));
            && believed == Expected(After(actions)) - (if lost then {SPACE} else {})
            && (believed == Expected(After(actions)) <==> !lost)
  {
    hide Expected, Consistent, GuestReplay, StandingAfter, Stream, SentBy, After, LegalRun, TickStands, AllCodes,
         OwnCodes;
    OwnCodesAgree(actions);
    OnlyTicksStand(actions);
    GuestBelief(Stream(actions));
    SpaceExpected(After(actions));
  }

  /** The same beside any other sender whatever: when the codes for the host's keys, in order, are
      those of a run and any others come in between, the guest is in step if and only if no other
      sender's last word on a position contradicts what is held. */
  lemma {:induction false} AgreementBesideOthers(actions: seq<Action>, s: seq<Sent>)
    requires LegalRun(actions) && OwnCodes(s) == OwnCodes(Stream(actions))
    ensures var o, expected := StandingAfter(s), Expected(After(actions));
            && GuestReplay({}, AllCodes(s)) == expected - o.up + o.down
            && (GuestReplay({}, AllCodes(s)) == expected <==> o.up !! expected && o.down <= expected)
  {
    hide Expected, Consistent, GuestReplay, StandingAfter, Stream, SentBy, After, LegalRun, AllCodes, OwnCodes;
    OwnCodesAgree(actions);
    GuestBelief(s);
    AgreementIff(s);
  }

  /** With a queue that is full at times, or not there: of the codes for the host's keys only those
      marked get through. The guest is then in step if and only if no code that was lost, being the
      last for its position, contradicts what the guest believes. */
  lemma {:induction false} AgreementDespiteLosses(actions: seq<Action>, s: seq<Sent>)
    requires LegalRun(actions) && AllCodes(s) == OwnCodes(Stream(actions))
    ensures var lost, believed := StandingAfter(s), GuestReplay({}, OwnCodes(s));
            && Expected(After(actions)) == believed - lost.up + lost.down
            && (believed == Expected(After(actions)) <==> lost.up !! believed && lost.down <= believed)
  {
    hide Expected, Consistent, GuestReplay, StandingAfter, Stream, After, LegalRun, AllCodes, OwnCodes;
    OwnCodesAgree(actions);
    GuestBelief(s);
    AgreementIff(s);
  }

  lemma {:induction false} StartExpectsNothing()
    ensures Expected(START) == {}
  {
    FreshConsistent();
  }

  // ----- A held space bar and one tick

  const SPACE_DOWN := KeyEvent(SPACE_KEY, None, true, false, NO_MODIFIERS)
  const SPACE_HELD := View(map[SPACE_KEY := 0xB9], {}, map[], NO_MODIFIERS)
  const SPACE_AND_TICK: seq<Action> :=
    [HandleInput(NO_MODIFIERS, [Handled(SPACE_DOWN, SPACE_HELD, [KeyDown(0x39)])]), Cadence]

  /** With the space bar held, one tick puts the guest out of step. */
  lemma {:induction false} TickLosesHeldSpace()
    ensures LegalRun(SPACE_AND_TICK)
    ensures SPACE_KEY in After(SPACE_AND_TICK).keys.held
    ensures SPACE !in GuestReplay({}, CodesOf(SentBy(SPACE_AND_TICK)))
  {
    hide Scancode, Position, GuestReplay, SentBy, Expected, Consistent, TickStands;
    SpaceCodes();
    var first := SPACE_AND_TICK[..1];
    assert first == [SPACE_AND_TICK[0]] && first[..0] == [];
    var run := SPACE_AND_TICK[0].run;
    assert run[..0] == [] && IsRun(FRESH, run);
    assert LegalRun(first);
    assert After(first).keys == SPACE_HELD;
    GuestAgreement(SPACE_AND_TICK);
    StandsAfterTick(SPACE_AND_TICK);
    SpaceExpected(After(SPACE_AND_TICK));
  }

  lemma {:induction false} StandsAfterTick(actions: seq<Action>)
    requires LegalRun(actions) && actions != [] && actions[|actions| - 1].Cadence?
    ensures TickStands(actions)
  {
  }
}
