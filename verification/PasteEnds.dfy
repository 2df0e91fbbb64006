/** How pastes end: Shift, which a paste types itself, and a paste that is cancelled. */
module PasteEnds {
  import opened Options
  import opened Keys
  import opened Keyboard
  import opened GuestKeys
  import opened PasteKeys

  // ----- Shift, whatever happens during the paste

  function CurrentStroke(c: Channel): Stroke
    requires ValidChannel(c) && c.paste.Some?
  {
    c.paste.value.strokes[c.paste.value.index]
  }

  /** Whether the guest has Shift after an act, if it had `b` before. */
  predicate ShiftAfter(c: Channel, x: Act, b: bool)
    requires ValidChannel(c)
  {
    if Speaks(x, LEFT_SHIFT) then x.event.KeyDown?
    else if Starts(c, x) then b && !c.held.shift
    else if x.Advance? && c.paste.Some? then
      if !c.paste.value.pressed then b || CurrentStroke(c).shift
      else (b && !CurrentStroke(c).shift) || (Ends(c, x) && c.paste.value.saved.shift)
    else b
  }

  lemma {:induction false} ActOnShift(c: Channel, g: set<nat>, x: Act)
    requires ValidChannel(c) && Proper(x)
    ensures LEFT_SHIFT in GuestReplay(g, CodesFor(c, x)) <==> ShiftAfter(c, x, LEFT_SHIFT in g)
  {
    hide GuestReplay, Scancode, PositionOf, Position, IsBreak, PressCodes, ReleaseCodes, DownCodes, UpCodes;
    ModifierCodesName();
    ReplayNothing(g);
    match x
    case Handle(e, _) => ReplaySingle(g, e.code);
    case StartPaste(_) => ReplayUp(g, c.held);
    case Cancel =>
    case Advance =>
      if c.paste.Some? {
        var saved, stroke := c.paste.value.saved, CurrentStroke(c);
        ModifiersAreNoKeys(stroke.key);
        ReplayPress(g, stroke);
        ReplayRelease(g, stroke);
        if Ends(c, x) {
          GuestReplayConcat(g, ReleaseCodes(stroke), DownCodes(saved));
          ReplayDown(GuestReplay(g, ReleaseCodes(stroke)), saved);
        } else {
          assert ReleaseCodes(stroke) + [] == ReleaseCodes(stroke);
        }
      }
  }

  predicate ShiftAfterAll(c: Channel, acts: seq<Act>, b: bool)
    requires ValidChannel(c) && AllValid(acts)
    decreases |acts|
  {
    if acts == [] then b else ShiftAfterAll(StateAfter(c, acts[0]), acts[1..], ShiftAfter(c, acts[0], b))
  }

  /** What the guest believes of Shift over any run. */
  lemma {:induction false} ShiftFollows(c: Channel, g: set<nat>, acts: seq<Act>)
    requires ValidChannel(c) && AllProper(acts)
    ensures LEFT_SHIFT in GuestReplay(g, RunCodes(c, acts)) <==> ShiftAfterAll(c, acts, LEFT_SHIFT in g)
    decreases |acts|
  {
    hide GuestReplay, Proper, StateAfter, CodesFor, ShiftAfter;
    if acts == [] {
      ReplayNothing(g);
    } else {
      var x, rest := acts[0], acts[1..];
      ActOnShift(c, g, x);
      GuestReplayConcat(g, CodesFor(c, x), RunCodes(StateAfter(c, x), rest));
      ShiftFollows(StateAfter(c, x), GuestReplay(g, CodesFor(c, x)), rest);
    }
  }

  /** During a paste the guest has Shift only if the host has, or for a stroke half typed. */
  ghost predicate MidShift(c: Channel, g: set<nat>, o: set<nat>)
    requires ValidChannel(c)
  {
    && c.paste.Some?
    && (LEFT_SHIFT in g ==> LEFT_SHIFT in o || (c.paste.value.pressed && CurrentStroke(c).shift))
  }

  lemma {:induction false} MidShiftStep(c: Channel, g: set<nat>, o: set<nat>, x: Act)
    requires ValidChannel(c) && Proper(x) && MidShift(c, g, o) && StateAfter(c, x).paste.Some?
    ensures MidShift(StateAfter(c, x), GuestReplay(g, CodesFor(c, x)), GuestReplay(o, OwnOf([x])))
  {
    hide GuestReplay, CodesFor, OwnOf, Proper, Position;
    ActOnShift(c, g, x);
    OwnStep(o, x, LEFT_SHIFT);
  }

  lemma {:induction false} MidShiftRun(c: Channel, g: set<nat>, o: set<nat>, acts: seq<Act>)
    requires ValidChannel(c) && AllProper(acts) && MidShift(c, g, o) && Within(c, acts)
    ensures MidShift(RunState(c, acts), GuestReplay(g, RunCodes(c, acts)), GuestReplay(o, OwnOf(acts)))
    decreases |acts|
  {
    hide GuestReplay, Proper, StateAfter, CodesFor, MidShift;
    if acts == [] {
      ReplayNothing(g);
      ReplayNothing(o);
    } else {
      var x, rest := acts[0], acts[1..];
      var c1 := StateAfter(c, x);
      assert Within(c1, rest);
      MidShiftStep(c, g, o, x);
      OwnHead(acts);
      GuestReplayConcat(g, CodesFor(c, x), RunCodes(c1, rest));
      GuestReplayConcat(o, OwnOf([x]), OwnOf(rest));
      MidShiftRun(c1, GuestReplay(g, CodesFor(c, x)), GuestReplay(o, OwnOf([x])), rest);
    }
  }

  /** A paste with anything else in between, from a guest that agreed on Shift. If the host held it
      when the paste began, the end agrees if and only if it still does, or does again. If not, and
      the host holds it at the end, if and only if no stroke has taken it since. */
  lemma {:induction false} PasteAgreesOnShiftIff(c: Channel, g: set<nat>, o: set<nat>, strokes: seq<Stroke>,
                                                 mid: seq<Act>)
    requires ValidChannel(c) && c.paste.None? && strokes != [] && Typable(strokes) && AllProper(mid)
    requires (c.held.shift <==> LEFT_SHIFT in g) && (LEFT_SHIFT in g <==> LEFT_SHIFT in o)
    requires var c1 := StateAfter(c, StartPaste(strokes));
             Within(c1, mid) && Ends(RunState(c1, mid), Advance)
    ensures var c1 := StateAfter(c, StartPaste(strokes));
            var c2 := RunState(c1, mid);
            var codes := CodesFor(c, StartPaste(strokes)) + RunCodes(c1, mid) + CodesFor(c2, Advance);
            var believed, held := LEFT_SHIFT in GuestReplay(g, codes), LEFT_SHIFT in GuestReplay(o, OwnOf(mid));
            var untaken := ShiftAfterAll(c1, mid, false) && !CurrentStroke(c2).shift;
            (believed <==> held) <==> if LEFT_SHIFT in g then held else held ==> untaken
  {
    hide GuestReplay, StateAfter, CodesFor, RunCodes, RunState, OwnOf, Within, ShiftAfterAll, AllProper;
    var x := StartPaste(strokes);
    var c1 := StateAfter(c, x);
    var c2 := RunState(c1, mid);
    var first, middle, last := CodesFor(c, x), RunCodes(c1, mid), CodesFor(c2, Advance);
    PasteBegins(c, strokes);
    ActOnShift(c, g, x);
    var g1 := GuestReplay(g, first);
    MidShiftRun(c1, g1, o, mid);
    ShiftFollows(c1, g1, mid);
    var g2 := GuestReplay(g1, middle);
    SavedStays(c1, mid);
    ActOnShift(c2, g2, Advance);
    GuestReplayConcat(g, first, middle);
    GuestReplayConcat(g, first + middle, last);
  }

  lemma {:induction false} SavedStays(c: Channel, acts: seq<Act>)
    requires ValidChannel(c) && AllValid(acts) && Within(c, acts)
    ensures RunState(c, acts).paste.Some? && RunState(c, acts).paste.value.saved == c.paste.value.saved
    decreases |acts|
  {
    if acts != [] {
      hide StateAfter;
      StaysInPaste(c, acts[0]);
      SavedStays(StateAfter(c, acts[0]), acts[1..]);
    }
  }

  // ----- A cancelled paste

  /** The positions of the strokes from `i` to before `j`. */
  ghost function TypedBetween(strokes: seq<Stroke>, i: nat, j: nat): set<nat> {
    set k | i <= k < j && k < |strokes| :: PositionOf(strokes[k].key)
  }

  /** What half a stroke leaves pressed. */
  function HalfTyped(s: Stroke): set<nat> {
    ShiftOf(s) + {PositionOf(s.key)}
  }

  lemma {:induction false} OneStep(c: Channel, rest: seq<Act>)
    requires ValidChannel(c) && AllValid(rest)
    ensures var acts := [Advance] + rest;
            && AllValid(acts)
            && RunState(c, acts) == RunState(StateAfter(c, Advance), rest)
            && RunCodes(c, acts) == CodesFor(c, Advance) + RunCodes(StateAfter(c, Advance), rest)
  {
    hide StateAfter, CodesFor, ValidChannel, ValidAct;
    AdvanceIsValid();
    var acts := [Advance] + rest;
    assert acts[1..] == rest;
    forall i | 0 <= i < |acts| ensures ValidAct(acts[i]) {
      assert i >= 1 ==> acts[i] == rest[i - 1];
    }
  }

  /** Some halves of the strokes of a paste, not all: the whole strokes release what they type, and a
      half one leaves its key pressed, and Shift if it goes with it. */
  lemma {:induction false} TypeSome(c: Channel, g: set<nat>, n: nat)
    requires ValidChannel(c) && c.paste.Some? && !c.paste.value.pressed && LEFT_SHIFT !in g
    requires n < 2 * (|c.paste.value.strokes| - c.paste.value.index)
    ensures var p := c.paste.value;
            var done := p.index + n / 2;
            && RunState(c, Advances(n)) == c.(paste := Some(p.(index := done, pressed := n % 2 == 1)))
            && GuestReplay(g, RunCodes(c, Advances(n)))
               == g - TypedBetween(p.strokes, p.index, done) + (if n % 2 == 1 then HalfTyped(p.strokes[done]) else {})
    decreases n
  {
    hide GuestReplay, Scancode, PositionOf, PressCodes, ReleaseCodes, RunCodes, RunState, TypedBetween;
    var p := c.paste.value;
    var stroke := p.strokes[p.index];
    var c1 := StateAfter(c, Advance);
    NoneBetween(p.strokes, p.index);
    if n == 0 {
      NothingMore(c);
      ReplayNothing(g);
    } else if n == 1 {
      assert Advances(1) == [Advance] + Advances(0);
      OneStep(c, Advances(0));
      NothingMore(c1);
      ReplayPress(g, stroke);
      assert PressCodes(stroke) + [] == PressCodes(stroke);
    } else {
      var c2, rest := StateAfter(c1, Advance), Advances(n - 2);
      assert Advances(n) == [Advance] + ([Advance] + rest);
      TwoSteps(c, rest);
      var press, release := CodesFor(c, Advance), CodesFor(c1, Advance);
      assert release == ReleaseCodes(stroke) + [] == ReleaseCodes(stroke);
      ModifiersAreNoKeys(stroke.key);
      ReplayPress(g, stroke);
      var g1 := GuestReplay(g, press);
      ReplayRelease(g1, stroke);
      var g2 := GuestReplay(g1, release);
      assert g2 == g - {PositionOf(stroke.key)};
      GuestReplayConcat(g, press, release + RunCodes(c2, rest));
      GuestReplayConcat(g1, release, RunCodes(c2, rest));
      TypeSome(c2, g2, n - 2);
      assert n / 2 == 1 + (n - 2) / 2 && n % 2 == (n - 2) % 2;
      OneMoreBetween(p.strokes, p.index, p.index + n / 2);
    }
  }

  lemma {:induction false} NoneBetween(strokes: seq<Stroke>, i: nat)
    ensures TypedBetween(strokes, i, i) == {}
  {
  }

  lemma {:induction false} OneMoreBetween(strokes: seq<Stroke>, i: nat, j: nat)
    requires i < j && i < |strokes|
    ensures TypedBetween(strokes, i, j) == {PositionOf(strokes[i].key)} + TypedBetween(strokes, i + 1, j)
  {
    hide PositionOf;
  }

  /** A paste of which `n` halves of strokes are typed when it is cancelled, with nothing else in
      between: the modifiers it released stay released, the keys of its whole strokes are released,
      and a half stroke's key, and Shift if it goes with it, stay pressed. */
  lemma {:induction false} CancelLeaves(c: Channel, g: set<nat>, strokes: seq<Stroke>, n: nat)
    requires ValidChannel(c) && c.paste.None? && Typable(strokes) && InStep(c.held, g) && n < 2 * |strokes|
    ensures var c1 := StateAfter(c, StartPaste(strokes));
            var c2 := RunState(c1, Advances(n));
            var codes := CodesFor(c, StartPaste(strokes)) + RunCodes(c1, Advances(n)) + CodesFor(c2, Cancel);
            && StateAfter(c2, Cancel) == Channel(NONE_HELD, None)
            && GuestReplay(g, codes)
               == g - HeldSet(c.held) - TypedBetween(strokes, 0, n / 2)
                  + (if n % 2 == 1 then HalfTyped(strokes[n / 2]) else {})
  {
    hide GuestReplay, Scancode, Advances, TypedBetween, HalfTyped, RunCodes, RunState, UpCodes, HeldSet;
    var c1 := StateAfter(c, StartPaste(strokes));
    var c2 := RunState(c1, Advances(n));
    PasteBegins(c, strokes);
    ReplayUp(g, c.held);
    ShiftReleased(c.held, g);
    var g1 := g - HeldSet(c.held);
    TypeSome(c1, g1, n);
    GuestReplayConcat(g, UpCodes(c.held), RunCodes(c1, Advances(n)));
    var codes := UpCodes(c.held) + RunCodes(c1, Advances(n));
    assert codes + [] == codes;
  }

  lemma {:induction false} ShiftReleased(h: Held, g: set<nat>)
    requires InStep(h, g)
    ensures LEFT_SHIFT !in g - HeldSet(h)
    ensures HeldSet(h) == {} <==> h == NONE_HELD
    ensures HeldSet(h) <= g
  {
  }

  /** So cancelling between two strokes does no harm if and only if no modifier was held when the
      paste began and it typed no held key. */
  lemma {:induction false} CancelAgreesIff(c: Channel, g: set<nat>, strokes: seq<Stroke>, whole: nat)
    requires ValidChannel(c) && c.paste.None? && Typable(strokes) && InStep(c.held, g) && whole < |strokes|
    ensures var c1 := StateAfter(c, StartPaste(strokes));
            var codes := CodesFor(c, StartPaste(strokes)) + RunCodes(c1, Advances(2 * whole))
                         + CodesFor(RunState(c1, Advances(2 * whole)), Cancel);
            GuestReplay(g, codes) == g <==> c.held == NONE_HELD && TypedBetween(strokes, 0, whole) !! g
  {
    hide GuestReplay, Scancode, Advances, TypedBetween, RunCodes, RunState, HeldSet, StateAfter, CodesFor;
    CancelLeaves(c, g, strokes, 2 * whole);
    ShiftReleased(c.held, g);
    assert 2 * whole / 2 == whole && 2 * whole % 2 == 0;
  }

  /** And cancelling in the middle of a stroke leaves its key pressed, whoever holds it. */
  lemma {:induction false} CancelLeavesKeyPressed(c: Channel, g: set<nat>, strokes: seq<Stroke>, whole: nat)
    requires ValidChannel(c) && c.paste.None? && Typable(strokes) && InStep(c.held, g) && whole < |strokes|
    ensures var c1 := StateAfter(c, StartPaste(strokes));
            var codes := CodesFor(c, StartPaste(strokes)) + RunCodes(c1, Advances(2 * whole + 1))
                         + CodesFor(RunState(c1, Advances(2 * whole + 1)), Cancel);
            && PositionOf(strokes[whole].key) in GuestReplay(g, codes)
            && (strokes[whole].shift ==> LEFT_SHIFT in GuestReplay(g, codes))
  {
    hide GuestReplay, Scancode, Advances, TypedBetween, RunCodes, RunState, HeldSet, StateAfter, CodesFor, PositionOf;
    CancelLeaves(c, g, strokes, 2 * whole + 1);
    assert (2 * whole + 1) / 2 == whole && (2 * whole + 1) % 2 == 1;
  }
}
