/** The inputs channel, where key events reach the wire, and its paste-as-keystrokes: a second typist
    on the guest's keyboard, working between the host's own events. */
module PasteKeys {
  import opened Options
  import opened Keys
  import opened Keyboard
  import opened KeySenders
  import opened GuestKeys

  /** One character to type: its key, and whether Shift goes with it. */
  datatype Stroke = Stroke(key: Key, shift: bool)

  datatype Held = Held(ctrl: bool, shift: bool, alt: bool)

  const NONE_HELD := Held(false, false, false)

  datatype Typing = Typing(strokes: seq<Stroke>, index: nat, pressed: bool, saved: Held)

  datatype Channel = Channel(held: Held, paste: Option<Typing>)

  /** `Handle` is an event from the input queue, `own` unless it is the cadence's. */
  datatype Act = Handle(event: InputEvent, own: bool) | StartPaste(strokes: seq<Stroke>) | Advance | Cancel

  predicate Typable(strokes: seq<Stroke>) {
    forall i :: 0 <= i < |strokes| ==> Scancode(strokes[i].key).Some?
  }

  predicate ValidChannel(c: Channel) {
    c.paste.Some? ==> Typable(c.paste.value.strokes) && c.paste.value.index < |c.paste.value.strokes|
  }

  predicate ValidAct(x: Act) {
    x.StartPaste? ==> Typable(x.strokes)
  }

  predicate AllValid(acts: seq<Act>) {
    forall i :: 0 <= i < |acts| ==> ValidAct(acts[i])
  }

  /** What the channel records of a modifier's event. */
  function Tracked(h: Held, e: InputEvent): Held {
    if e == KeyDown(0x1D) then h.(ctrl := true)
    else if e == KeyDown(0x2A) then h.(shift := true)
    else if e == KeyDown(0x38) then h.(alt := true)
    else if e == KeyUp(0x9D) then h.(ctrl := false)
    else if e == KeyUp(0xAA) then h.(shift := false)
    else if e == KeyUp(0xB8) then h.(alt := false)
    else h
  }

  function When(b: bool, code: nat): seq<nat> {
    if b then [code] else []
  }

  function UpCodes(h: Held): seq<nat> {
    When(h.ctrl, 0x9D) + When(h.shift, 0xAA) + When(h.alt, 0xB8)
  }

  function DownCodes(h: Held): seq<nat> {
    When(h.ctrl, 0x1D) + When(h.shift, 0x2A) + When(h.alt, 0x38)
  }

  function PressCodes(s: Stroke): seq<nat>
    requires Scancode(s.key).Some?
  {
    When(s.shift, 0x2A) + [Scancode(s.key).value.down]
  }

  function ReleaseCodes(s: Stroke): seq<nat>
    requires Scancode(s.key).Some?
  {
    [Scancode(s.key).value.up] + When(s.shift, 0xAA)
  }

  predicate Starts(c: Channel, x: Act) {
    x.StartPaste? && c.paste.None? && x.strokes != []
  }

  /** The step that types the last character's release and ends the paste. */
  predicate Ends(c: Channel, x: Act) {
    x.Advance? && c.paste.Some? && c.paste.value.pressed && c.paste.value.index + 1 >= |c.paste.value.strokes|
  }

  function CodesFor(c: Channel, x: Act): seq<nat>
    requires ValidChannel(c) && ValidAct(x)
  {
    match x
    case Handle(e, _) => [e.code]
    case StartPaste(_) => if Starts(c, x) then UpCodes(c.held) else []
    case Advance =>
      if c.paste.None? then []
      else
        var p := c.paste.value;
        var stroke := p.strokes[p.index];
        if !p.pressed then PressCodes(stroke)
        else ReleaseCodes(stroke) + (if Ends(c, x) then DownCodes(p.saved) else [])
    case Cancel => []
  }

  function StateAfter(c: Channel, x: Act): (c': Channel)
    requires ValidChannel(c) && ValidAct(x)
    ensures ValidChannel(c')
  {
    match x
    case Handle(e, _) => c.(held := Tracked(c.held, e))
    case StartPaste(strokes) => if Starts(c, x) then Channel(NONE_HELD, Some(Typing(strokes, 0, false, c.held))) else c
    case Advance =>
      if c.paste.None? then c
      else
        var p := c.paste.value;
        if !p.pressed then c.(paste := Some(p.(pressed := true)))
        else if Ends(c, x) then
          Channel(Held(c.held.ctrl || p.saved.ctrl, c.held.shift || p.saved.shift, c.held.alt || p.saved.alt), None)
        else c.(paste := Some(p.(index := p.index + 1, pressed := false)))
    case Cancel => c.(paste := None)
  }

  class InputsChannel {
    var ctrlHeld: bool
    var shiftHeld: bool
    var altHeld: bool
    var paste: Option<Typing>
    var wire: seq<Sent>

    function State(): Channel
      reads this
    {
      Channel(Held(ctrlHeld, shiftHeld, altHeld), paste)
    }

    constructor ()
      ensures State() == Channel(NONE_HELD, None) && wire == []
    {
      ctrlHeld, shiftHeld, altHeld, paste, wire := false, false, false, None, [];
    }

    method Send(own: bool, code: nat)
      modifies this`wire
      ensures wire == old(wire) + Tag(own, [code])
    {
      wire := wire + [Sent(own, code)];
    }

    method HandleKey(event: InputEvent, own: bool)
      requires ValidChannel(State())
      modifies this
      ensures State() == StateAfter(old(State()), Handle(event, own))
      ensures wire == old(wire) + Tag(own, CodesFor(old(State()), Handle(event, own)))
    {
      Send(own, event.code);
      match event
      case KeyDown(code) =>
        if code == 0x1D {
          ctrlHeld := true;
        } else if code == 0x2A {
          shiftHeld := true;
        } else if code == 0x38 {
          altHeld := true;
        }
      case KeyUp(code) =>
        if code == 0x9D {
          ctrlHeld := false;
        } else if code == 0xAA {
          shiftHeld := false;
        } else if code == 0xB8 {
          altHeld := false;
        }
    }

    /** Release the modifiers held, remember them, and begin to type; nothing while a paste is
        under way. */
    method BeginPaste(strokes: seq<Stroke>)
      requires ValidChannel(State()) && Typable(strokes)
      modifies this
      ensures State() == StateAfter(old(State()), StartPaste(strokes))
      ensures wire == old(wire) + Tag(false, CodesFor(old(State()), StartPaste(strokes)))
    {
      hide Scancode;
      if paste.Some? || strokes == [] {
        assert wire + Tag(false, []) == wire;
        return;
      }
      var saved := Held(ctrlHeld, shiftHeld, altHeld);
      if ctrlHeld {
        Send(false, 0x9D);
        ctrlHeld := false;
      }
      if shiftHeld {
        Send(false, 0xAA);
        shiftHeld := false;
      }
      if altHeld {
        Send(false, 0xB8);
        altHeld := false;
      }
      paste := Some(Typing(strokes, 0, false, saved));
    }

    /** One half of a stroke; after the last, press the remembered modifiers again. */
    method AdvancePaste()
      requires ValidChannel(State())
      modifies this
      ensures State() == StateAfter(old(State()), Advance)
      ensures wire == old(wire) + Tag(false, CodesFor(old(State()), Advance))
    {
      hide Scancode;
      if paste.None? {
        assert wire + Tag(false, []) == wire;
        return;
      }
      var p := paste.value;
      var stroke := p.strokes[p.index];
      if !p.pressed {
        if stroke.shift {
          Send(false, 0x2A);
        }
        Send(false, Scancode(stroke.key).value.down);
        paste := Some(p.(pressed := true));
      } else {
        Send(false, Scancode(stroke.key).value.up);
        if stroke.shift {
          Send(false, 0xAA);
        }
        if p.index + 1 >= |p.strokes| {
          paste := None;
          RestoreModifiers(p.saved);
        } else {
          paste := Some(p.(index := p.index + 1, pressed := false));
        }
      }
    }

    method RestoreModifiers(saved: Held)
      modifies this`ctrlHeld, this`shiftHeld, this`altHeld, this`wire
      ensures State().held
              == Held(old(ctrlHeld) || saved.ctrl, old(shiftHeld) || saved.shift, old(altHeld) || saved.alt)
      ensures wire == old(wire) + Tag(false, DownCodes(saved))
    {
      if saved.ctrl {
        Send(false, 0x1D);
        ctrlHeld := true;
      }
      if saved.shift {
        Send(false, 0x2A);
        shiftHeld := true;
      }
      if saved.alt {
        Send(false, 0x38);
        altHeld := true;
      }
    }

    /** A cancelled paste just stops. */
    method CancelPaste()
      modifies this`paste
      ensures State() == old(State()).(paste := None)
    {
      paste := None;
    }
  }

  // ----- What one act's codes do to the guest

  lemma {:induction false} ModifierCodesName()
    ensures Position(0x1D) == Position(0x9D) == LEFT_CTRL && !IsBreak(0x1D) && IsBreak(0x9D)
    ensures Position(0x2A) == Position(0xAA) == LEFT_SHIFT && !IsBreak(0x2A) && IsBreak(0xAA)
    ensures Position(0x38) == Position(0xB8) == LEFT_ALT && !IsBreak(0x38) && IsBreak(0xB8)
  {
  }

  lemma {:induction false} ReplayWhen(g: set<nat>, codes: seq<nat>, b: bool, code: nat)
    ensures GuestReplay(g, codes + When(b, code))
            == if b then GuestApply(GuestReplay(g, codes), code) else GuestReplay(g, codes)
  {
    if b {
      assert (codes + [code])[..|codes|] == codes;
    } else {
      assert codes + [] == codes;
    }
  }

  function HeldSet(h: Held): set<nat> {
    (if h.ctrl then {LEFT_CTRL} else {}) + (if h.shift then {LEFT_SHIFT} else {}) + (if h.alt then {LEFT_ALT} else {})
  }

  lemma {:induction false} ReplayUp(g: set<nat>, h: Held)
    ensures GuestReplay(g, UpCodes(h)) == g - HeldSet(h)
  {
    hide Position, IsBreak, GuestReplay;
    ModifierCodesName();
    ReplayNothing(g);
    assert [] + When(h.ctrl, 0x9D) == When(h.ctrl, 0x9D);
    ReplayWhen(g, [], h.ctrl, 0x9D);
    ReplayWhen(g, When(h.ctrl, 0x9D), h.shift, 0xAA);
    ReplayWhen(g, When(h.ctrl, 0x9D) + When(h.shift, 0xAA), h.alt, 0xB8);
  }

  lemma {:induction false} ReplayDown(g: set<nat>, h: Held)
    ensures GuestReplay(g, DownCodes(h)) == g + HeldSet(h)
  {
    hide Position, IsBreak, GuestReplay;
    ModifierCodesName();
    ReplayNothing(g);
    assert [] + When(h.ctrl, 0x1D) == When(h.ctrl, 0x1D);
    ReplayWhen(g, [], h.ctrl, 0x1D);
    ReplayWhen(g, When(h.ctrl, 0x1D), h.shift, 0x2A);
    ReplayWhen(g, When(h.ctrl, 0x1D) + When(h.shift, 0x2A), h.alt, 0x38);
  }

  lemma {:induction false} ReplayNothing(g: set<nat>)
    ensures GuestReplay(g, []) == g
  {
  }

  lemma {:induction false} ReplaySingle(g: set<nat>, code: nat)
    ensures GuestReplay(g, [code]) == GuestApply(g, code)
  {
    assert [code][..0] == [];
  }

  function ShiftOf(s: Stroke): set<nat> {
    if s.shift then {LEFT_SHIFT} else {}
  }

  lemma {:induction false} ReplayPress(g: set<nat>, s: Stroke)
    requires Scancode(s.key).Some?
    ensures GuestReplay(g, PressCodes(s)) == g + ShiftOf(s) + {PositionOf(s.key)}
  {
    hide Position, IsBreak, GuestReplay, Scancode, PositionOf;
    ModifierCodesName();
    ScancodeNamesKey(s.key);
    ReplayNothing(g);
    assert [] + When(s.shift, 0x2A) == When(s.shift, 0x2A);
    ReplayWhen(g, [], s.shift, 0x2A);
    var down := Scancode(s.key).value.down;
    GuestReplayConcat(g, When(s.shift, 0x2A), [down]);
    ReplaySingle(GuestReplay(g, When(s.shift, 0x2A)), down);
  }

  lemma {:induction false} ReplayRelease(g: set<nat>, s: Stroke)
    requires Scancode(s.key).Some?
    ensures GuestReplay(g, ReleaseCodes(s)) == g - {PositionOf(s.key)} - ShiftOf(s)
  {
    hide Position, IsBreak, GuestReplay, Scancode, PositionOf;
    ModifierCodesName();
    ScancodeNamesKey(s.key);
    var up := Scancode(s.key).value.up;
    ReplaySingle(g, up);
    ReplayWhen(g, [up], s.shift, 0xAA);
  }

  // ----- A paste with nothing in between

  function RunCodes(c: Channel, acts: seq<Act>): seq<nat>
    requires ValidChannel(c) && AllValid(acts)
    decreases |acts|
  {
    if acts == [] then [] else CodesFor(c, acts[0]) + RunCodes(StateAfter(c, acts[0]), acts[1..])
  }

  function RunState(c: Channel, acts: seq<Act>): (c': Channel)
    requires ValidChannel(c) && AllValid(acts)
    ensures ValidChannel(c')
    decreases |acts|
  {
    if acts == [] then c else RunState(StateAfter(c, acts[0]), acts[1..])
  }

  function Advances(n: nat): (acts: seq<Act>)
    ensures forall i :: 0 <= i < |acts| ==> acts[i] == Advance
    ensures AllValid(acts)
  {
    if n == 0 then [] else [Advance] + Advances(n - 1)
  }

  /** The positions a text types from stroke `i` on. */
  ghost function Typed(strokes: seq<Stroke>, i: nat): set<nat> {
    set j | i <= j < |strokes| :: PositionOf(strokes[j].key)
  }

  lemma {:induction false} TwoSteps(c: Channel, rest: seq<Act>)
    requires ValidChannel(c) && AllValid(rest)
    ensures var acts, d := [Advance] + ([Advance] + rest), StateAfter(StateAfter(c, Advance), Advance);
            && AllValid(acts)
            && RunState(c, acts) == RunState(d, rest)
            && RunCodes(c, acts)
               == CodesFor(c, Advance) + (CodesFor(StateAfter(c, Advance), Advance) + RunCodes(d, rest))
  {
    hide StateAfter, CodesFor, ValidChannel, ValidAct;
    var tail := [Advance] + rest;
    var acts := [Advance] + tail;
    AdvanceIsValid();
    assert acts[1..] == tail && tail[1..] == rest;
    forall i | 0 <= i < |acts| ensures ValidAct(acts[i]) {
      assert i >= 2 ==> acts[i] == rest[i - 2];
    }
  }

  lemma {:induction false} AdvanceIsValid()
    ensures ValidAct(Advance)
  {
  }

  /** Typing out the rest of a paste releases each key it types, and Shift if it ever used it, and
      then presses what was saved. */
  lemma {:induction false} TypeOut(c: Channel, g: set<nat>)
    requires ValidChannel(c) && c.paste.Some? && !c.paste.value.pressed && c.held == NONE_HELD && LEFT_SHIFT !in g
    ensures var p := c.paste.value;
            var acts := Advances(2 * (|p.strokes| - p.index));
            && RunState(c, acts) == Channel(p.saved, None)
            && GuestReplay(g, RunCodes(c, acts)) == g - Typed(p.strokes, p.index) + HeldSet(p.saved)
    decreases |c.paste.value.strokes| - c.paste.value.index
  {
    hide GuestReplay, Scancode, PositionOf, HeldSet, PressCodes, ReleaseCodes, DownCodes, RunCodes, RunState;
    var p := c.paste.value;
    var n, stroke := |p.strokes| - p.index, p.strokes[p.index];
    var c1 := StateAfter(c, Advance);
    var c2 := StateAfter(c1, Advance);
    var rest := Advances(2 * n - 2);
    assert Advances(2 * n) == [Advance] + ([Advance] + rest);
    TwoSteps(c, rest);
    TypedStep(p.strokes, p.index);
    ModifiersAreNoKeys(stroke.key);
    var press, release := CodesFor(c, Advance), CodesFor(c1, Advance);
    ReplayPress(g, stroke);
    var g1 := GuestReplay(g, press);
    ReplayRelease(g1, stroke);
    var g2 := GuestReplay(g1, ReleaseCodes(stroke));
    assert g2 == g - {PositionOf(stroke.key)};
    GuestReplayConcat(g, press, release + RunCodes(c2, rest));
    GuestReplayConcat(g1, release, RunCodes(c2, rest));
    if Ends(c1, Advance) {
      NothingMore(c2);
      GuestReplayConcat(g1, ReleaseCodes(stroke), DownCodes(p.saved));
      ReplayDown(g2, p.saved);
      ReplayNothing(GuestReplay(g1, release));
    } else {
      assert release == ReleaseCodes(stroke) + [] == ReleaseCodes(stroke);
      TypeOut(c2, g2);
    }
  }

  lemma {:induction false} NothingMore(c: Channel)
    requires ValidChannel(c)
    ensures RunState(c, Advances(0)) == c && RunCodes(c, Advances(0)) == []
  {
  }

  lemma {:induction false} TypedStep(strokes: seq<Stroke>, i: nat)
    requires i < |strokes|
    ensures Typed(strokes, i) == {PositionOf(strokes[i].key)} + Typed(strokes, i + 1)
    ensures i + 1 == |strokes| ==> Typed(strokes, i + 1) == {}
  {
    hide PositionOf;
  }

  /** The channel's record of the modifiers is what the guest believes of them. */
  predicate InStep(h: Held, g: set<nat>) {
    && (h.ctrl <==> LEFT_CTRL in g) && (h.shift <==> LEFT_SHIFT in g) && (h.alt <==> LEFT_ALT in g)
  }

  function WholePaste(strokes: seq<Stroke>): seq<Act> {
    [StartPaste(strokes)] + Advances(2 * |strokes|)
  }

  /** A paste that nothing interrupts leaves channel and modifiers as they were and takes from the
      guest exactly the held keys it types: it does no harm if and only if it types none. */
  lemma {:induction false} PasteAlone(c: Channel, g: set<nat>, strokes: seq<Stroke>)
    requires ValidChannel(c) && c.paste.None? && strokes != [] && Typable(strokes) && InStep(c.held, g)
    ensures AllValid(WholePaste(strokes))
    ensures RunState(c, WholePaste(strokes)) == c
    ensures GuestReplay(g, RunCodes(c, WholePaste(strokes))) == g - Typed(strokes, 0)
    ensures GuestReplay(g, RunCodes(c, WholePaste(strokes))) == g <==> Typed(strokes, 0) !! g
  {
    hide GuestReplay, Scancode, Advances, CodesFor, Typed, DownCodes, UpCodes;
    var acts, c1 := WholePaste(strokes), StateAfter(c, StartPaste(strokes));
    var rest := Advances(2 * |strokes|);
    assert acts[1..] == rest && acts[0] == StartPaste(strokes);
    assert forall i :: 1 <= i < |acts| ==> acts[i] == rest[i - 1];
    PasteBegins(c, strokes);
    ReplayUp(g, c.held);
    var g1 := g - HeldSet(c.held);
    TypeOut(c1, g1);
    GuestReplayConcat(g, UpCodes(c.held), RunCodes(c1, rest));
    TypedAreNoModifiers(strokes);
    assert g - HeldSet(c.held) - Typed(strokes, 0) + HeldSet(c.held) == g - Typed(strokes, 0);
  }

  lemma {:induction false} PasteBegins(c: Channel, strokes: seq<Stroke>)
    requires ValidChannel(c) && c.paste.None? && strokes != [] && Typable(strokes)
    ensures CodesFor(c, StartPaste(strokes)) == UpCodes(c.held)
    ensures StateAfter(c, StartPaste(strokes)) == Channel(NONE_HELD, Some(Typing(strokes, 0, false, c.held)))
  {
  }

  lemma {:induction false} TypedAreNoModifiers(strokes: seq<Stroke>)
    requires Typable(strokes)
    ensures Typed(strokes, 0) !! MODIFIERS
  {
    hide Scancode, PositionOf;
    forall j | 0 <= j < |strokes| ensures PositionOf(strokes[j].key) !in MODIFIERS {
      ModifiersAreNoKeys(strokes[j].key);
    }
  }

  // ----- Ctrl and Alt, whatever happens during the paste

  predicate CtrlOrAlt(m: nat) {
    m == LEFT_CTRL || m == LEFT_ALT
  }

  function Flag(h: Held, m: nat): bool {
    if m == LEFT_CTRL then h.ctrl else h.alt
  }

  predicate Speaks(x: Act, m: nat) {
    x.Handle? && Position(x.event.code) == m
  }

  /** A modifier is spoken of by the host alone, and only in the codes the channel records. */
  predicate SpokenAs(x: Act, m: nat, down: nat, up: nat) {
    Speaks(x, m) ==> x.own && (x.event == KeyDown(down) || x.event == KeyUp(up))
  }

  predicate Proper(x: Act) {
    && ValidAct(x)
    && SpokenAs(x, LEFT_CTRL, 0x1D, 0x9D) && SpokenAs(x, LEFT_SHIFT, 0x2A, 0xAA) && SpokenAs(x, LEFT_ALT, 0x38, 0xB8)
  }

  predicate AllProper(acts: seq<Act>)
    ensures AllProper(acts) ==> AllValid(acts)
  {
    if acts == [] then true else Proper(acts[0]) && AllProper(acts[1..])
  }

  /** How an act changes a modifier for the guest. */
  lemma {:induction false} ActOnGuest(c: Channel, g: set<nat>, x: Act, m: nat)
    requires ValidChannel(c) && Proper(x) && CtrlOrAlt(m)
    ensures m in GuestReplay(g, CodesFor(c, x))
            <==> if Speaks(x, m) then x.event.KeyDown?
                 else if Starts(c, x) then m in g && !Flag(c.held, m)
                 else if Ends(c, x) then m in g || Flag(c.paste.value.saved, m)
                 else m in g
  {
    hide GuestReplay, Scancode, PositionOf, Position, IsBreak, PressCodes, ReleaseCodes, DownCodes, UpCodes;
    ModifierCodesName();
    ReplayNothing(g);
    match x
    case Handle(e, _) => ReplaySingle(g, e.code);
    case StartPaste(_) => ReplayUp(g, c.held);
    case Cancel =>
    case Advance =>
      if c.paste.Some? {
        var p := c.paste.value;
        var stroke := p.strokes[p.index];
        ModifiersAreNoKeys(stroke.key);
        ReplayPress(g, stroke);
        ReplayRelease(g, stroke);
        if Ends(c, x) {
          GuestReplayConcat(g, ReleaseCodes(stroke), DownCodes(p.saved));
          ReplayDown(GuestReplay(g, ReleaseCodes(stroke)), p.saved);
        } else {
          assert ReleaseCodes(stroke) + [] == ReleaseCodes(stroke);
        }
      }
  }

  /** And for the channel's record of it. */
  lemma {:induction false} ActOnRecord(c: Channel, x: Act, m: nat)
    requires ValidChannel(c) && Proper(x) && CtrlOrAlt(m)
    ensures Flag(StateAfter(c, x).held, m)
            == if Speaks(x, m) then x.event.KeyDown?
               else if Starts(c, x) then false
               else if Ends(c, x) then Flag(c.held, m) || Flag(c.paste.value.saved, m)
               else Flag(c.held, m)
  {
    hide Position, IsBreak;
    ModifierCodesName();
  }

  /** In every run the channel's record of Ctrl and Alt is what the guest believes. */
  lemma {:induction false} RecordIsBelief(c: Channel, g: set<nat>, acts: seq<Act>, m: nat)
    requires ValidChannel(c) && CtrlOrAlt(m) && (Flag(c.held, m) <==> m in g)
    requires AllProper(acts)
    ensures Flag(RunState(c, acts).held, m) <==> m in GuestReplay(g, RunCodes(c, acts))
    decreases |acts|
  {
    hide GuestReplay, Scancode, Proper, Flag, StateAfter, CodesFor, Starts, Ends;
    if acts == [] {
      ReplayNothing(g);
    } else {
      var x := acts[0];
      ActOnGuest(c, g, x, m);
      ActOnRecord(c, x, m);
      var rest := acts[1..];
      GuestReplayConcat(g, CodesFor(c, x), RunCodes(StateAfter(c, x), rest));
      RecordIsBelief(StateAfter(c, x), GuestReplay(g, CodesFor(c, x)), rest, m);
    }
  }

  /** The codes sent for the host's keys. */
  function OwnOf(acts: seq<Act>): seq<nat> {
    if acts == [] then []
    else (if acts[0].Handle? && acts[0].own then [acts[0].event.code] else []) + OwnOf(acts[1..])
  }

  /** During a paste: the guest has the modifier only if the host has; the host may have it alone
      only if the paste took it away. */
  ghost predicate Midway(c: Channel, g: set<nat>, o: set<nat>, m: nat, saved: bool) {
    && c.paste.Some? && Flag(c.paste.value.saved, m) == saved
    && (Flag(c.held, m) <==> m in g)
    && (m in g ==> m in o)
    && (m in o && m !in g ==> saved)
  }

  /** A paste is under way after each of the acts. */
  predicate Within(c: Channel, acts: seq<Act>)
    requires ValidChannel(c) && AllValid(acts)
    decreases |acts|
  {
    c.paste.Some? && (acts != [] ==> Within(StateAfter(c, acts[0]), acts[1..]))
  }

  lemma {:induction false} OwnStep(o: set<nat>, x: Act, m: nat)
    requires Proper(x) && m in MODIFIERS
    ensures m in GuestReplay(o, OwnOf([x])) <==> if Speaks(x, m) then x.event.KeyDown? else m in o
  {
    hide GuestReplay, Position, IsBreak;
    ModifierCodesName();
    ReplayNothing(o);
    assert [x][1..] == [];
    if x.Handle? && x.own {
      assert OwnOf([x]) == [x.event.code];
      ReplaySingle(o, x.event.code);
    }
  }

  lemma {:induction false} StaysInPaste(c: Channel, x: Act)
    requires ValidChannel(c) && ValidAct(x) && c.paste.Some? && StateAfter(c, x).paste.Some?
    ensures !Starts(c, x) && !Ends(c, x) && StateAfter(c, x).paste.value.saved == c.paste.value.saved
  {
  }

  lemma {:induction false} MidwayRun(c: Channel, g: set<nat>, o: set<nat>, acts: seq<Act>, m: nat, saved: bool)
    requires ValidChannel(c) && CtrlOrAlt(m) && AllProper(acts)
    requires Midway(c, g, o, m, saved) && Within(c, acts)
    ensures Midway(RunState(c, acts), GuestReplay(g, RunCodes(c, acts)), GuestReplay(o, OwnOf(acts)), m, saved)
    decreases |acts|
  {
    hide GuestReplay, Scancode, Proper, StateAfter, CodesFor, Starts, Ends, Speaks, Flag;
    if acts == [] {
      ReplayNothing(g);
      ReplayNothing(o);
    } else {
      var x, rest := acts[0], acts[1..];
      var c1 := StateAfter(c, x);
      assert Within(c1, rest);
      StaysInPaste(c, x);
      ActOnGuest(c, g, x, m);
      ActOnRecord(c, x, m);
      OwnStep(o, x, m);
      OwnHead(acts);
      GuestReplayConcat(g, CodesFor(c, x), RunCodes(c1, rest));
      GuestReplayConcat(o, OwnOf([x]), OwnOf(rest));
      MidwayRun(c1, GuestReplay(g, CodesFor(c, x)), GuestReplay(o, OwnOf([x])), rest, m, saved);
    }
  }

  lemma {:induction false} OwnHead(acts: seq<Act>)
    requires acts != []
    ensures OwnOf(acts) == OwnOf([acts[0]]) + OwnOf(acts[1..])
  {
    assert [acts[0]][1..] == [];
  }

  /** A paste with anything else in between, from a guest that agreed on Ctrl, or Alt: it ends in
      agreement on it if and only if the host, if it held it when the paste began, holds it when the
      paste ends. */
  lemma {:induction false} PasteAgreesIff(c: Channel, g: set<nat>, o: set<nat>, strokes: seq<Stroke>,
                                          mid: seq<Act>, m: nat)
    requires ValidChannel(c) && c.paste.None? && strokes != [] && Typable(strokes) && CtrlOrAlt(m)
    requires AllProper(mid)
    requires (Flag(c.held, m) <==> m in g) && (m in g <==> m in o)
    requires var c1 := StateAfter(c, StartPaste(strokes));
             Within(c1, mid) && Ends(RunState(c1, mid), Advance)
    ensures var c1 := StateAfter(c, StartPaste(strokes));
            var c2 := RunState(c1, mid);
            var codes := CodesFor(c, StartPaste(strokes)) + RunCodes(c1, mid) + CodesFor(c2, Advance);
            var g', o' := GuestReplay(g, codes), GuestReplay(o, OwnOf(mid));
            (m in g' <==> m in o') <==> (m in g ==> m in o')
  {
    hide GuestReplay, Scancode, StateAfter, CodesFor, Flag, RunCodes, RunState, OwnOf, Within;
    var x := StartPaste(strokes);
    var c1 := StateAfter(c, x);
    var c2 := RunState(c1, mid);
    var first, middle, last := CodesFor(c, x), RunCodes(c1, mid), CodesFor(c2, Advance);
    PasteBegins(c, strokes);
    ActOnGuest(c, g, x, m);
    ActOnRecord(c, x, m);
    var g1 := GuestReplay(g, first);
    assert Midway(c1, g1, o, m, m in g);
    MidwayRun(c1, g1, o, mid, m, m in g);
    var g2 := GuestReplay(g1, middle);
    ActOnGuest(c2, g2, Advance, m);
    GuestReplayConcat(g, first, middle);
    GuestReplayConcat(g, first + middle, last);
  }

  // ----- Ctrl let go of during a paste

  const CTRL_DOWN := Channel(Held(true, false, false), None)
  const TYPE_A: seq<Stroke> := [Stroke(Logical(Letter('A')), false)]
  const LET_GO: seq<Act> := [Advance, Handle(KeyUp(0x9D), true)]

  /** Ctrl held, a one-letter paste, Ctrl released before it ends: the guest is left with Ctrl
      pressed and nobody holding it. */
  lemma {:induction false} PasteLeavesCtrlPressed()
    ensures AllValid(LET_GO)
    ensures Typable(TYPE_A)
    ensures var c1 := StateAfter(CTRL_DOWN, StartPaste(TYPE_A));
            var c2 := RunState(c1, LET_GO);
            var codes := CodesFor(CTRL_DOWN, StartPaste(TYPE_A)) + RunCodes(c1, LET_GO) + CodesFor(c2, Advance);
            && c2.paste.Some? && StateAfter(c2, Advance).paste.None?
            && LEFT_CTRL in GuestReplay({LEFT_CTRL}, codes)
            && LEFT_CTRL !in GuestReplay({LEFT_CTRL}, OwnOf(LET_GO))
  {
    hide GuestReplay, Position, IsBreak, PressCodes, ReleaseCodes;
    ModifierCodesName();
    assert Typable(TYPE_A);
    var c1 := StateAfter(CTRL_DOWN, StartPaste(TYPE_A));
    var tail := LET_GO[1..];
    assert tail == [Handle(KeyUp(0x9D), true)] && tail[1..] == [];
    assert RunState(c1, LET_GO) == RunState(StateAfter(c1, Advance), tail);
    assert OwnOf(LET_GO) == [0x9D];
    ReplaySingle({LEFT_CTRL}, 0x9D);
    var c2 := RunState(c1, LET_GO);
    var before := CodesFor(CTRL_DOWN, StartPaste(TYPE_A)) + RunCodes(c1, LET_GO);
    GuestReplayConcat({LEFT_CTRL}, before, CodesFor(c2, Advance));
    ActOnGuest(c2, GuestReplay({LEFT_CTRL}, before), Advance, LEFT_CTRL);
  }

  // ----- The window's events are proper

  /** Every event the window loop sends speaks of Ctrl, Shift and Alt only as the channel expects. */
  lemma {:induction false} WindowSendsProperly(a: App, x: Action, e: InputEvent)
    requires Consistent(a.keys) && Legal(a, x) && e in GuestKeys.Sends(a, x)
    ensures Proper(Handle(e, !x.Cadence?))
  {
    hide Scancode, Position, IsBreak, SentForGuest, Consistent, ModifierEvent, Releases;
    match x
    case HandleInput(now, run) =>
      ModifierPositionsBound(NO_MODIFIERS);
      RunBeside(a.keys, run, {});
      if e in SentIn(run) { KeyIsProper(e, true); } else { ModifierIsProper(LastModifiers(a), now, e); }
    case ReleaseGuestKeys(order) =>
      ReleasesForGuest(a.keys, order);
      if e in Releases(a.keys.held, order) {
        KeyIsProper(e, true);
      } else {
        ModifierIsProper(LastModifiers(a), NO_MODIFIERS, e);
      }
    case Cadence => SpaceCodes();
  }

  lemma {:induction false} KeyIsProper(e: InputEvent, own: bool)
    requires SentForGuest(e)
    ensures Proper(Handle(e, own))
  {
    hide Scancode, Position, IsBreak, PositionOf;
    var k :| Scancode(k).Some? && !IsShortcutKey(k)
             && (e == KeyDown(Scancode(k).value.down) || e == KeyUp(Scancode(k).value.up));
    ScancodeNamesKey(k);
    ModifiersAreNoKeys(k);
  }

  lemma {:induction false} ModifierIsProper(prev: Modifiers, now: Modifiers, e: InputEvent)
    requires e in ModifierEvents(prev, now)
    ensures Proper(Handle(e, true))
  {
    hide Position;
    ModifierCodesName();
  }
}
