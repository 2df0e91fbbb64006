/** What is typed in the guest: every key pressed, with the modifiers it is pressed under. */
module TypedKeys {
  import opened Options
  import opened Keys
  import opened Keyboard
  import opened GuestKeys
  import opened PasteKeys

  datatype Press = Press(position: nat, ctrl: bool, shift: bool, alt: bool)

  /** A press of a key, by a guest that believes `g` pressed. */
  function PressIn(g: set<nat>, position: nat): Press {
    Press(position, 0x1D in g, 0x2A in g, 0x38 in g)
  }

  /** The keys a guest that believes `g` pressed sees pressed by `codes`; modifiers only count for the
      keys after them. */
  function Presses(g: set<nat>, codes: seq<nat>): seq<Press> {
    if codes == [] then []
    else
      var init, last := codes[..|codes| - 1], codes[|codes| - 1];
      Presses(g, init)
      + if IsBreak(last) || Position(last) in MODIFIERS then [] else [PressIn(GuestReplay(g, init), Position(last))]
  }

  lemma {:induction false} PressesConcat(g: set<nat>, a: seq<nat>, b: seq<nat>)
    ensures Presses(g, a + b) == Presses(g, a) + Presses(GuestReplay(g, a), b)
  {
    if b == [] {
      assert a + b == a;
    } else {
      hide Position, IsBreak, GuestReplay;
      var init, last := b[..|b| - 1], b[|b| - 1];
      PressesConcat(g, a, init);
      GuestReplayConcat(g, a, init);
      assert (a + b)[..|a| + |b| - 1] == a + init;
    }
  }

  lemma {:induction false} NoPress(g: set<nat>, codes: seq<nat>)
    requires forall c :: c in codes ==> IsBreak(c) || Position(c) in MODIFIERS
    ensures Presses(g, codes) == []
  {
    if codes != [] {
      hide Position, IsBreak, GuestReplay;
      NoPress(g, codes[..|codes| - 1]);
    }
  }

  lemma {:induction false} OnePress(g: set<nat>, code: nat)
    requires !IsBreak(code) && Position(code) !in MODIFIERS
    ensures Presses(g, [code]) == [PressIn(g, Position(code))]
  {
    hide Position, IsBreak;
    assert [code][..0] == [];
    assert GuestReplay(g, []) == g;
  }

  // ----- A paste

  /** The press a stroke of a text should be. */
  function Wanted(s: Stroke): Press {
    Press(PositionOf(s.key), false, s.shift, false)
  }

  function AllWanted(strokes: seq<Stroke>, i: nat): (ps: seq<Press>)
    requires i <= |strokes|
    ensures |ps| == |strokes| - i
    decreases |strokes| - i
  {
    if i == |strokes| then [] else [Wanted(strokes[i])] + AllWanted(strokes, i + 1)
  }

  /** One stroke, in a guest with no modifier pressed. */
  lemma {:induction false} StrokeTypes(g: set<nat>, s: Stroke)
    requires Scancode(s.key).Some? && g !! MODIFIERS
    ensures Presses(g, PressCodes(s)) == [Wanted(s)]
    ensures Presses(GuestReplay(g, PressCodes(s)), ReleaseCodes(s)) == []
    ensures GuestReplay(GuestReplay(g, PressCodes(s)), ReleaseCodes(s)) == g - {PositionOf(s.key)}
  {
    hide Position, IsBreak, GuestReplay, Scancode, PositionOf, Presses;
    ModifierCodesName();
    ScancodeNamesKey(s.key);
    ModifiersAreNoKeys(s.key);
    var codes, before := Scancode(s.key).value, When(s.shift, 0x2A);
    assert [] + before == before;
    ReplayNothing(g);
    ReplayWhen(g, [], s.shift, 0x2A);
    NoPress(g, before);
    PressesConcat(g, before, [codes.down]);
    OnePress(GuestReplay(g, before), codes.down);
    ReplayPress(g, s);
    NoPress(GuestReplay(g, PressCodes(s)), ReleaseCodes(s));
    ReplayRelease(GuestReplay(g, PressCodes(s)), s);
  }

  lemma {:induction false} ModifierCodesPressNothing(g: set<nat>, h: Held)
    ensures Presses(g, DownCodes(h)) == [] && Presses(g, UpCodes(h)) == []
  {
    hide Position, IsBreak, Presses;
    ModifierCodesName();
    NoPress(g, DownCodes(h));
    NoPress(g, UpCodes(h));
  }

  lemma {:induction false} RestTypes(c: Channel, g: set<nat>)
    requires ValidChannel(c) && c.paste.Some? && !c.paste.value.pressed && g !! MODIFIERS
    ensures var p := c.paste.value;
            Presses(g, RunCodes(c, Advances(2 * (|p.strokes| - p.index)))) == AllWanted(p.strokes, p.index)
    decreases |c.paste.value.strokes| - c.paste.value.index
  {
    hide GuestReplay, Scancode, PositionOf, PressCodes, ReleaseCodes, DownCodes, RunCodes, RunState, Presses, Wanted;
    var p := c.paste.value;
    var n, stroke := |p.strokes| - p.index, p.strokes[p.index];
    var c1 := StateAfter(c, Advance);
    var c2 := StateAfter(c1, Advance);
    var rest := Advances(2 * n - 2);
    assert Advances(2 * n) == [Advance] + ([Advance] + rest);
    TwoSteps(c, rest);
    var press, release := CodesFor(c, Advance), CodesFor(c1, Advance);
    StrokeTypes(g, stroke);
    var g1 := GuestReplay(g, press);
    PressesConcat(g, press, release + RunCodes(c2, rest));
    PressesConcat(g1, release, RunCodes(c2, rest));
    if Ends(c1, Advance) {
      NothingMore(c2);
      PressesConcat(g1, ReleaseCodes(stroke), DownCodes(p.saved));
      ModifierCodesPressNothing(GuestReplay(g1, ReleaseCodes(stroke)), p.saved);
      NoPress(GuestReplay(g1, release), []);
    } else {
      assert release == ReleaseCodes(stroke) + [] == ReleaseCodes(stroke);
      RestTypes(c2, GuestReplay(g1, release));
    }
  }

  lemma {:induction false} WantedAt(strokes: seq<Stroke>, i: nat, j: nat)
    requires i <= j < |strokes|
    ensures AllWanted(strokes, i)[j - i] == Wanted(strokes[j])
    decreases j - i
  {
    hide Wanted;
    if i < j { WantedAt(strokes, i + 1, j); }
  }

  /** A paste that nothing interrupts types its text: the key of every stroke, in order, each under
      Shift exactly if it goes with it and never under Ctrl or Alt, whatever is held. */
  lemma {:induction false} PasteTypesText(c: Channel, g: set<nat>, strokes: seq<Stroke>)
    requires ValidChannel(c) && c.paste.None? && Typable(strokes) && InStep(c.held, g)
    requires strokes != []
    ensures AllValid(WholePaste(strokes))
    ensures var typed := Presses(g, RunCodes(c, WholePaste(strokes)));
            && |typed| == |strokes|
            && forall i :: 0 <= i < |strokes| ==>
                             typed[i] == Press(PositionOf(strokes[i].key), false, strokes[i].shift, false)
  {
    hide GuestReplay, Scancode, PositionOf, Advances, CodesFor, DownCodes, UpCodes, Presses;
    var acts, c1 := WholePaste(strokes), StateAfter(c, StartPaste(strokes));
    var rest := Advances(2 * |strokes|);
    assert acts[1..] == rest && acts[0] == StartPaste(strokes);
    assert forall i :: 1 <= i < |acts| ==> acts[i] == rest[i - 1];
    PasteBegins(c, strokes);
    ReplayUp(g, c.held);
    ModifierCodesPressNothing(g, c.held);
    PressesConcat(g, UpCodes(c.held), RunCodes(c1, rest));
    RestTypes(c1, g - HeldSet(c.held));
    forall i | 0 <= i < |strokes| ensures AllWanted(strokes, 0)[i] == Wanted(strokes[i]) {
      WantedAt(strokes, 0, i);
    }
  }

  /** The codes of the strokes from `i` on: Shift around the key it goes with. */
  function StrokeCodes(strokes: seq<Stroke>, i: nat): seq<nat>
    requires Typable(strokes) && i <= |strokes|
    decreases |strokes| - i
  {
    if i == |strokes| then []
    else
      var s, codes := strokes[i], Scancode(strokes[i].key).value;
      (if s.shift then [0x2A, codes.down, codes.up, 0xAA] else [codes.down, codes.up]) + StrokeCodes(strokes, i + 1)
  }

  lemma {:induction false} RestSends(c: Channel)
    requires ValidChannel(c) && c.paste.Some? && !c.paste.value.pressed
    ensures var p := c.paste.value;
            RunCodes(c, Advances(2 * (|p.strokes| - p.index))) == StrokeCodes(p.strokes, p.index) + DownCodes(p.saved)
    decreases |c.paste.value.strokes| - c.paste.value.index
  {
    hide Scancode, DownCodes, RunCodes, RunState, StrokeCodes;
    var p := c.paste.value;
    var n, stroke := |p.strokes| - p.index, p.strokes[p.index];
    var c1 := StateAfter(c, Advance);
    var c2 := StateAfter(c1, Advance);
    var rest := Advances(2 * n - 2);
    assert Advances(2 * n) == [Advance] + ([Advance] + rest);
    TwoSteps(c, rest);
    StrokeSends(p.strokes, p.index);
    var after := StrokeCodes(p.strokes, p.index + 1);
    if Ends(c1, Advance) {
      NothingMore(c2);
      LastSends(PressCodes(stroke), ReleaseCodes(stroke), after, DownCodes(p.saved));
    } else {
      RestSends(c2);
      assert PressCodes(stroke) + (ReleaseCodes(stroke) + [] + (after + DownCodes(p.saved)))
          == PressCodes(stroke) + ReleaseCodes(stroke) + after + DownCodes(p.saved);
    }
  }

  lemma {:induction false} LastSends(press: seq<nat>, release: seq<nat>, after: seq<nat>, down: seq<nat>)
    requires after == []
    ensures press + (release + down + []) == press + release + after + down
  {
  }

  lemma {:induction false} StrokeSends(strokes: seq<Stroke>, i: nat)
    requires Typable(strokes) && i < |strokes|
    ensures StrokeCodes(strokes, i) == PressCodes(strokes[i]) + ReleaseCodes(strokes[i]) + StrokeCodes(strokes, i + 1)
    ensures i + 1 == |strokes| ==> StrokeCodes(strokes, i + 1) == []
  {
    hide Scancode;
  }

  /** The codes of a paste that nothing interrupts, one by one: the modifiers held let go, the strokes,
      the modifiers pressed again. */
  lemma {:induction false} PasteSends(c: Channel, strokes: seq<Stroke>)
    requires ValidChannel(c) && c.paste.None? && strokes != [] && Typable(strokes)
    ensures AllValid(WholePaste(strokes))
    ensures var h := c.held;
            RunCodes(c, WholePaste(strokes))
            == (if h.ctrl then [0x9D] else []) + (if h.shift then [0xAA] else []) + (if h.alt then [0xB8] else [])
               + (StrokeCodes(strokes, 0)
                  + ((if h.ctrl then [0x1D] else []) + (if h.shift then [0x2A] else [])
                     + (if h.alt then [0x38] else [])))
  {
    hide Advances, CodesFor, StrokeCodes;
    var acts, c1 := WholePaste(strokes), StateAfter(c, StartPaste(strokes));
    var rest := Advances(2 * |strokes|);
    assert acts[1..] == rest && acts[0] == StartPaste(strokes);
    assert forall i :: 1 <= i < |acts| ==> acts[i] == rest[i - 1];
    PasteBegins(c, strokes);
    RestSends(c1);
  }

  /** A second paste while one is under way, and a paste of nothing, do nothing. */
  lemma {:induction false} NoSecondPaste(c: Channel, strokes: seq<Stroke>)
    requires ValidChannel(c) && Typable(strokes) && (c.paste.Some? || strokes == [])
    ensures CodesFor(c, StartPaste(strokes)) == [] && StateAfter(c, StartPaste(strokes)) == c
  {
  }

  // ----- A frame of the window

  lemma {:induction false} PressesUnder(g: set<nat>, h: set<nat>, codes: seq<nat>)
    requires Disjoint(codes) && forall p :: p in MODIFIERS ==> (p in g <==> p in h)
    ensures Presses(g, codes) == Presses(h, codes)
    ensures forall x :: x in Presses(g, codes) ==>
                          (x.ctrl <==> 0x1D in g) && (x.shift <==> 0x2A in g) && (x.alt <==> 0x38 in g)
    ensures forall p :: p in MODIFIERS ==> (p in GuestReplay(g, codes) <==> p in g)
    ensures forall p :: p in MODIFIERS ==> (p in GuestReplay(h, codes) <==> p in h)
  {
    if codes != [] {
      hide Position, IsBreak;
      PressesUnder(g, h, codes[..|codes| - 1]);
    }
  }

  lemma {:induction false} ModifierEventsPressNothing(g: set<nat>, prev: Modifiers, now: Modifiers)
    ensures Presses(g, CodesOf(ModifierEvents(prev, now))) == []
  {
    hide Presses;
    NoPress(g, CodesOf(ModifierEvents(prev, now)));
  }

  /** Every key of a frame is pressed under the modifiers of that frame, not those before it. */
  lemma {:induction false} FrameTypes(a: App, keys: set<nat>, now: Modifiers, run: seq<Handled>)
    requires Consistent(a.keys) && IsRun(a.keys, run) && keys !! MODIFIERS
    ensures var g := keys + ModifierPositions(LastModifiers(a));
            var typed := Presses(g, CodesOf(Sends(a, HandleInput(now, run))));
            && typed == Presses(ModifierPositions(now), CodesOf(SentIn(run)))
            && forall x :: x in typed ==> x.ctrl == now.ctrl && x.shift == now.shift && x.alt == now.alt
  {
    hide GuestReplay, Presses, SentIn, ModifierEvents, IsRun, Consistent, SentForGuest, Disjoint;
    var g, change := keys + ModifierPositions(LastModifiers(a)), ModifierEvents(LastModifiers(a), now);
    ModifierEventsPressNothing(g, LastModifiers(a), now);
    ModifierEventsAgree(keys, LastModifiers(a), now);
    CodesOfConcat(change, SentIn(run));
    PressesConcat(g, CodesOf(change), CodesOf(SentIn(run)));
    RunBeside(a.keys, run, {});
    SentIsDisjoint(SentIn(run));
    PressesUnder(keys + ModifierPositions(now), ModifierPositions(now), CodesOf(SentIn(run)));
  }

  /** The codes of the modifiers, pressed and let go, in the order of the wire. */
  lemma {:induction false} ModifierCodes()
    ensures var all := Modifiers(true, true, true, false, true);
            && ModifierEvents(NO_MODIFIERS, all) == [KeyDown(0x1D), KeyDown(0x2A), KeyDown(0x38)]
            && ModifierEvents(all, NO_MODIFIERS) == [KeyUp(0x9D), KeyUp(0xAA), KeyUp(0xB8)]
            && ModifierEvents(NO_MODIFIERS, NO_MODIFIERS.(ctrl := true)) == [KeyDown(0x1D)]
            && ModifierEvents(NO_MODIFIERS, NO_MODIFIERS.(shift := true)) == [KeyDown(0x2A)]
            && ModifierEvents(NO_MODIFIERS, NO_MODIFIERS.(alt := true)) == [KeyDown(0x38)]
            && ModifierEvents(all, all.(macCmd := true, command := false)) == []
  {
  }
}
