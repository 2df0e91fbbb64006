/** The keyboard translator: unreliable host events in, guest key events out. */
module Keyboard {
  import opened Options
  import opened Keys

  datatype Modifiers = Modifiers(alt: bool, ctrl: bool, shift: bool, macCmd: bool, command: bool)

  const NO_MODIFIERS := Modifiers(false, false, false, false, false)

  /** Host events; `Pasted` stands for a paste with any text, `Unrelated` for every event that is
      not about the keyboard. */
  datatype Event =
    | KeyEvent(key: Key, physical: Option<Key>, pressed: bool, repeat: bool, modifiers: Modifiers)
    | CutEvent | CopyEvent | PasteEvent
    | ModifiersChanged(now: Modifiers)
    | FocusLost
    | Unrelated

  datatype InputEvent = KeyDown(code: nat) | KeyUp(code: nat)

  datatype Chord = Cut | Copy | Paste

  datatype LogKind = LogKey | LogCut | LogCopy | LogPaste | LogModifiers | LogFocusLost | LogReleaseAll

  datatype Outcome = Forwarded | UnheldRelease | Repeat | HostShortcut | Withheld | Unmapped | StateChange

  predicate IsShortcutKey(k: Key) {
    k == Logical(Function(8)) || k == Logical(Function(11)) || k == Logical(Function(12))
  }

  // ----- Clipboard chords

  /** The key whose press the toolkit replaced by a clipboard event. */
  function ReplacedKey(chord: Chord, m: Modifiers): Option<Key> {
    match (chord, m.command, m.shift)
    case (Cut, true, _) => Some(Logical(Letter('X')))
    case (Copy, true, _) => Some(Logical(Letter('C')))
    case (Paste, true, _) => Some(Logical(Letter('V')))
    case (Cut, false, true) => Some(Logical(Navigation(Delete)))
    case (Paste, false, true) => Some(Logical(Navigation(Insert)))
    case _ => None
  }

  predicate ReleasedBy(chord: Chord, k: Key) {
    match chord
    case Cut => k == Logical(Letter('X')) || k == Logical(Navigation(Delete)) || k == CutKey
    case Copy => k == Logical(Letter('C')) || k == Logical(Navigation(Insert)) || k == CopyKey
    case Paste => k == Logical(Letter('V')) || k == Logical(Navigation(Insert)) || k == PasteKey
  }

  predicate IsGuestPaste(k: Key, m: Modifiers) {
    !m.macCmd && ((m.command && k == Logical(Letter('V')))
                  || (m.shift && !m.ctrl && k == Logical(Navigation(Insert))))
  }

  predicate IsPasteShortcut(m: Modifiers) {
    m.ctrl && m.alt
  }

  // ----- Translation on values

  /** The part of the translator's state that decides what is sent. */
  datatype View = View(held: map<Key, nat>, suppressed: set<Key>, clipboard: map<Chord, Option<Key>>,
                       modifiers: Modifiers)

  const FRESH := View(map[], {}, map[], NO_MODIFIERS)

  /** What one event did: the new state, what was sent, and what was logged of it. */
  datatype Step = Step(view: View, sent: seq<InputEvent>, outcome: Outcome)

  function PressChord(v: View, chord: Chord): Step {
    if v.modifiers.macCmd then Step(v.(clipboard := v.clipboard[chord := None]), [], Withheld)
    else
      var key := ReplacedKey(chord, v.modifiers);
      if key == None || Scancode(key.value) == None then Step(v, [], Unmapped)
      else
        var k, codes := key.value, Scancode(key.value).value;
        if k in v.held then Step(v, [KeyDown(codes.down)], Repeat)
        else Step(v.(suppressed := v.suppressed - {k}, held := v.held[k := codes.up],
                     clipboard := v.clipboard[chord := Some(k)]),
                  [KeyDown(codes.down)], Forwarded)
  }

  /** The outstanding chord a release of logical key `k` ends, in the fixed order of chords. */
  function EndedChord(clipboard: map<Chord, Option<Key>>, k: Key): Option<Chord> {
    if ReleasedBy(Cut, k) && Cut in clipboard then Some(Cut)
    else if ReleasedBy(Copy, k) && Copy in clipboard then Some(Copy)
    else if ReleasedBy(Paste, k) && Paste in clipboard then Some(Paste)
    else None
  }

  function LookupKey(key: Key, physical: Option<Key>): Key {
    if physical.Some? then physical.value else key
  }

  function PressKey(v: View, k: Key, codes: Codes, m: Modifiers): Step {
    if k in v.held then
      if m.macCmd then Step(v, [], Withheld) else Step(v, [KeyDown(codes.down)], Repeat)
    else if m.macCmd then Step(v.(suppressed := v.suppressed + {k}), [], Withheld)
    else Step(v.(suppressed := v.suppressed - {k}, held := v.held[k := codes.up]), [KeyDown(codes.down)], Forwarded)
  }

  /** A release of a key recorded neither as held nor by a chord. */
  function StrayRelease(v: View, key: Key, k: Key, codes: Codes, m: Modifiers): Step {
    var v' := v.(suppressed := v.suppressed - {k});
    if k in v.suppressed || m.macCmd || (IsPasteShortcut(m) && key == Logical(Letter('V'))) then Step(v', [], Withheld)
    else Step(v', (if IsGuestPaste(key, m) then [KeyDown(codes.down)] else []) + [KeyUp(codes.up)], UnheldRelease)
  }

  function ReleaseHeld(v: View, k: Key): Step
    requires k in v.held
  {
    Step(v.(held := v.held - {k}, clipboard := map c | c in v.clipboard && v.clipboard[c] != Some(k) :: v.clipboard[c]),
         [KeyUp(v.held[k])], Forwarded)
  }

  function ReleaseChord(v: View, chord: Chord): Step
    requires chord in v.clipboard
  {
    var sent, v' := v.clipboard[chord], v.(clipboard := v.clipboard - {chord});
    if sent.Some? && sent.value in v.held then
      Step(v'.(held := v.held - {sent.value}), [KeyUp(v.held[sent.value])], Forwarded)
    else Step(v', [], Withheld)
  }

  function TranslateKey(v0: View, key: Key, physical: Option<Key>, pressed: bool, m: Modifiers): Step {
    var v := v0.(modifiers := m);
    var k := LookupKey(key, physical);
    if IsShortcutKey(k) then Step(v, [], HostShortcut)
    else if !pressed && k in v.held then ReleaseHeld(v, k)
    else if !pressed && EndedChord(v.clipboard, key).Some? then ReleaseChord(v, EndedChord(v.clipboard, key).value)
    else if Scancode(k) == None then Step(v, [], Unmapped)
    else if pressed then PressKey(v, k, Scancode(k).value, m)
    else StrayRelease(v, key, k, Scancode(k).value, m)
  }

  /** One event other than a focus loss. */
  function Translate(v: View, e: Event): Step
    requires !e.FocusLost? && !e.Unrelated?
  {
    match e
    case KeyEvent(key, physical, pressed, _, m) => TranslateKey(v, key, physical, pressed, m)
    case CutEvent => PressChord(v, Cut)
    case CopyEvent => PressChord(v, Copy)
    case PasteEvent => PressChord(v, Paste)
    case ModifiersChanged(m) => Step(v.(modifiers := m), [], StateChange)
  }

  function KindOf(e: Event): LogKind
    requires !e.FocusLost? && !e.Unrelated?
  {
    match e
    case KeyEvent(_, _, _, _, _) => LogKey
    case CutEvent => LogCut
    case CopyEvent => LogCopy
    case PasteEvent => LogPaste
    case ModifiersChanged(_) => LogModifiers
  }

  /** The key-ups that release every held key, in some order of the keys. */
  function Releases(held: map<Key, nat>, order: seq<Key>): (ups: seq<InputEvent>)
    requires forall k :: k in order ==> k in held
    ensures |ups| == |order|
  {
    seq(|order|, i requires 0 <= i < |order| => assert order[i] in order; KeyUp(held[order[i]]))
  }

  ghost predicate IsOrder(held: map<Key, nat>, order: seq<Key>) {
    && (forall k :: k in order <==> k in held)
    && (forall i, j :: 0 <= i < j < |order| ==> order[i] != order[j])
  }

  function CodesOf(es: seq<InputEvent>): (cs: seq<nat>)
    ensures |cs| == |es|
  {
    seq(|es|, i requires 0 <= i < |es| => es[i].code)
  }

  lemma {:induction false} CodesOfConcat(a: seq<InputEvent>, b: seq<InputEvent>)
    ensures CodesOf(a + b) == CodesOf(a) + CodesOf(b)
  {
  }

  // ----- Guest agreement

  /** The keys a chord can press in the guest. */
  predicate ChordKey(chord: Chord, k: Key) {
    match chord
    case Cut => k == Logical(Letter('X')) || k == Logical(Navigation(Delete))
    case Copy => k == Logical(Letter('C'))
    case Paste => k == Logical(Letter('V')) || k == Logical(Navigation(Insert))
  }

  ghost predicate Consistent(v: View) {
    && (forall k :: k in v.held ==> Scancode(k).Some? && v.held[k] == Scancode(k).value.up && !IsShortcutKey(k))
    && (forall k :: k in v.suppressed ==> k !in v.held)
    && (forall c :: c in v.clipboard && v.clipboard[c].Some? ==>
                      v.clipboard[c].value in v.held && ChordKey(c, v.clipboard[c].value))
  }

  /** The positions of the held keys: what the guest should believe pressed. */
  ghost function HeldPositions(held: map<Key, nat>): set<nat> {
    set k | k in held :: PositionOf(k)
  }

  /** The effect of what was sent on a guest that agreed with the state before it. */
  ghost predicate Agrees(v: View, s: Step) {
    && Consistent(s.view)
    && GuestReplay(HeldPositions(v.held), CodesOf(s.sent)) == HeldPositions(s.view.held)
    && |s.sent| <= 2
    && (forall e :: e in s.sent ==> SentForGuest(e))
  }

  /** Only a mapped key that is not a host shortcut is ever sent. */
  ghost predicate SentForGuest(e: InputEvent) {
    exists k :: Scancode(k).Some? && !IsShortcutKey(k)
                && (e == KeyDown(Scancode(k).value.down) || e == KeyUp(Scancode(k).value.up))
  }

  lemma {:induction false} ReplayOne(pressed: set<nat>, e: InputEvent)
    ensures GuestReplay(pressed, CodesOf([e])) == GuestApply(pressed, e.code)
    ensures GuestReplay(pressed, CodesOf([])) == pressed
  {
    assert CodesOf([e]) == [e.code] && CodesOf([]) == [];
    assert [e.code][..0] == [];
    assert GuestReplay(pressed, []) == pressed;
  }

  lemma {:induction false} DownThenUp(pressed: set<nat>, k: Key)
    requires Scancode(k).Some? && PositionOf(k) !in pressed
    ensures var codes := Scancode(k).value;
            GuestReplay(pressed, CodesOf([KeyDown(codes.down)] + [KeyUp(codes.up)])) == pressed
  {
    hide Position, IsBreak, Scancode, PositionOf;
    var codes := Scancode(k).value;
    ScancodeNamesKey(k);
    CodesOfConcat([KeyDown(codes.down)], [KeyUp(codes.up)]);
    GuestReplayConcat(pressed, CodesOf([KeyDown(codes.down)]), CodesOf([KeyUp(codes.up)]));
    ReplayOne(pressed, KeyDown(codes.down));
    ReplayOne(GuestApply(pressed, codes.down), KeyUp(codes.up));
  }

  lemma {:induction false} UnheldPosition(held: map<Key, nat>, k: Key)
    requires Scancode(k).Some? && k !in held && forall l :: l in held ==> Scancode(l).Some?
    ensures PositionOf(k) !in HeldPositions(held)
  {
    hide PositionOf, Scancode;
    forall l | l in held ensures PositionOf(l) != PositionOf(k) {
      PositionsDiffer(k, l);
    }
  }

  lemma {:induction false} PressAdds(held: map<Key, nat>, k: Key, up: nat)
    requires Scancode(k).Some?
    ensures GuestApply(HeldPositions(held), Scancode(k).value.down) == HeldPositions(held[k := up])
  {
    hide PositionOf, Scancode, Position, IsBreak;
    ScancodeNamesKey(k);
    var after := held[k := up];
    assert forall l :: l in after <==> l in held || l == k;
    assert HeldPositions(after) == HeldPositions(held) + {PositionOf(k)};
  }

  lemma {:induction false} ReleaseRemoves(held: map<Key, nat>, k: Key)
    requires k in held && forall l :: l in held ==> Scancode(l).Some?
    ensures GuestApply(HeldPositions(held), Scancode(k).value.up) == HeldPositions(held - {k})
  {
    hide PositionOf, Scancode, Position, IsBreak;
    ScancodeNamesKey(k);
    var after := held - {k};
    UnheldPosition(after, k);
    assert HeldPositions(held) == HeldPositions(after) + {PositionOf(k)};
  }

  // ----- Every branch keeps the agreement

  lemma {:induction false} SendsNothing(v: View, s: Step)
    requires Consistent(s.view) && s.sent == [] && s.view.held == v.held
    ensures Agrees(v, s)
  {
    ReplayOne(HeldPositions(v.held), KeyUp(0));
  }

  lemma {:induction false} SendsDown(v: View, s: Step, k: Key)
    requires Consistent(s.view) && Scancode(k).Some? && !IsShortcutKey(k)
    requires s.sent == [KeyDown(Scancode(k).value.down)]
    requires s.view.held == v.held[k := Scancode(k).value.up]
    ensures Agrees(v, s)
  {
    hide Scancode, PositionOf;
    ReplayOne(HeldPositions(v.held), s.sent[0]);
    PressAdds(v.held, k, Scancode(k).value.up);
  }

  lemma {:induction false} SendsUp(v: View, s: Step, k: Key)
    requires Consistent(v) && Consistent(s.view) && k in v.held
    requires s.sent == [KeyUp(v.held[k])] && s.view.held == v.held - {k}
    ensures Agrees(v, s)
  {
    hide Scancode, PositionOf;
    ReplayOne(HeldPositions(v.held), s.sent[0]);
    ReleaseRemoves(v.held, k);
    assert Scancode(k).Some?;
  }

  lemma {:induction false} PressChordAgrees(v: View, chord: Chord)
    requires Consistent(v)
    ensures Agrees(v, PressChord(v, chord))
  {
    hide Scancode, PositionOf, Agrees;
    var s := PressChord(v, chord);
    if s.sent == [] {
      SendsNothing(v, s);
    } else {
      var k := ReplacedKey(chord, v.modifiers).value;
      if k in v.held { assert v.held[k := Scancode(k).value.up] == v.held; }
      SendsDown(v, s, k);
    }
  }

  lemma {:induction false} PressKeyAgrees(v: View, k: Key, m: Modifiers)
    requires Consistent(v) && Scancode(k).Some? && !IsShortcutKey(k)
    ensures Agrees(v, PressKey(v, k, Scancode(k).value, m))
  {
    hide Scancode, PositionOf, Agrees;
    var s := PressKey(v, k, Scancode(k).value, m);
    if s.sent == [] {
      SendsNothing(v, s);
    } else {
      if k in v.held { assert v.held[k := Scancode(k).value.up] == v.held; }
      SendsDown(v, s, k);
    }
  }

  lemma {:induction false} StrayReleaseAgrees(v: View, key: Key, k: Key, m: Modifiers)
    requires Consistent(v) && Scancode(k).Some? && !IsShortcutKey(k) && k !in v.held
    ensures Agrees(v, StrayRelease(v, key, k, Scancode(k).value, m))
  {
    hide Scancode, PositionOf;
    var codes := Scancode(k).value;
    var s := StrayRelease(v, key, k, codes, m);
    var pressed := HeldPositions(v.held);
    UnheldPosition(v.held, k);
    ScancodeNamesKey(k);
    DownThenUp(pressed, k);
    ReplayOne(pressed, KeyUp(codes.up));
    assert [] + [KeyUp(codes.up)] == [KeyUp(codes.up)];
    assert |s.sent| == 2 ==> s.sent == [KeyDown(codes.down)] + [KeyUp(codes.up)];
  }

  lemma {:induction false} ReleaseHeldAgrees(v: View, k: Key)
    requires Consistent(v) && k in v.held
    ensures Agrees(v, ReleaseHeld(v, k))
  {
    hide Scancode, PositionOf, Agrees;
    SendsUp(v, ReleaseHeld(v, k), k);
  }

  lemma {:induction false} ReleaseChordAgrees(v: View, chord: Chord)
    requires Consistent(v) && chord in v.clipboard
    ensures Agrees(v, ReleaseChord(v, chord))
  {
    hide Scancode, PositionOf, Agrees;
    var s := ReleaseChord(v, chord);
    if v.clipboard[chord].Some? {
      SendsUp(v, s, v.clipboard[chord].value);
    } else {
      SendsNothing(v, s);
    }
  }

  lemma {:induction false} TranslateKeyAgrees(v0: View, key: Key, physical: Option<Key>, pressed: bool, m: Modifiers)
    requires Consistent(v0)
    ensures Agrees(v0, TranslateKey(v0, key, physical, pressed, m))
  {
    hide Scancode, PositionOf, Agrees, StrayRelease, PressKey, ReleaseChord, ReleaseHeld, EndedChord;
    var v := v0.(modifiers := m);
    var k := LookupKey(key, physical);
    var s := TranslateKey(v0, key, physical, pressed, m);
    AgreesUpToModifiers(v0, v, s);
    if IsShortcutKey(k) {
      SendsNothing(v, s);
    } else if !pressed && k in v.held {
      ReleaseHeldAgrees(v, k);
    } else if !pressed && EndedChord(v.clipboard, key).Some? {
      EndedChordIsOutstanding(v.clipboard, key);
      ReleaseChordAgrees(v, EndedChord(v.clipboard, key).value);
    } else if Scancode(k) == None {
      SendsNothing(v, s);
    } else if pressed {
      PressKeyAgrees(v, k, m);
    } else {
      StrayReleaseAgrees(v, key, k, m);
    }
  }

  lemma {:induction false} EndedChordIsOutstanding(clipboard: map<Chord, Option<Key>>, k: Key)
    ensures EndedChord(clipboard, k).Some? ==> EndedChord(clipboard, k).value in clipboard
  {
  }

  lemma {:induction false} AgreesUpToModifiers(v: View, w: View, s: Step)
    requires v.held == w.held
    ensures Agrees(v, s) <==> Agrees(w, s)
  {
  }

  /** Every event leaves the guest believing pressed exactly the keys recorded as held, keeps the
      three records consistent, and sends at most two codes, none of a host shortcut key. */
  lemma {:induction false} TranslateAgrees(v: View, e: Event)
    requires Consistent(v) && !e.FocusLost? && !e.Unrelated?
    ensures Agrees(v, Translate(v, e))
  {
    hide Scancode, PositionOf, Agrees, TranslateKey, PressChord;
    match e
    case KeyEvent(key, physical, pressed, _, m) => TranslateKeyAgrees(v, key, physical, pressed, m);
    case CutEvent => PressChordAgrees(v, Cut);
    case CopyEvent => PressChordAgrees(v, Copy);
    case PasteEvent => PressChordAgrees(v, Paste);
    case ModifiersChanged(m) => SendsNothing(v, Translate(v, e));
  }

  lemma {:induction false} OrderTail(held: map<Key, nat>, order: seq<Key>)
    requires IsOrder(held, order) && order != []
    ensures order[0] in held && IsOrder(held - {order[0]}, order[1..])
    ensures Releases(held, order) == [KeyUp(held[order[0]])] + Releases(held - {order[0]}, order[1..])
  {
    var k, rest := order[0], order[1..];
    assert k in order;
    forall l ensures l in rest <==> l in held - {k} {
      assert order == [k] + rest;
    }
  }

  /** Releasing every held key, in any order, leaves the guest with nothing pressed. */
  lemma {:induction false} ReleasesAgree(held: map<Key, nat>, order: seq<Key>)
    requires forall k :: k in held ==> Scancode(k).Some? && held[k] == Scancode(k).value.up
    requires IsOrder(held, order)
    ensures GuestReplay(HeldPositions(held), CodesOf(Releases(held, order))) == {}
  {
    hide Scancode, PositionOf;
    if order == [] {
      assert HeldPositions(held) == {};
    } else {
      hide IsOrder, Releases;
      var k, rest := order[0], order[1..];
      OrderTail(held, order);
      ReleasesAgree(held - {k}, rest);
      var up, ups := [KeyUp(held[k])], Releases(held - {k}, rest);
      CodesOfConcat(up, ups);
      GuestReplayConcat(HeldPositions(held), CodesOf(up), CodesOf(ups));
      ReplayOne(HeldPositions(held), KeyUp(held[k]));
      ReleaseRemoves(held, k);
    }
  }

  // ----- Whole runs

  /** One event of a frame, focus losses and unrelated events included. */
  ghost predicate Handles(v: View, e: Event, w: View, out: seq<InputEvent>) {
    if e.FocusLost? then
      w == FRESH && exists order :: IsOrder(v.held, order) && out == Releases(v.held, order)
    else if e.Unrelated? then w == v && out == []
    else w == Translate(v, e).view && out == Translate(v, e).sent
  }

  /** One handled event: what came, the state after it, and what was sent for it. */
  datatype Handled = Handled(event: Event, view: View, sent: seq<InputEvent>)

  function LastView(v: View, run: seq<Handled>): View {
    if run == [] then v else run[|run| - 1].view
  }

  function SentIn(run: seq<Handled>): seq<InputEvent> {
    if run == [] then [] else SentIn(run[..|run| - 1]) + run[|run| - 1].sent
  }

  ghost predicate IsRun(v: View, run: seq<Handled>) {
    forall i :: 0 <= i < |run| ==> Handles(LastView(v, run[..i]), run[i].event, run[i].view, run[i].sent)
  }

  lemma {:induction false} FreshConsistent()
    ensures Consistent(FRESH) && HeldPositions(FRESH.held) == {}
  {
  }

  lemma {:induction false} HandlesAgrees(v: View, e: Event, w: View, out: seq<InputEvent>)
    requires Consistent(v) && Handles(v, e, w, out)
    ensures Consistent(w)
    ensures GuestReplay(HeldPositions(v.held), CodesOf(out)) == HeldPositions(w.held)
  {
    hide Scancode, PositionOf, Translate;
    FreshConsistent();
    if e.FocusLost? {
      var order :| IsOrder(v.held, order) && out == Releases(v.held, order);
      ReleasesAgree(v.held, order);
    } else if e.Unrelated? {
      ReplayOne(HeldPositions(v.held), KeyUp(0));
    } else {
      TranslateAgrees(v, e);
    }
  }

  /** Guest agreement over every run: however the host's events come, the guest believes pressed
      exactly the keys recorded as held. */
  lemma {:induction false} RunAgrees(run: seq<Handled>)
    requires IsRun(FRESH, run)
    ensures Consistent(LastView(FRESH, run))
    ensures GuestReplay({}, CodesOf(SentIn(run))) == HeldPositions(LastView(FRESH, run).held)
  {
    hide Handles, HeldPositions, Consistent;
    if run == [] {
      FreshConsistent();
      ReplayOne({}, KeyUp(0));
    } else {
      var init, last := run[..|run| - 1], run[|run| - 1];
      RunPrefix(FRESH, run);
      RunAgrees(init);
      HandlesAgrees(LastView(FRESH, init), last.event, last.view, last.sent);
      CodesOfConcat(SentIn(init), last.sent);
      GuestReplayConcat({}, CodesOf(SentIn(init)), CodesOf(last.sent));
    }
  }

  lemma {:induction false} RunPrefix(v: View, run: seq<Handled>)
    requires IsRun(v, run) && run != []
    ensures IsRun(v, run[..|run| - 1])
  {
    var init := run[..|run| - 1];
    forall i | 0 <= i < |init| ensures Handles(LastView(v, init[..i]), init[i].event, init[i].view, init[i].sent) {
      assert init[..i] == run[..i];
    }
  }

  lemma {:induction false} RunExtend(v: View, run: seq<Handled>, h: Handled)
    requires IsRun(v, run) && Handles(LastView(v, run), h.event, h.view, h.sent)
    ensures IsRun(v, run + [h])
    ensures SentIn(run + [h]) == SentIn(run) + h.sent
  {
    var r := run + [h];
    forall i | 0 <= i < |r| ensures Handles(LastView(v, r[..i]), r[i].event, r[i].view, r[i].sent) {
      assert i < |run| ==> r[..i] == run[..i];
      assert i == |run| ==> r[..i] == run;
    }
    assert r[..|run|] == run;
  }

  // ----- The log

  datatype KeyModifiers = KeyModifiers(alt: bool, ctrl: bool, shift: bool, macCmd: bool)

  datatype LogEntry = LogEntry(
    kind: LogKind, key: Option<Key>, physical: Option<Key>, pressed: Option<bool>, repeat: Option<bool>,
    modifiers: KeyModifiers, outcome: Outcome, sent: seq<nat>)

  const KEY_LOG_CAPACITY: nat := 256

  /** Up to two scancodes, the first two. */
  function SentScancodes(codes: seq<nat>): seq<nat> {
    if |codes| <= 2 then codes else codes[..2]
  }

  function NewEntry(kind: LogKind, m: Modifiers, outcome: Outcome, codes: seq<nat>): LogEntry {
    LogEntry(kind, None, None, None, None, KeyModifiers(m.alt, m.ctrl, m.shift, m.macCmd), outcome,
             SentScancodes(codes))
  }

  function LoggedCodes(log: seq<LogEntry>): seq<nat> {
    if log == [] then [] else LoggedCodes(log[..|log| - 1]) + log[|log| - 1].sent
  }

  function Newest(log: seq<LogEntry>): seq<LogEntry> {
    if |log| <= KEY_LOG_CAPACITY then log else log[|log| - KEY_LOG_CAPACITY..]
  }

  /** What the log says of a key released without an event of its own. */
  predicate ReleaseLogged(entry: LogEntry, e: InputEvent, held: map<Key, nat>) {
    && entry.kind == LogReleaseAll && entry.outcome == Forwarded && entry.sent == [e.code]
    && entry.key.Some? && entry.key.value in held && e == KeyUp(held[entry.key.value])
  }

  /** A log that went from `before` to `after` as `out` was sent to release what is held. */
  ghost predicate ReleasesLogged(before: seq<LogEntry>, after: seq<LogEntry>, out: seq<InputEvent>,
                                 held: map<Key, nat>) {
    && |after| == |before| + |out| && after[..|before|] == before
    && forall i :: 0 <= i < |out| ==> ReleaseLogged(after[|before| + i], out[i], held)
  }

  lemma {:induction false} NoneLogged(log: seq<LogEntry>, held: map<Key, nat>)
    ensures ReleasesLogged(log, log, [], held)
  {
  }

  lemma {:induction false} OneMoreLogged(before: seq<LogEntry>, after: seq<LogEntry>, out: seq<InputEvent>,
                                         held: map<Key, nat>, entry: LogEntry, k: Key)
    requires ReleasesLogged(before, after, out, held) && k in held
    requires entry.kind == LogReleaseAll && entry.outcome == Forwarded && entry.sent == [held[k]]
    requires entry.key == Some(k)
    ensures ReleasesLogged(before, after + [entry], out + [KeyUp(held[k])], held)
  {
  }

  class HeldKeys {
    var held: map<Key, nat>
    var suppressed: set<Key>
    var clipboard: map<Chord, Option<Key>>
    var modifiers: Modifiers
    var log: seq<LogEntry>
    var eventsSeen: nat
    ghost var everLogged: seq<LogEntry>
    ghost var everSent: seq<nat>

    function State(): View
      reads this
    {
      View(held, suppressed, clipboard, modifiers)
    }

    /** The log is a window on a lossless record of everything sent. */
    ghost predicate LogValid()
      reads this
    {
      && log == Newest(everLogged)
      && eventsSeen == |everLogged|
      && LoggedCodes(everLogged) == everSent
    }

    ghost predicate Valid()
      reads this
    {
      && LogValid()
      && Consistent(State())
      && GuestReplay({}, everSent) == HeldPositions(held)
    }

    constructor ()
      ensures Valid() && State() == FRESH && everLogged == [] && everSent == []
    {
      held, suppressed, clipboard, modifiers := map[], {}, map[], NO_MODIFIERS;
      log, eventsSeen, everLogged, everSent := [], 0, [], [];
    }

    method PushLog(entry: LogEntry)
      requires LogValid()
      modifies this`log, this`eventsSeen, this`everLogged, this`everSent
      ensures LogValid()
      ensures everLogged == old(everLogged) + [entry] && everSent == old(everSent) + entry.sent
      ensures log == if |everLogged| <= 256 then everLogged else everLogged[|everLogged| - 256..]
    {
      if |log| == KEY_LOG_CAPACITY {
        log := log[1..];
      }
      log := log + [entry];
      eventsSeen := eventsSeen + 1;
      everLogged := everLogged + [entry];
      everSent := everSent + entry.sent;
      assert everLogged[..|everLogged| - 1] == old(everLogged);
    }

    /** Release every held key, in whatever order the map yields them. */
    method ReleaseAll() returns (out: seq<InputEvent>)
      requires LogValid()
      modifies this
      ensures LogValid() && everSent == old(everSent) + CodesOf(out)
      ensures State() == View(map[], {}, map[], old(modifiers))
      ensures exists order :: IsOrder(old(held), order) && out == Releases(old(held), order)
      ensures ReleasesLogged(old(everLogged), everLogged, out, old(held))
    {
      hide Newest, LoggedCodes, Releases, Drained, IsOrder, ReleasesLogged, ReleaseLogged;
      NoneLogged(everLogged, held);
      suppressed := {};
      clipboard := map[];
      var released := held;
      assert Drained(held, released, [], []) by { DrainNone(held); }
      held := map[];
      out := [];
      ghost var order: seq<Key> := [];
      while released != map[]
        invariant LogValid() && held == map[] && suppressed == {} && clipboard == map[] && modifiers == old(modifiers)
        invariant Drained(old(held), released, order, out)
        invariant everSent == old(everSent) + CodesOf(out)
        invariant ReleasesLogged(old(everLogged), everLogged, out, old(held))
        decreases |released|
      {
        var key :| key in released;
        var entry := NewEntry(LogReleaseAll, modifiers, Forwarded, [released[key]]);
        DrainedCode(old(held), released, order, out, key);
        OneMoreLogged(old(everLogged), everLogged, out, old(held), entry.(key := Some(key)), key);
        PushLog(entry.(key := Some(key)));
        DrainOne(old(held), released, order, out, key);
        CodesOfConcat(out, [KeyUp(released[key])]);
        assert CodesOf([KeyUp(released[key])]) == [released[key]];
        out := out + [KeyUp(released[key])];
        order := order + [key];
        released := released - {key};
      }
      DrainAll(old(held), order, out);
    }

    method EndFrame(now: Modifiers)
      requires Valid()
      modifies this`modifiers
      ensures Valid() && State() == old(State()).(modifiers := now)
    {
      modifiers := now;
    }

    /** Withhold the release of the paste chord consumed as the host's own shortcut. */
    method WithholdPasteRelease()
      requires Valid()
      modifies this`clipboard
      ensures Valid() && State() == old(State()).(clipboard := old(clipboard)[Paste := None])
    {
      clipboard := clipboard[Paste := None];
    }

    method PressClipboardChord(chord: Chord) returns (sent: seq<InputEvent>, outcome: Outcome)
      modifies this`held, this`suppressed, this`clipboard
      ensures Step(State(), sent, outcome) == PressChord(old(State()), chord)
    {
      if modifiers.macCmd {
        clipboard := clipboard[chord := None];
        return [], Withheld;
      }
      var replaced := ReplacedKey(chord, modifiers);
      if replaced.None? {
        return [], Unmapped;
      }
      var key := replaced.value;
      var codes := Scancode(key);
      if codes.None? {
        return [], Unmapped;
      }
      if key in held {
        return [KeyDown(codes.value.down)], Repeat;
      }
      suppressed := suppressed - {key};
      held := held[key := codes.value.up];
      clipboard := clipboard[chord := Some(key)];
      return [KeyDown(codes.value.down)], Forwarded;
    }

    /** Take the outstanding clipboard chord, if any, that a release of logical `key` ends. */
    method TakeClipboardChord(key: Key) returns (taken: Option<Option<Key>>)
      modifies this`clipboard
      ensures EndedChord(old(clipboard), key) == None ==> taken == None && clipboard == old(clipboard)
      ensures var ended := EndedChord(old(clipboard), key);
              ended.Some? ==>
                && ended.value in old(clipboard)
                && taken == Some(old(clipboard)[ended.value])
                && clipboard == old(clipboard) - {ended.value}
    {
      taken := None;
      var chords := [Cut, Copy, Paste];
      for i := 0 to |chords|
        invariant clipboard == old(clipboard) && taken == None
        invariant forall j :: 0 <= j < i ==> !(ReleasedBy(chords[j], key) && chords[j] in clipboard)
      {
        if ReleasedBy(chords[i], key) && chords[i] in clipboard {
          taken := Some(clipboard[chords[i]]);
          clipboard := clipboard - {chords[i]};
          assert i == 0 || i == 1 || i == 2;
          assert i > 0 ==> chords[0] == Cut;
          assert i > 1 ==> chords[1] == Copy;
          return;
        }
      }
      assert chords[0] == Cut && chords[1] == Copy && chords[2] == Paste;
    }

    method TranslateKeyEvent(e: Event) returns (sent: seq<InputEvent>, outcome: Outcome)
      requires !e.FocusLost? && !e.Unrelated?
      modifies this`held, this`suppressed, this`clipboard, this`modifiers
      ensures Step(State(), sent, outcome) == Translate(old(State()), e)
    {
      match e {
        case ModifiersChanged(now) =>
          modifiers := now;
          return [], StateChange;
        case CutEvent => sent, outcome := PressClipboardChord(Cut);
        case CopyEvent => sent, outcome := PressClipboardChord(Copy);
        case PasteEvent => sent, outcome := PressClipboardChord(Paste);
        case KeyEvent(key, physical, pressed, _, m) => sent, outcome := TranslateKeyPress(key, physical, pressed, m);
      }
    }

    method TranslateKeyPress(key: Key, physical: Option<Key>, pressed: bool, m: Modifiers)
      returns (sent: seq<InputEvent>, outcome: Outcome)
      modifies this`held, this`suppressed, this`clipboard, this`modifiers
      ensures Step(State(), sent, outcome) == TranslateKey(old(State()), key, physical, pressed, m)
    {
      modifiers := m;
      var lookup := LookupKey(key, physical);
      if IsShortcutKey(lookup) {
        return [], HostShortcut;
      }
      if !pressed {
        if lookup in held {
          var up := held[lookup];
          held := held - {lookup};
          clipboard := map c | c in clipboard && clipboard[c] != Some(lookup) :: clipboard[c];
          return [KeyUp(up)], Forwarded;
        }
        var taken := TakeClipboardChord(key);
        if taken.Some? {
          var pressedAs := taken.value;
          if pressedAs.Some? && pressedAs.value in held {
            var up := held[pressedAs.value];
            held := held - {pressedAs.value};
            return [KeyUp(up)], Forwarded;
          }
          return [], Withheld;
        }
      }
      var codes := Scancode(lookup);
      if codes.None? {
        return [], Unmapped;
      }
      var down, up := codes.value.down, codes.value.up;
      if pressed {
        if lookup in held {
          if m.macCmd {
            return [], Withheld;
          }
          return [KeyDown(down)], Repeat;
        }
        if m.macCmd {
          suppressed := suppressed + {lookup};
          return [], Withheld;
        }
        suppressed := suppressed - {lookup};
        held := held[lookup := up];
        return [KeyDown(down)], Forwarded;
      }
      var wasSuppressed := lookup in suppressed;
      suppressed := suppressed - {lookup};
      if wasSuppressed || m.macCmd || (IsPasteShortcut(m) && key == Logical(Letter('V'))) {
        return [], Withheld;
      }
      sent := [];
      if IsGuestPaste(key, m) {
        sent := sent + [KeyDown(down)];
      }
      sent := sent + [KeyUp(up)];
      outcome := UnheldRelease;
    }

    /** Translate one frame's events. The events are handled in order, what is returned is what
        the log records, and the guest ends up agreeing with `held`. */
    method TranslateKeyEvents(events: seq<Event>) returns (out: seq<InputEvent>, ghost run: seq<Handled>)
      requires Valid()
      modifies this
      ensures Valid()
      ensures everSent == old(everSent) + CodesOf(out)
      ensures IsRun(old(State()), run) && |run| == |events|
      ensures forall i :: 0 <= i < |events| ==> run[i].event == events[i]
      ensures State() == LastView(old(State()), run) && out == SentIn(run)
    {
      hide HeldKeys.Valid, Handles, IsRun, SentIn, CodesOf;
      out, run := [], [];
      EmptyRun(State());
      assert CodesOf([]) == [];
      for n := 0 to |events|
        invariant Valid() && everSent == old(everSent) + CodesOf(out)
        invariant IsRun(old(State()), run) && |run| == n && State() == LastView(old(State()), run) && out == SentIn(run)
        invariant forall i :: 0 <= i < n ==> run[i].event == events[i]
      {
        var sent := HandleEvent(events[n]);
        ghost var handled := Handled(events[n], State(), sent);
        RunExtend(old(State()), run, handled);
        CodesOfConcat(out, sent);
        out := out + sent;
        run := run + [handled];
      }
    }

    /** One event, logged if it is about the keyboard. */
    method HandleEvent(event: Event) returns (sent: seq<InputEvent>)
      requires Valid()
      modifies this
      ensures Valid()
      ensures everSent == old(everSent) + CodesOf(sent)
      ensures Handles(old(State()), event, State(), sent)
    {
      hide Consistent, Scancode, PositionOf, HeldPositions, Translate, Newest, LoggedCodes;
      ghost var before := State();
      if event.FocusLost? {
        sent := LoseFocus();
      } else if event.Unrelated? {
        sent := [];
        assert CodesOf(sent) == [];
      } else {
        sent := LogTranslated(event);
      }
      HandlesAgrees(before, event, State(), sent);
      GuestReplayConcat({}, old(everSent), CodesOf(sent));
    }

    /** Losing focus releases everything and forgets the modifiers: only the log remembers. */
    method LoseFocus() returns (sent: seq<InputEvent>)
      requires LogValid()
      modifies this
      ensures LogValid() && everSent == old(everSent) + CodesOf(sent)
      ensures State() == FRESH
      ensures exists order :: IsOrder(old(held), order) && sent == Releases(old(held), order)
    {
      hide Newest, LoggedCodes, IsOrder, Releases;
      PushLog(NewEntry(LogFocusLost, modifiers, StateChange, []));
      sent := ReleaseAll();
      modifiers := NO_MODIFIERS;
    }

    method LogTranslated(event: Event) returns (sent: seq<InputEvent>)
      requires LogValid() && Consistent(State()) && !event.FocusLost? && !event.Unrelated?
      modifies this
      ensures LogValid() && everSent == old(everSent) + CodesOf(sent)
      ensures State() == Translate(old(State()), event).view && sent == Translate(old(State()), event).sent
      ensures |everLogged| == |old(everLogged)| + 1 && everLogged[..|old(everLogged)|] == old(everLogged)
      ensures var e := everLogged[|everLogged| - 1];
              && e.sent == CodesOf(sent) && e.outcome == Translate(old(State()), event).outcome
              && e.modifiers == KeyModifiers(modifiers.alt, modifiers.ctrl, modifiers.shift, modifiers.macCmd)
              && (event.KeyEvent? ==>
                    && e.kind == LogKey && e.key == Some(event.key) && e.physical == event.physical
                    && e.pressed == Some(event.pressed) && e.repeat == Some(event.repeat))
              && (!event.KeyEvent? ==> e.key == None && e.physical == None && e.pressed == None && e.repeat == None)
              && (event.CutEvent? <==> e.kind == LogCut) && (event.CopyEvent? <==> e.kind == LogCopy)
              && (event.PasteEvent? <==> e.kind == LogPaste) && (event.ModifiersChanged? <==> e.kind == LogModifiers)
    {
      hide Consistent, Scancode, PositionOf, HeldPositions, Translate, Newest, LoggedCodes;
      TranslateAgrees(State(), event);
      var outcome;
      sent, outcome := TranslateKeyEvent(event);
      var entry := NewEntry(KindOf(event), modifiers, outcome, CodesOf(sent));
      if event.KeyEvent? {
        entry := entry.(key := Some(event.key), physical := event.physical,
                        pressed := Some(event.pressed), repeat := Some(event.repeat));
      }
      PushLog(entry);
    }
  }

  lemma {:induction false} EmptyRun(v: View)
    ensures IsRun(v, []) && LastView(v, []) == v && SentIn([]) == []
  {
  }

  /** `order` has been drained from `held`, leaving `rest`. */
  ghost predicate Drained(held: map<Key, nat>, rest: map<Key, nat>, order: seq<Key>, out: seq<InputEvent>) {
    && (forall k :: k in order ==> k in held && k !in rest)
    && (forall k :: k in held ==> k in order || k in rest)
    && (forall k :: k in rest ==> k in held && rest[k] == held[k])
    && (forall i, j :: 0 <= i < j < |order| ==> order[i] != order[j])
    && out == Releases(held, order)
  }

  lemma {:induction false} DrainedCode(held: map<Key, nat>, rest: map<Key, nat>, order: seq<Key>, out: seq<InputEvent>,
                                       k: Key)
    requires Drained(held, rest, order, out) && k in rest
    ensures k in held && rest[k] == held[k]
  {
  }

  lemma {:induction false} DrainNone(held: map<Key, nat>)
    ensures Drained(held, held, [], [])
  {
  }

  lemma {:induction false} DrainAll(held: map<Key, nat>, order: seq<Key>, out: seq<InputEvent>)
    requires Drained(held, map[], order, out)
    ensures IsOrder(held, order) && out == Releases(held, order)
  {
  }

  lemma {:induction false} DrainOne(held: map<Key, nat>, rest: map<Key, nat>, order: seq<Key>, out: seq<InputEvent>,
                                    k: Key)
    requires Drained(held, rest, order, out) && k in rest
    ensures Drained(held, rest - {k}, order + [k], out + [KeyUp(rest[k])])
  {
    assert forall i :: 0 <= i < |order| ==> order[i] in order;
    assert Releases(held, order + [k]) == Releases(held, order) + [KeyUp(held[k])];
  }
}
