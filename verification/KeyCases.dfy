/** The translator's cases, in the keys', modifiers' and codes' own names. */
module KeyCases {
  import opened Options
  import opened Keys
  import opened Keyboard

  const F8 := Logical(Function(8))
  const F11 := Logical(Function(11))
  const F12 := Logical(Function(12))
  const X_KEY := Logical(Letter('X'))
  const C_KEY := Logical(Letter('C'))
  const V_KEY := Logical(Letter('V'))
  const INSERT := Logical(Navigation(Insert))
  const DELETE := Logical(Navigation(Delete))

  // ----- Codes

  /** Keys that lie side by side have codes one apart, and a key-up is its key-down plus 128. */
  ghost predicate Row(keys: seq<LogicalKey>, first: nat) {
    forall i :: 0 <= i < |keys| ==> Scancode(Logical(keys[i])) == Some(Codes(first + i, first + i + 128))
  }

  lemma {:induction false} PlainCode(k: LogicalKey, base: nat)
    requires BaseCode(k) == Some(base) && base < 128
    ensures Scancode(Logical(k)) == Some(Codes(base, base + 128))
  {
  }

  lemma {:induction false} PlainRow(keys: seq<LogicalKey>, first: nat)
    requires forall i :: 0 <= i < |keys| ==> BaseCode(keys[i]) == Some(first + i)
    requires first + |keys| <= 128
    ensures Row(keys, first)
  {
    hide Scancode, BaseCode;
    forall i | 0 <= i < |keys| ensures Scancode(Logical(keys[i])) == Some(Codes(first + i, first + i + 128)) {
      PlainCode(keys[i], first + i);
    }
  }

  const TOP_LEFT: seq<LogicalKey> :=
    [Letter('Q'), Letter('W'), Letter('E'), Letter('R'), Letter('T')]
  const TOP_RIGHT: seq<LogicalKey> :=
    [Letter('Y'), Letter('U'), Letter('I'), Letter('O'), Letter('P'), Punctuation(OpenBracket),
     Punctuation(CloseBracket), Whitespace(EnterKey)]
  const HOME_LEFT: seq<LogicalKey> :=
    [Letter('A'), Letter('S'), Letter('D'), Letter('F'), Letter('G')]
  const HOME_RIGHT: seq<LogicalKey> :=
    [Letter('H'), Letter('J'), Letter('K'), Letter('L'), Punctuation(Semicolon), Punctuation(Quote),
     Punctuation(Backtick)]
  const BOTTOM_LEFT: seq<LogicalKey> :=
    [Punctuation(Backslash), Letter('Z'), Letter('X'), Letter('C'), Letter('V')]
  const BOTTOM_RIGHT: seq<LogicalKey> :=
    [Letter('B'), Letter('N'), Letter('M'), Punctuation(Comma), Punctuation(Period), Punctuation(Slash)]
  const NUMBER_ROW: seq<LogicalKey> :=
    [Escape, Digit(1), Digit(2), Digit(3), Digit(4), Digit(5), Digit(6), Digit(7), Digit(8), Digit(9), Digit(0),
     Punctuation(Minus), Punctuation(Equals), Whitespace(Backspace), Whitespace(Tab)]
  const FUNCTION_ROW: seq<LogicalKey> :=
    [Function(1), Function(2), Function(3), Function(4), Function(5), Function(6), Function(7), Function(8),
     Function(9), Function(10)]

  lemma {:induction false} TopLeft()
    ensures Row(TOP_LEFT, 0x10)
  {
    hide Scancode;
    var r := TOP_LEFT;
    assert BaseCode(r[0]) == Some(0x10) && BaseCode(r[1]) == Some(0x11) && BaseCode(r[2]) == Some(0x12);
    assert BaseCode(r[3]) == Some(0x13) && BaseCode(r[4]) == Some(0x14);
    PlainRow(r, 0x10);
  }

  lemma {:induction false} TopRight()
    ensures Row(TOP_RIGHT, 0x15)
  {
    hide Scancode;
    var r := TOP_RIGHT;
    assert BaseCode(r[0]) == Some(0x15) && BaseCode(r[1]) == Some(0x16) && BaseCode(r[2]) == Some(0x17);
    assert BaseCode(r[3]) == Some(0x18) && BaseCode(r[4]) == Some(0x19) && BaseCode(r[5]) == Some(0x1A);
    assert BaseCode(r[6]) == Some(0x1B) && BaseCode(r[7]) == Some(0x1C);
    PlainRow(r, 0x15);
  }

  lemma {:induction false} HomeLeft()
    ensures Row(HOME_LEFT, 0x1E)
  {
    hide Scancode;
    var r := HOME_LEFT;
    assert BaseCode(r[0]) == Some(0x1E) && BaseCode(r[1]) == Some(0x1F) && BaseCode(r[2]) == Some(0x20);
    assert BaseCode(r[3]) == Some(0x21) && BaseCode(r[4]) == Some(0x22);
    PlainRow(r, 0x1E);
  }

  lemma {:induction false} HomeRight()
    ensures Row(HOME_RIGHT, 0x23)
  {
    hide Scancode;
    var r := HOME_RIGHT;
    assert BaseCode(r[0]) == Some(0x23) && BaseCode(r[1]) == Some(0x24) && BaseCode(r[2]) == Some(0x25);
    assert BaseCode(r[3]) == Some(0x26) && BaseCode(r[4]) == Some(0x27) && BaseCode(r[5]) == Some(0x28);
    assert BaseCode(r[6]) == Some(0x29);
    PlainRow(r, 0x23);
  }

  lemma {:induction false} BottomLeft()
    ensures Row(BOTTOM_LEFT, 0x2B)
  {
    hide Scancode;
    var r := BOTTOM_LEFT;
    assert BaseCode(r[0]) == Some(0x2B) && BaseCode(r[1]) == Some(0x2C) && BaseCode(r[2]) == Some(0x2D);
    assert BaseCode(r[3]) == Some(0x2E) && BaseCode(r[4]) == Some(0x2F);
    PlainRow(r, 0x2B);
  }

  lemma {:induction false} BottomRight()
    ensures Row(BOTTOM_RIGHT, 0x30)
  {
    hide Scancode;
    var r := BOTTOM_RIGHT;
    assert BaseCode(r[0]) == Some(0x30) && BaseCode(r[1]) == Some(0x31) && BaseCode(r[2]) == Some(0x32);
    assert BaseCode(r[3]) == Some(0x33) && BaseCode(r[4]) == Some(0x34) && BaseCode(r[5]) == Some(0x35);
    PlainRow(r, 0x30);
  }

  lemma {:induction false} NumberRow()
    ensures Row(NUMBER_ROW, 0x01)
  {
    hide Scancode;
    var r := NUMBER_ROW;
    assert BaseCode(r[0]) == Some(0x01) && BaseCode(r[1]) == Some(0x02) && BaseCode(r[2]) == Some(0x03);
    assert BaseCode(r[3]) == Some(0x04) && BaseCode(r[4]) == Some(0x05) && BaseCode(r[5]) == Some(0x06);
    assert BaseCode(r[6]) == Some(0x07) && BaseCode(r[7]) == Some(0x08) && BaseCode(r[8]) == Some(0x09);
    assert BaseCode(r[9]) == Some(0x0A) && BaseCode(r[10]) == Some(0x0B) && BaseCode(r[11]) == Some(0x0C);
    assert BaseCode(r[12]) == Some(0x0D) && BaseCode(r[13]) == Some(0x0E) && BaseCode(r[14]) == Some(0x0F);
    PlainRow(r, 0x01);
  }

  lemma {:induction false} FunctionRow()
    ensures Row(FUNCTION_ROW, 0x3B)
  {
    hide Scancode;
    var r := FUNCTION_ROW;
    assert BaseCode(r[0]) == Some(0x3B) && BaseCode(r[1]) == Some(0x3C) && BaseCode(r[2]) == Some(0x3D);
    assert BaseCode(r[3]) == Some(0x3E) && BaseCode(r[4]) == Some(0x3F) && BaseCode(r[5]) == Some(0x40);
    assert BaseCode(r[6]) == Some(0x41) && BaseCode(r[7]) == Some(0x42) && BaseCode(r[8]) == Some(0x43);
    assert BaseCode(r[9]) == Some(0x44);
    PlainRow(r, 0x3B);
  }

  lemma {:induction false} LastKeys()
    ensures Row([Whitespace(Space)], 0x39) && Row([Function(11), Function(12)], 0x57)
  {
    hide Scancode;
    PlainRow([Whitespace(Space)], 0x39);
    var r := [Function(11), Function(12)];
    assert BaseCode(r[0]) == Some(0x57) && BaseCode(r[1]) == Some(0x58);
    PlainRow(r, 0x57);
  }

  /** The layout of the keyboard: every key without a prefix. */
  lemma {:induction false} KeyboardLayout()
    ensures Row(TOP_LEFT, 0x10) && Row(TOP_RIGHT, 0x15)
    ensures Row(HOME_LEFT, 0x1E) && Row(HOME_RIGHT, 0x23)
    ensures Row(BOTTOM_LEFT, 0x2B) && Row(BOTTOM_RIGHT, 0x30)
    ensures Row(NUMBER_ROW, 0x01) && Row(FUNCTION_ROW, 0x3B)
    ensures Row([Whitespace(Space)], 0x39) && Row([Function(11), Function(12)], 0x57)
  {
    hide Row;
    TopLeft();
    TopRight();
    HomeLeft();
    HomeRight();
    BottomLeft();
    BottomRight();
    NumberRow();
    FunctionRow();
    LastKeys();
  }

  /** The keys with a prefix: the code is sent with 0xE0 as its low byte. */
  ghost predicate Prefixed(k: LogicalKey, code: nat) {
    Scancode(Logical(k)) == Some(Codes(code * 256 + 0xE0, (code + 128) * 256 + 0xE0))
  }

  lemma {:induction false} PrefixCode(k: LogicalKey, code: nat)
    requires BaseCode(k) == Some(0x100 + code) && code < 128
    ensures Prefixed(k, code)
  {
  }

  lemma {:induction false} PrefixedKeys()
    ensures Prefixed(Navigation(Home), 0x47) && Prefixed(Arrow(Up), 0x48) && Prefixed(Navigation(PageUp), 0x49)
    ensures Prefixed(Arrow(Left), 0x4B) && Prefixed(Arrow(Right), 0x4D)
    ensures Prefixed(Navigation(End), 0x4F) && Prefixed(Arrow(Down), 0x50) && Prefixed(Navigation(PageDown), 0x51)
    ensures Prefixed(Navigation(Insert), 0x52) && Prefixed(Navigation(Delete), 0x53)
  {
    hide Prefixed;
    PrefixCode(Navigation(Home), 0x47);
    PrefixCode(Arrow(Up), 0x48);
    PrefixCode(Navigation(PageUp), 0x49);
    PrefixCode(Arrow(Left), 0x4B);
    PrefixCode(Arrow(Right), 0x4D);
    PrefixCode(Navigation(End), 0x4F);
    PrefixCode(Arrow(Down), 0x50);
    PrefixCode(Navigation(PageDown), 0x51);
    PrefixCode(Navigation(Insert), 0x52);
    PrefixCode(Navigation(Delete), 0x53);
  }

  // ----- A release of a key that is not held

  /** The keys whose release ends a chord. */
  predicate Ends(chord: Chord, k: Key) {
    match chord
    case Cut => k in {X_KEY, DELETE, CutKey}
    case Copy => k in {C_KEY, INSERT, CopyKey}
    case Paste => k in {V_KEY, INSERT, PasteKey}
  }

  /** A release of a mapped key that is neither held nor ends a chord. A paste the toolkit swallowed is
      typed whole; any other key gets its key-up alone; what is the host's gets nothing. */
  lemma {:induction false} ReleaseOfUnheld(v: View, key: Key, physical: Option<Key>, r: bool, m: Modifiers)
    requires var k := if physical.Some? then physical.value else key;
             k !in v.held && Scancode(k).Some? && k != F8 && k != F11 && k != F12
    requires forall c :: c in v.clipboard ==> !Ends(c, key)
    ensures var k := if physical.Some? then physical.value else key;
            var codes, step := Scancode(k).value, Translate(v, KeyEvent(key, physical, false, r, m));
            && step.sent == (if k in v.suppressed || m.macCmd || (m.ctrl && m.alt && key == V_KEY) then []
                             else if (key == V_KEY && m.command) || (key == INSERT && m.shift && !m.ctrl) then
                               [KeyDown(codes.down), KeyUp(codes.up)]
                             else [KeyUp(codes.up)])
            && step.view == v.(suppressed := v.suppressed - {k}, modifiers := m)
  {
    hide Scancode;
  }

  /** Ctrl+V with no text to paste: the toolkit delivers the release alone, and the guest gets both. */
  lemma {:induction false} SwallowedPasteIsTyped(r: bool, shift: bool)
    ensures Translate(FRESH, KeyEvent(V_KEY, None, false, r, Modifiers(false, true, shift, false, true))).sent
            == [KeyDown(0x2F), KeyUp(0xAF)]
  {
    hide Scancode, Translate;
    PlainCode(Letter('V'), 0x2F);
    ReleaseOfUnheld(FRESH, V_KEY, None, r, Modifiers(false, true, shift, false, true));
  }

  /** A press withheld for Cmd: nothing is sent for it, nor for its release, however that looks. */
  lemma {:induction false} WithheldStroke(v: View, k: Key, pressed: Key, released: Key, r: bool, q: bool, m: Modifiers,
                                          n: Modifiers)
    requires k !in v.held && Scancode(k).Some? && k != F8 && k != F11 && k != F12 && m.macCmd
    requires forall c :: c in v.clipboard ==> !Ends(c, released)
    ensures var down := Translate(v, KeyEvent(pressed, Some(k), true, r, m));
            var up := Translate(down.view, KeyEvent(released, Some(k), false, q, n));
            && down.sent == [] && down.view == v.(suppressed := v.suppressed + {k}, modifiers := m)
            && up.sent == [] && up.view == v.(suppressed := v.suppressed - {k}, modifiers := n)
  {
    hide Scancode;
    var down := Translate(v, KeyEvent(pressed, Some(k), true, r, m));
    ReleaseOfUnheld(down.view, released, Some(k), q, n);
    assert v.suppressed + {k} - {k} == v.suppressed - {k};
  }

  // ----- Chords

  /** The key-down each clipboard event is sent as. */
  lemma {:induction false} ChordCodes(v: View)
    ensures var m := v.modifiers;
            && Translate(v, CutEvent).sent
               == (if m.macCmd then [] else if m.command then [KeyDown(0x2D)] else if m.shift then [KeyDown(0x53E0)]
                   else [])
            && Translate(v, CopyEvent).sent == (if m.macCmd || !m.command then [] else [KeyDown(0x2E)])
            && Translate(v, PasteEvent).sent
               == (if m.macCmd then [] else if m.command then [KeyDown(0x2F)] else if m.shift then [KeyDown(0x52E0)]
                   else [])
  {
    hide Scancode;
    PrefixedKeys();
    PlainCode(Letter('X'), 0x2D);
    PlainCode(Letter('C'), 0x2E);
    PlainCode(Letter('V'), 0x2F);
  }

  /** A release of a key that is not held ends at most one chord: one whose keys it is among, copying
      before pasting. What the chord pressed is released, and nothing if it was withheld. */
  lemma {:induction false} ChordEnds(v: View, key: Key, physical: Option<Key>, r: bool, m: Modifiers, chord: Chord)
    requires Consistent(v)
    requires var k := if physical.Some? then physical.value else key;
             k !in v.held && k != F8 && k != F11 && k != F12
    requires chord in v.clipboard && Ends(chord, key)
    requires chord == Paste && key == INSERT ==> Copy !in v.clipboard
    ensures var step, was := Translate(v, KeyEvent(key, physical, false, r, m)), v.clipboard[chord];
            && step.view.clipboard == v.clipboard - {chord}
            && step.sent == (if was.Some? then [KeyUp(v.held[was.value])] else [])
            && step.view.held == (if was.Some? then v.held - {was.value} else v.held)
            && step.view.suppressed == v.suppressed && step.view.modifiers == m
  {
    hide Scancode;
  }

  /** A chord that is withheld for Cmd, or repeated, or pressed. */
  lemma {:induction false} ChordIsOutstanding(v: View, chord: Chord)
    ensures var step := PressChord(v, chord);
            && (v.modifiers.macCmd ==> step.view == v.(clipboard := v.clipboard[chord := None]))
            && (!v.modifiers.macCmd && (step.sent == [] || step.view.held == v.held) ==>
                  step.view.clipboard == v.clipboard)
            && step.view.modifiers == v.modifiers
  {
    hide Scancode;
  }

  // ----- Modifiers and outcomes

  /** The modifiers last reported. */
  function Reported(m: Modifiers, run: seq<Handled>): Modifiers {
    if run == [] then m
    else
      match run[|run| - 1].event
      case KeyEvent(_, _, _, _, now) => now
      case ModifiersChanged(now) => now
      case FocusLost => NO_MODIFIERS
      case _ => Reported(m, run[..|run| - 1])
  }

  /** Over every run the modifiers recorded are those last reported, none after a loss of focus. */
  lemma {:induction false} ModifiersFollow(v: View, run: seq<Handled>)
    requires IsRun(v, run)
    ensures LastView(v, run).modifiers == Reported(v.modifiers, run)
  {
    if run != [] {
      hide Handles, IsRun;
      RunPrefix(v, run);
      ModifiersFollow(v, run[..|run| - 1]);
      LastHandled(v, run);
      var before, h := LastView(v, run[..|run| - 1]), run[|run| - 1];
      ModifiersAfter(before, h.event, h.view, h.sent);
    }
  }

  lemma {:induction false} ModifiersAfter(v: View, e: Event, w: View, sent: seq<InputEvent>)
    requires Handles(v, e, w, sent)
    ensures w.modifiers == match e
                           case KeyEvent(_, _, _, _, now) => now
                           case ModifiersChanged(now) => now
                           case FocusLost => NO_MODIFIERS
                           case _ => v.modifiers
  {
    hide Scancode;
  }

  lemma {:induction false} LastHandled(v: View, run: seq<Handled>)
    requires IsRun(v, run) && run != []
    ensures var n := |run| - 1; Handles(LastView(v, run[..n]), run[n].event, run[n].view, run[n].sent)
  {
    hide Handles;
  }

  /** What is logged of an event is what became of it. */
  lemma {:induction false} OutcomeMeans(v: View, e: Event)
    requires Consistent(v) && !e.FocusLost? && !e.Unrelated?
    ensures var step := Translate(v, e);
            && (step.outcome == StateChange <==> e.ModifiersChanged?)
            && (step.outcome == HostShortcut <==>
                  e.KeyEvent? && (if e.physical.Some? then e.physical.value else e.key) in {F8, F11, F12})
            && (step.outcome == Forwarded <==> step.view.held != v.held)
            && (step.outcome == Repeat <==> step.view.held == v.held && |step.sent| == 1 && step.sent[0].KeyDown?)
            && (step.outcome == UnheldRelease <==>
                  step.view.held == v.held && step.sent != [] && step.sent[|step.sent| - 1].KeyUp?)
            && (step.outcome == Withheld ==> step.sent == [] && step.view.held == v.held)
            && (step.outcome == Unmapped ==> step.sent == [] && step.view.held == v.held)
  {
    hide Scancode;
  }

  /** Unmapped, exactly. */
  lemma {:induction false} UnmappedKey(v: View, key: Key, physical: Option<Key>, pressed: bool, r: bool, m: Modifiers)
    requires Consistent(v)
    ensures var k := if physical.Some? then physical.value else key;
            Translate(v, KeyEvent(key, physical, pressed, r, m)).outcome == Unmapped
            <==> && k != F8 && k != F11 && k != F12 && Scancode(k).None?
                 && (pressed || forall c :: c in v.clipboard ==> !Ends(c, key))
  {
    hide Scancode;
  }

  lemma {:induction false} UnmappedChord(v: View)
    ensures var m := v.modifiers;
            && (Translate(v, CutEvent).outcome == Unmapped <==> !m.macCmd && !m.command && !m.shift)
            && (Translate(v, CopyEvent).outcome == Unmapped <==> !m.macCmd && !m.command)
            && (Translate(v, PasteEvent).outcome == Unmapped <==> !m.macCmd && !m.command && !m.shift)
  {
    hide Scancode;
    PlainCode(Letter('X'), 0x2D);
    PlainCode(Letter('C'), 0x2E);
    PlainCode(Letter('V'), 0x2F);
    PrefixCode(Navigation(Insert), 0x52);
    PrefixCode(Navigation(Delete), 0x53);
  }
}
