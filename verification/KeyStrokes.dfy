/** What reaches the guest: presses are forwarded, and a held key is let go only by being released
    to the guest. */
module KeyStrokes {
  import opened Options
  import opened Keys
  import opened Keyboard

  /** A press of `k` is for the guest: the key is mapped, ryll does not keep it, and Cmd is up. */
  predicate ForGuest(k: Key, m: Modifiers) {
    && Scancode(k).Some? && !m.macCmd
    && k != Logical(Function(8)) && k != Logical(Function(11)) && k != Logical(Function(12))
  }

  /** In every state, a press is sent as exactly one key-down if it is for the guest, and then the
      key is held; otherwise nothing is sent and what is held does not change. */
  lemma {:induction false} PressReachesGuest(v: View, key: Key, physical: Option<Key>, repeat: bool, m: Modifiers)
    ensures var k := if physical.Some? then physical.value else key;
            var step := Translate(v, KeyEvent(key, physical, true, repeat, m));
            && (ForGuest(k, m) ==>
                  && step.sent == [KeyDown(Scancode(k).value.down)]
                  && k in step.view.held
                  && step.view.held - {k} == v.held - {k}
                  && step.outcome == if k in v.held then Repeat else Forwarded)
            && (!ForGuest(k, m) ==> step.sent == [] && step.view.held == v.held)
            && step.view.clipboard == v.clipboard
  {
    hide Scancode;
  }

  /** Which event lets go of key `k`. */
  predicate LetsGo(v: View, e: Event, k: Key) {
    e.KeyEvent? && !e.pressed &&
    var l := LookupKey(e.key, e.physical);
    && !IsShortcutKey(l)
    && (l == k || (l !in v.held && EndedChord(v.clipboard, e.key).Some?
                   && v.clipboard[EndedChord(v.clipboard, e.key).value] == Some(k)))
  }

  /** A held key is let go by exactly its own release or the end of the chord that pressed it, and
      then its recorded key-up is all that is sent; until then its code does not change. */
  lemma {:induction false} HeldUntilReleased(v: View, e: Event, k: Key)
    requires Consistent(v) && k in v.held && !e.FocusLost? && !e.Unrelated?
    ensures var step := Translate(v, e);
            && (LetsGo(v, e, k) ==> step.sent == [KeyUp(v.held[k])] && step.view.held == v.held - {k})
            && (!LetsGo(v, e, k) ==> k in step.view.held && step.view.held[k] == v.held[k])
  {
    hide Scancode;
  }

  /** A stroke of one physical key, whatever the layout and the modifiers make of its release,
      sends its key-down and its key-up and leaves held what was held. */
  lemma {:induction false} StrokeReleasesWhatItPressed(v: View, physical: Key, pressed: Key, released: Key, r: bool,
                                                       q: bool, m: Modifiers, n: Modifiers)
    requires Consistent(v) && physical !in v.held && ForGuest(physical, m)
    ensures var down := Translate(v, KeyEvent(pressed, Some(physical), true, r, m));
            var up := Translate(down.view, KeyEvent(released, Some(physical), false, q, n));
            && down.sent + up.sent == [KeyDown(Scancode(physical).value.down), KeyUp(Scancode(physical).value.up)]
            && up.view.held == v.held
  {
    hide Scancode;
    var down := Translate(v, KeyEvent(pressed, Some(physical), true, r, m));
    assert down.view.held == v.held[physical := Scancode(physical).value.up];
  }

  /** A clipboard chord is sent as its key's press unless Cmd is down or no key produces it. */
  lemma {:induction false} ChordReachesGuest(v: View, chord: Chord)
    ensures var step, key := PressChord(v, chord), ReplacedKey(chord, v.modifiers);
            if !v.modifiers.macCmd && key.Some? && Scancode(key.value).Some? then
              && ChordKey(chord, key.value)
              && step.sent == [KeyDown(Scancode(key.value).value.down)] && key.value in step.view.held
              && (key.value !in v.held ==> step.view.clipboard == v.clipboard[chord := Some(key.value)])
            else step.sent == [] && step.view.held == v.held
  {
    hide Scancode;
  }

  /** A chord ends at the release of any key that could have made it: what it pressed is released,
      though the key that comes up may be at another place or be another key. */
  lemma {:induction false} ChordReleasesWhatItPressed(v: View, chord: Chord, released: Key, physical: Option<Key>,
                                                    r: bool, n: Modifiers)
    requires Consistent(v) && v.clipboard == map[] && !v.modifiers.macCmd
    requires ReplacedKey(chord, v.modifiers).Some? && Scancode(ReplacedKey(chord, v.modifiers).value).Some?
    requires ReplacedKey(chord, v.modifiers).value !in v.held
    requires ReleasedBy(chord, released) && LookupKey(released, physical) !in v.held
    requires !IsShortcutKey(LookupKey(released, physical))
    ensures var k, down := ReplacedKey(chord, v.modifiers).value, PressChord(v, chord);
            var up := Translate(down.view, KeyEvent(released, physical, false, r, n));
            && down.sent + up.sent == [KeyDown(Scancode(k).value.down), KeyUp(Scancode(k).value.up)]
            && up.view.held == v.held && up.view.clipboard == map[]
  {
    hide Scancode;
    var k, down := ReplacedKey(chord, v.modifiers).value, PressChord(v, chord);
    assert down.view.held == v.held[k := Scancode(k).value.up] && down.view.clipboard == map[chord := Some(k)];
    assert down.view.held - {k} == v.held;
    assert map[chord := Some(k)] - {chord} == map[];
  }

  // ----- Over whole runs

  /** The chord a clipboard event stands for. */
  function ChordOf(e: Event): Option<Chord> {
    match e
    case CutEvent => Some(Cut)
    case CopyEvent => Some(Copy)
    case PasteEvent => Some(Paste)
    case _ => None
  }

  /** Which event presses key `k` in the guest: its own press, or a chord it makes. */
  predicate Presses(v: View, e: Event, k: Key) {
    || (e.KeyEvent? && e.pressed && LookupKey(e.key, e.physical) == k && ForGuest(k, e.modifiers))
    || (ChordOf(e).Some? && !v.modifiers.macCmd && Scancode(k).Some?
        && ReplacedKey(ChordOf(e).value, v.modifiers) == Some(k))
  }

  lemma {:induction false} NewlyHeld(v: View, e: Event, k: Key)
    requires k !in v.held && !e.FocusLost? && !e.Unrelated?
    ensures k in Translate(v, e).view.held <==> Presses(v, e, k)
  {
    hide Scancode;
  }

  lemma {:induction false} PressIsNoRelease(v: View, e: Event, k: Key)
    requires Presses(v, e, k)
    ensures !LetsGo(v, e, k) && !e.Unrelated?
  {
  }

  /** One event: a key is held after it if and only if it is pressed by it, or was held and is
      neither let go nor lost with the focus. */
  lemma {:induction false} HeldAfter(v: View, e: Event, w: View, sent: seq<InputEvent>, k: Key)
    requires Consistent(v) && Handles(v, e, w, sent)
    ensures k in w.held <==> !e.FocusLost? && (Presses(v, e, k) || (k in v.held && !LetsGo(v, e, k)))
  {
    hide Translate, Presses, LetsGo, Consistent, Releases;
    if Presses(v, e, k) { PressIsNoRelease(v, e, k); }
    if e.Unrelated? {
      LetsGoIsKey(v, e, k);
    } else if !e.FocusLost? {
      if k in v.held { HeldUntilReleased(v, e, k); } else { NewlyHeld(v, e, k); }
    }
  }

  lemma {:induction false} LetsGoIsKey(v: View, e: Event, k: Key)
    ensures LetsGo(v, e, k) ==> e.KeyEvent?
  {
  }

  /** Back to front, from each event and the state it meets: `k` was pressed, and has neither been let
      go nor lost since. */
  ghost predicate DownSince(v: View, run: seq<Handled>, k: Key) {
    if run == [] then k in v.held
    else
      var init, last := run[..|run| - 1], run[|run| - 1];
      var before := LastView(v, init);
      && !last.event.FocusLost?
      && (Presses(before, last.event, k) || (DownSince(v, init, k) && !LetsGo(before, last.event, k)))
  }

  lemma {:induction false} HeldIsDownSince(v: View, run: seq<Handled>, k: Key)
    requires Consistent(v) && IsRun(v, run)
    ensures Consistent(LastView(v, run))
    ensures k in LastView(v, run).held <==> DownSince(v, run, k)
  {
    hide Consistent, Handles, Presses, LetsGo;
    if run != [] {
      var init, last := run[..|run| - 1], run[|run| - 1];
      RunPrefix(v, run);
      HeldIsDownSince(v, init, k);
      HandlesAgrees(LastView(v, init), last.event, last.view, last.sent);
      HeldAfter(LastView(v, init), last.event, last.view, last.sent, k);
    }
  }

  /** Over every run the guest believes a key pressed exactly from the event that presses it to the
      event that lets it go or takes the focus; and its recorded code is its own all that time. */
  lemma {:induction false} PressedExactlyWhileDown(run: seq<Handled>, k: Key)
    requires IsRun(FRESH, run) && Scancode(k).Some?
    ensures PositionOf(k) in GuestReplay({}, CodesOf(SentIn(run))) <==> DownSince(FRESH, run, k)
    ensures DownSince(FRESH, run, k) ==> k in LastView(FRESH, run).held
                                         && LastView(FRESH, run).held[k] == Scancode(k).value.up
  {
    hide Scancode, PositionOf, GuestReplay, IsRun, DownSince, LastView, SentIn;
    FreshConsistent();
    RunAgrees(run);
    HeldIsDownSince(FRESH, run, k);
    var held := LastView(FRESH, run).held;
    if PositionOf(k) in HeldPositions(held) {
      var l :| l in held && PositionOf(l) == PositionOf(k);
      if l != k { PositionsDiffer(l, k); }
    }
  }
}
