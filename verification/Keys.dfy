/** Host keys, their wire scancodes, and how a guest keyboard reads those codes. */
module Keys {
  import opened Options

  datatype Direction = Up | Down | Left | Right

  datatype NavKey = Home | End | PageUp | PageDown | Insert | Delete

  datatype WSKey = Space | Tab | EnterKey | Backspace

  datatype PunctKey =
    | Minus | Equals | OpenBracket | CloseBracket | Backslash | Semicolon | Quote | Backtick
    | Comma | Period | Slash

  datatype LogicalKey =
    | Letter(c: char)
    | Digit(d: nat)
    | Function(f: nat)
    | Arrow(direction: Direction)
    | Navigation(nav: NavKey)
    | Whitespace(ws: WSKey)
    | Punctuation(punct: PunctKey)
    | Escape

  /** The host toolkit's keys: those that name a logical key, the dedicated clipboard keys, and
      every other key, which has no scancode. */
  datatype Key = Logical(logical: LogicalKey) | CutKey | CopyKey | PasteKey | OtherKey(id: nat)

  function KeyToLogical(k: Key): Option<LogicalKey> {
    if k.Logical? then Some(k.logical) else None
  }

  function LetterCode(c: char): Option<nat> {
    if c == 'A' then Some(0x1E)
    else if c == 'B' then Some(0x30)
    else if c == 'C' then Some(0x2E)
    else if c == 'D' then Some(0x20)
    else if c == 'E' then Some(0x12)
    else if c == 'F' then Some(0x21)
    else if c == 'G' then Some(0x22)
    else if c == 'H' then Some(0x23)
    else if c == 'I' then Some(0x17)
    else if c == 'J' then Some(0x24)
    else if c == 'K' then Some(0x25)
    else if c == 'L' then Some(0x26)
    else if c == 'M' then Some(0x32)
    else if c == 'N' then Some(0x31)
    else if c == 'O' then Some(0x18)
    else if c == 'P' then Some(0x19)
    else if c == 'Q' then Some(0x10)
    else if c == 'R' then Some(0x13)
    else if c == 'S' then Some(0x1F)
    else if c == 'T' then Some(0x14)
    else if c == 'U' then Some(0x16)
    else if c == 'V' then Some(0x2F)
    else if c == 'W' then Some(0x11)
    else if c == 'X' then Some(0x2D)
    else if c == 'Y' then Some(0x15)
    else if c == 'Z' then Some(0x2C)
    else None
  }

  function ArrowCode(a: Direction): nat {
    match a
    case Up => 0x148
    case Down => 0x150
    case Left => 0x14B
    case Right => 0x14D
  }

  function NavCode(n: NavKey): nat {
    match n
    case Delete => 0x153
    case Insert => 0x152
    case Home => 0x147
    case End => 0x14F
    case PageUp => 0x149
    case PageDown => 0x151
  }

  function WhitespaceCode(w: WSKey): nat {
    match w
    case Space => 0x39
    case EnterKey => 0x1C
    case Backspace => 0x0E
    case Tab => 0x0F
  }

  function PunctCode(p: PunctKey): nat {
    match p
    case Minus => 0x0C
    case Equals => 0x0D
    case OpenBracket => 0x1A
    case CloseBracket => 0x1B
    case Backslash => 0x2B
    case Semicolon => 0x27
    case Quote => 0x28
    case Backtick => 0x29
    case Comma => 0x33
    case Period => 0x34
    case Slash => 0x35
  }

  /** A key's AT scancode; codes from 0x100 on take the E0 prefix. */
  function BaseCode(k: LogicalKey): Option<nat> {
    match k
    case Letter(c) => LetterCode(c)
    case Digit(d) => if d == 0 then Some(0x0B) else if d <= 9 then Some(d + 1) else None
    case Function(f) =>
      if 1 <= f <= 10 then Some(0x3A + f) else if f == 11 then Some(0x57) else if f == 12 then Some(0x58) else None
    case Arrow(a) => Some(ArrowCode(a))
    case Navigation(n) => Some(NavCode(n))
    case Whitespace(w) => Some(WhitespaceCode(w))
    case Punctuation(p) => Some(PunctCode(p))
    case Escape => Some(0x01)
  }

  /** Bitwise `x | 0x80`. */
  function SetBreakBit(x: nat): nat {
    if x / 128 % 2 == 1 then x else x + 128
  }

  /** Encode a scancode for the wire, where the prefix byte comes first. */
  function MakeScancode(base: nat, release: bool): nat {
    var code := if release then SetBreakBit(base) else base;
    if base >= 0x100 then code % 256 * 256 + 0xE0 else code
  }

  datatype Codes = Codes(down: nat, up: nat)

  function Scancode(k: Key): Option<Codes> {
    if KeyToLogical(k).Some? && BaseCode(k.logical).Some? then
      var base := BaseCode(k.logical).value;
      Some(Codes(MakeScancode(base, false), MakeScancode(base, true)))
    else None
  }

  // ----- The guest's side

  /** The key position a wire code names: its scancode without the break bit. */
  function Position(code: nat): nat {
    if code % 256 == 0xE0 then 0xE000 + code / 256 % 128 else code % 128
  }

  /** Whether the guest reads a wire code as a release. */
  predicate IsBreak(code: nat) {
    if code % 256 == 0xE0 then code / 256 % 256 >= 128 else code % 256 >= 128
  }

  function GuestApply(pressed: set<nat>, code: nat): set<nat> {
    if IsBreak(code) then pressed - {Position(code)} else pressed + {Position(code)}
  }

  /** The positions a guest believes pressed after a run of codes. */
  function GuestReplay(pressed: set<nat>, codes: seq<nat>): set<nat> {
    if codes == [] then pressed
    else GuestApply(GuestReplay(pressed, codes[..|codes| - 1]), codes[|codes| - 1])
  }

  lemma {:induction false} GuestReplayConcat(pressed: set<nat>, a: seq<nat>, b: seq<nat>)
    ensures GuestReplay(pressed, a + b) == GuestReplay(GuestReplay(pressed, a), b)
  {
    if b == [] {
      assert a + b == a;
    } else {
      GuestReplayConcat(pressed, a, b[..|b| - 1]);
      assert (a + b)[..|a + b| - 1] == a + b[..|b| - 1];
    }
  }

  // ----- The key at a guest position

  function LetterAt(p: nat): Option<LogicalKey> {
    if p == 0x1E then Some(Letter('A'))
    else if p == 0x30 then Some(Letter('B'))
    else if p == 0x2E then Some(Letter('C'))
    else if p == 0x20 then Some(Letter('D'))
    else if p == 0x12 then Some(Letter('E'))
    else if p == 0x21 then Some(Letter('F'))
    else if p == 0x22 then Some(Letter('G'))
    else if p == 0x23 then Some(Letter('H'))
    else if p == 0x17 then Some(Letter('I'))
    else if p == 0x24 then Some(Letter('J'))
    else if p == 0x25 then Some(Letter('K'))
    else if p == 0x26 then Some(Letter('L'))
    else if p == 0x32 then Some(Letter('M'))
    else if p == 0x31 then Some(Letter('N'))
    else if p == 0x18 then Some(Letter('O'))
    else if p == 0x19 then Some(Letter('P'))
    else if p == 0x10 then Some(Letter('Q'))
    else if p == 0x13 then Some(Letter('R'))
    else if p == 0x1F then Some(Letter('S'))
    else if p == 0x14 then Some(Letter('T'))
    else if p == 0x16 then Some(Letter('U'))
    else if p == 0x2F then Some(Letter('V'))
    else if p == 0x11 then Some(Letter('W'))
    else if p == 0x2D then Some(Letter('X'))
    else if p == 0x15 then Some(Letter('Y'))
    else if p == 0x2C then Some(Letter('Z'))
    else None
  }

  function ExtendedAt(p: nat): Option<LogicalKey> {
    if p == 0x53 then Some(Navigation(Delete))
    else if p == 0x52 then Some(Navigation(Insert))
    else if p == 0x47 then Some(Navigation(Home))
    else if p == 0x4F then Some(Navigation(End))
    else if p == 0x49 then Some(Navigation(PageUp))
    else if p == 0x51 then Some(Navigation(PageDown))
    else if p == 0x48 then Some(Arrow(Up))
    else if p == 0x50 then Some(Arrow(Down))
    else if p == 0x4B then Some(Arrow(Left))
    else if p == 0x4D then Some(Arrow(Right))
    else None
  }

  function PunctAt(p: nat): Option<LogicalKey> {
    if p == 0x0C then Some(Punctuation(Minus))
    else if p == 0x0D then Some(Punctuation(Equals))
    else if p == 0x1A then Some(Punctuation(OpenBracket))
    else if p == 0x1B then Some(Punctuation(CloseBracket))
    else if p == 0x2B then Some(Punctuation(Backslash))
    else if p == 0x27 then Some(Punctuation(Semicolon))
    else if p == 0x28 then Some(Punctuation(Quote))
    else if p == 0x29 then Some(Punctuation(Backtick))
    else if p == 0x33 then Some(Punctuation(Comma))
    else if p == 0x34 then Some(Punctuation(Period))
    else if p == 0x35 then Some(Punctuation(Slash))
    else None
  }

  function WhitespaceAt(p: nat): Option<LogicalKey> {
    if p == 0x39 then Some(Whitespace(Space))
    else if p == 0x1C then Some(Whitespace(EnterKey))
    else if p == 0x0E then Some(Whitespace(Backspace))
    else if p == 0x0F then Some(Whitespace(Tab))
    else None
  }

  function KeyAt(position: nat): Option<LogicalKey> {
    if position >= 0xE000 then ExtendedAt(position - 0xE000)
    else if position == 0x01 then Some(Escape)
    else if 0x02 <= position <= 0x0A then Some(Digit(position - 1))
    else if position == 0x0B then Some(Digit(0))
    else if 0x3B <= position <= 0x44 then Some(Function(position - 0x3A))
    else if 0x57 <= position <= 0x58 then Some(Function(position - 0x4C))
    else if LetterAt(position).Some? then LetterAt(position)
    else if PunctAt(position).Some? then PunctAt(position)
    else WhitespaceAt(position)
  }

  function PositionOf(k: Key): nat {
    match Scancode(k)
    case Some(codes) => Position(codes.down)
    case None => 0
  }

  /** The position a scancode names in the guest. */
  function BasePosition(base: nat): nat {
    if base >= 0x100 then 0xE000 + base % 128 else base
  }

  lemma {:induction false} WireRoundTrip(base: nat)
    requires base < 0x60 || 0x100 <= base < 0x160
    ensures Position(MakeScancode(base, false)) == Position(MakeScancode(base, true)) == BasePosition(base)
    ensures !IsBreak(MakeScancode(base, false)) && IsBreak(MakeScancode(base, true))
  {
    if base >= 0x100 { ExtendedRoundTrip(base - 0x100); }
  }

  lemma {:induction false} ExtendedRoundTrip(b: nat)
    requires b < 0x60
    ensures var down, up := MakeScancode(0x100 + b, false), MakeScancode(0x100 + b, true);
            && Position(down) == Position(up) == 0xE000 + b
            && !IsBreak(down) && IsBreak(up)
  {
    assert MakeScancode(0x100 + b, false) == b * 256 + 0xE0;
    assert MakeScancode(0x100 + b, true) == (b + 128) * 256 + 0xE0;
    PrefixedByte(b);
    PrefixedByte(b + 128);
  }

  lemma {:induction false} PrefixedByte(b: nat)
    requires b < 256
    ensures (b * 256 + 0xE0) % 256 == 0xE0 && (b * 256 + 0xE0) / 256 == b
  {
  }

  lemma {:induction false} LetterInverts(c: char)
    requires LetterCode(c).Some?
    ensures var code := LetterCode(c).value; 0x10 <= code < 0x39 && LetterAt(code) == Some(Letter(c))
  {
  }

  lemma {:induction false} PunctInverts(p: PunctKey)
    ensures LetterAt(PunctCode(p)) == None && PunctAt(PunctCode(p)) == Some(Punctuation(p))
    ensures 0x0C <= PunctCode(p) < 0x39
  {
  }

  lemma {:induction false} WhitespaceInverts(w: WSKey)
    ensures var code := WhitespaceCode(w);
            && 0x0C <= code < 0x3B
            && LetterAt(code) == None && PunctAt(code) == None && WhitespaceAt(code) == Some(Whitespace(w))
  {
  }

  lemma {:induction false} KeyAtInverts(k: LogicalKey)
    requires BaseCode(k).Some?
    ensures var base := BaseCode(k).value;
            && (base < 0x60 || 0x100 <= base < 0x160)
            && KeyAt(BasePosition(base)) == Some(k)
  {
    hide LetterAt, PunctAt, WhitespaceAt, LetterCode, PunctCode, WhitespaceCode;
    match k
    case Letter(c) => LetterInverts(c);
    case Punctuation(p) => PunctInverts(p);
    case Whitespace(w) => WhitespaceInverts(w);
    case _ =>
  }

  /** A key's press and release codes name one position, the first as a press and the second
      as a release, and the position names the key: no two keys share a code. */
  lemma {:induction false} ScancodeNamesKey(k: Key)
    requires Scancode(k).Some?
    ensures var codes := Scancode(k).value;
            && Position(codes.down) == Position(codes.up) == PositionOf(k)
            && !IsBreak(codes.down) && IsBreak(codes.up)
            && KeyAt(PositionOf(k)) == Some(k.logical)
  {
    hide KeyAt, Position, MakeScancode, IsBreak, BaseCode;
    KeyAtInverts(k.logical);
    WireRoundTrip(BaseCode(k.logical).value);
  }

  lemma {:induction false} PositionsDiffer(k: Key, l: Key)
    requires Scancode(k).Some? && Scancode(l).Some? && k != l
    ensures PositionOf(k) != PositionOf(l)
  {
    hide KeyAt, Position, Scancode, PositionOf;
    ScancodeNamesKey(k);
    ScancodeNamesKey(l);
    OnlyLogicalKeys(k);
    OnlyLogicalKeys(l);
  }

  lemma {:induction false} OnlyLogicalKeys(k: Key)
    requires Scancode(k).Some?
    ensures k.Logical?
  {
  }
}
