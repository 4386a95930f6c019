/**
 * The application's own key type (src/update/keys.rs): conversion from a
 * terminal key event, function-key numbering, and the textual name a key is
 * looked up by in the keymap.
 */
module Keys {
  import opened Wrappers
  import CT = Crossterm

  datatype Key =
    | Enter | Tab | Backspace | Esc | Left | Right | Up | Down | Ins | Delete
    | Home | End | PageUp | PageDown
    | F0 | F1 | F2 | F3 | F4 | F5 | F6 | F7 | F8 | F9 | F10 | F11 | F12
    | Char(c: char) | Ctrl(c: char) | Alt(c: char) | Shift(c: char)
    | Unknown

  /** The function key with number `n`; numbers above 12 are unknown keys. */
  function FromF(n: CT.U8): (k: Key)
    ensures k == Unknown <==> n > 12
    ensures k != Unknown ==> FNumber(k) == Some(n as nat)
  {
    match n
    case 0 => F0
    case 1 => F1
    case 2 => F2
    case 3 => F3
    case 4 => F4
    case 5 => F5
    case 6 => F6
    case 7 => F7
    case 8 => F8
    case 9 => F9
    case 10 => F10
    case 11 => F11
    case 12 => F12
    case _ => Unknown
  }

  /** The number of a function key, the partner of `FromF`. */
  function FNumber(k: Key): Option<nat> {
    match k
    case F0 => Some(0)
    case F1 => Some(1)
    case F2 => Some(2)
    case F3 => Some(3)
    case F4 => Some(4)
    case F5 => Some(5)
    case F6 => Some(6)
    case F7 => Some(7)
    case F8 => Some(8)
    case F9 => Some(9)
    case F10 => Some(10)
    case F11 => Some(11)
    case F12 => Some(12)
    case _ => None
  }

  /** Numbers 0 to 12 name function keys and come back unchanged; the rest are unknown. */
  lemma FromFNumbers(n: CT.U8)
    ensures n <= 12 ==> FNumber(FromF(n)) == Some(n)
    ensures n > 12 <==> FromF(n) == Unknown
  {
  }

  /** Distinct numbers up to 12 give distinct function keys. */
  lemma FromFInjective(m: CT.U8, n: CT.U8)
    requires m <= 12 && n <= 12 && FromF(m) == FromF(n)
    ensures m == n
  {
    FromFNumbers(m);
    FromFNumbers(n);
  }

  /**
   * The key a terminal key event stands for. Named codes ignore the
   * modifiers; a character becomes `Alt`, `Ctrl` or `Shift` only when that
   * modifier is held alone.
   */
  function FromKeyEvent(e: CT.KeyEvent): (k: Key)
    ensures (k.Char? || k.Ctrl? || k.Alt? || k.Shift?) <==> e.code.Char?
    ensures e.code.Char? ==> k.c == e.code.c
    ensures e.code.F? ==> k == FromF(e.code.n)
    ensures e.code == CT.Insert ==> k == Ins
    ensures k == Unknown <==> Unsupported(e.code) || (e.code.F? && e.code.n > 12)
  {
    match e.code
    case Esc => Esc
    case Backspace => Backspace
    case Left => Left
    case Right => Right
    case Up => Up
    case Down => Down
    case Home => Home
    case End => End
    case PageUp => PageUp
    case PageDown => PageDown
    case Delete => Delete
    case Insert => Ins
    case F(n) => FromF(n)
    case Enter => Enter
    case Tab => Tab
    case Char(c) =>
      if e.modifiers == {CT.ALT} then Alt(c)
      else if e.modifiers == {CT.CONTROL} then Ctrl(c)
      else if e.modifiers == {CT.SHIFT} then Shift(c)
      else Char(c)
    case _ => Unknown
  }

  /** The codes the application has no key for. */
  predicate Unsupported(code: CT.KeyCode) {
    code in {CT.BackTab, CT.Null, CT.CapsLock, CT.ScrollLock, CT.NumLock, CT.PrintScreen,
             CT.Pause, CT.Menu, CT.KeypadBegin, CT.Media, CT.ModifierKey}
  }

  /**
   * Every other code without a payload (all but `Insert`, which becomes
   * `Ins`) becomes the key of the same name, whatever modifiers are held.
   */
  lemma SameNamedCodes(code: CT.KeyCode, m: set<CT.Modifier>)
    requires CT.CodeName(code).Some? && code != CT.Insert && !Unsupported(code)
    ensures KeyDisplay(FromKeyEvent(CT.KeyEvent(code, m))) == CT.CodeName(code).value
  {
  }

  /** A key that carries no character does not depend on the modifiers. */
  lemma NamedCodesIgnoreModifiers(code: CT.KeyCode, m1: set<CT.Modifier>, m2: set<CT.Modifier>)
    requires !code.Char?
    ensures FromKeyEvent(CT.KeyEvent(code, m1)) == FromKeyEvent(CT.KeyEvent(code, m2))
    ensures var k := FromKeyEvent(CT.KeyEvent(code, m1));
      !(k.Char? || k.Ctrl? || k.Alt? || k.Shift?)
  {
  }

  /** How a character code is classified by its modifier set. */
  lemma CharacterCodes(c: char, m: set<CT.Modifier>)
    ensures var k := FromKeyEvent(CT.KeyEvent(CT.Char(c), m));
      && (k == Alt(c) <==> m == {CT.ALT})
      && (k == Ctrl(c) <==> m == {CT.CONTROL})
      && (k == Shift(c) <==> m == {CT.SHIFT})
      && (k == Char(c) <==> m != {CT.ALT} && m != {CT.CONTROL} && m != {CT.SHIFT})
  {
  }

  /** Lower-casing of the ASCII capitals; every other character is kept. */
  function AsciiLower(c: char): (r: char)
    ensures 'A' <= c <= 'Z' ==> 'a' <= r <= 'z' && r as int == c as int + 32
    ensures !('A' <= c <= 'Z') ==> r == c
  {
    if 'A' <= c <= 'Z' then (c as int + 32) as char else c
  }

  /** The debug name of a key without a character. */
  function DebugName(k: Key): string
    requires !(k.Char? || k.Ctrl? || k.Alt? || k.Shift?)
  {
    match k
    case Enter => "Enter"
    case Tab => "Tab"
    case Backspace => "Backspace"
    case Esc => "Esc"
    case Left => "Left"
    case Right => "Right"
    case Up => "Up"
    case Down => "Down"
    case Ins => "Ins"
    case Delete => "Delete"
    case Home => "Home"
    case End => "End"
    case PageUp => "PageUp"
    case PageDown => "PageDown"
    case F0 => "F0"
    case F1 => "F1"
    case F2 => "F2"
    case F3 => "F3"
    case F4 => "F4"
    case F5 => "F5"
    case F6 => "F6"
    case F7 => "F7"
    case F8 => "F8"
    case F9 => "F9"
    case F10 => "F10"
    case F11 => "F11"
    case F12 => "F12"
    case Unknown => "Unknown"
  }

  /** The text of a key, as the keymap is keyed by. */
  function KeyDisplay(k: Key): (r: string)
    ensures r != []
  {
    match k
    case Alt(c) => if c == ' ' then "alt+space" else "alt+" + [c]
    case Ctrl(c) => if c == ' ' then "ctrl+space" else "ctrl+" + [c]
    case Char(c) => if c == ' ' then "space" else [c]
    case Shift(c) => "shift+" + [AsciiLower(c)]
    case _ => DebugName(k)
  }

  /** The key with the given debug name, if any (looked up by first letter). */
  function NamedKey(s: string): Option<Key> {
    if s == [] then None
    else match s[0]
      case 'E' =>
        if s == "Enter" then Some(Enter)
        else if s == "Esc" then Some(Esc)
        else if s == "End" then Some(End)
        else None
      case 'T' =>
        if s == "Tab" then Some(Tab)
        else None
      case 'B' =>
        if s == "Backspace" then Some(Backspace)
        else None
      case 'L' =>
        if s == "Left" then Some(Left)
        else None
      case 'R' =>
        if s == "Right" then Some(Right)
        else None
      case 'U' =>
        if s == "Up" then Some(Up)
        else if s == "Unknown" then Some(Unknown)
        else None
      case 'D' =>
        if s == "Down" then Some(Down)
        else if s == "Delete" then Some(Delete)
        else None
      case 'I' =>
        if s == "Ins" then Some(Ins)
        else None
      case 'H' =>
        if s == "Home" then Some(Home)
        else None
      case 'P' =>
        if s == "PageUp" then Some(PageUp)
        else if s == "PageDown" then Some(PageDown)
        else None
      case 'F' => FunctionKeyName(s)
      case _ => None
  }

  /** The function key with the given debug name, if any. */
  function FunctionKeyName(s: string): Option<Key> {
    if s == "F0" then Some(F0)
    else if s == "F1" then Some(F1)
    else if s == "F2" then Some(F2)
    else if s == "F3" then Some(F3)
    else if s == "F4" then Some(F4)
    else if s == "F5" then Some(F5)
    else if s == "F6" then Some(F6)
    else if s == "F7" then Some(F7)
    else if s == "F8" then Some(F8)
    else if s == "F9" then Some(F9)
    else if s == "F10" then Some(F10)
    else if s == "F11" then Some(F11)
    else if s == "F12" then Some(F12)
    else None
  }

  /** Reads a key name back: the partner of `KeyDisplay`. */
  function ParseKeyName(s: string): Option<Key> {
    if s == "alt+space" then Some(Alt(' '))
    else if s == "ctrl+space" then Some(Ctrl(' '))
    else if s == "space" then Some(Char(' '))
    else if |s| == 5 && s[..4] == "alt+" && s[4] != ' ' then Some(Alt(s[4]))
    else if |s| == 6 && s[..5] == "ctrl+" && s[5] != ' ' then Some(Ctrl(s[5]))
    else if |s| == 7 && s[..6] == "shift+" then Some(Shift(s[6]))
    else if |s| == 1 && s[0] != ' ' then Some(Char(s[0]))
    else NamedKey(s)
  }

  /** The key a name stands for: shifted letters are named in lower case. */
  function Canonical(k: Key): Key {
    if k.Shift? then Shift(AsciiLower(k.c)) else k
  }

  /** The debug names read back as their keys (group 1 of 4). */
  lemma NamedRoundTrip1(k: Key)
    requires k == Enter || k == Tab || k == Backspace || k == Esc || k == Left || k == Right || k == Up
    ensures ParseKeyName(DebugName(k)) == Some(k)
  {
    match k
    case Enter =>
      assert "Enter"[..4][0] == 'E';
    case Tab =>
    case Backspace =>
    case Esc =>
    case Left =>
    case Right =>
      assert "Right"[..4][0] == 'R';
    case Up =>
  }

  /** The debug names read back as their keys (group 2 of 4). */
  lemma NamedRoundTrip2(k: Key)
    requires k == Down || k == Ins || k == Delete || k == Home || k == End || k == PageUp || k == PageDown
    ensures ParseKeyName(DebugName(k)) == Some(k)
  {
    match k
    case Down =>
    case Ins =>
    case Delete =>
      assert "Delete"[..5][0] == 'D';
    case Home =>
    case End =>
    case PageUp =>
      assert "PageUp"[..5][0] == 'P';
    case PageDown =>
  }

  /** The debug names read back as their keys (group 3 of 4). */
  lemma NamedRoundTrip3(k: Key)
    requires k == F0 || k == F1 || k == F2 || k == F3 || k == F4 || k == F5 || k == F6
    ensures ParseKeyName(DebugName(k)) == Some(k)
  {
    match k
    case F0 =>
    case F1 =>
    case F2 =>
    case F3 =>
    case F4 =>
    case F5 =>
    case F6 =>
  }

  /** The debug names read back as their keys (group 4 of 4). */
  lemma NamedRoundTrip4(k: Key)
    requires k == F7 || k == F8 || k == F9 || k == F10 || k == F11 || k == F12 || k == Unknown
    ensures ParseKeyName(DebugName(k)) == Some(k)
  {
    match k
    case F7 =>
    case F8 =>
    case F9 =>
    case F10 =>
    case F11 =>
    case F12 =>
    case Unknown =>
      assert "Unknown"[..6][0] == 'U';
  }

  /** Every key's name reads back as the key, up to the case of a shifted letter. */
  lemma DisplayRoundTrip(k: Key)
    ensures ParseKeyName(KeyDisplay(k)) == Some(Canonical(k))
  {
    match k
    case Alt(c) =>
      if c != ' ' {
        var s := "alt+" + [c];
        assert s[..4] == "alt+" && s[0] == 'a';
        assert s != "space" by { assert "space"[0] == 's'; }
      }
    case Ctrl(c) =>
      if c != ' ' {
        var s := "ctrl+" + [c];
        assert s[..5] == "ctrl+" && |s| == 6;
      }
    case Shift(c) =>
      var s := "shift+" + [AsciiLower(c)];
      assert s[..6] == "shift+" && |s| == 7;
    case Char(c) =>
    case _ =>
      if k == Enter || k == Tab || k == Backspace || k == Esc || k == Left || k == Right || k == Up {
        NamedRoundTrip1(k);
      } else if k == Down || k == Ins || k == Delete || k == Home || k == End || k == PageUp || k == PageDown {
        NamedRoundTrip2(k);
      } else if k == F0 || k == F1 || k == F2 || k == F3 || k == F4 || k == F5 || k == F6 {
        NamedRoundTrip3(k);
      } else {
        NamedRoundTrip4(k);
      }
  }

  /** The space keys are read only from their spelled-out names. */
  lemma SpaceNames(s: string)
    ensures ParseKeyName(s) == Some(Alt(' ')) <==> s == "alt+space"
    ensures ParseKeyName(s) == Some(Ctrl(' ')) <==> s == "ctrl+space"
    ensures ParseKeyName(s) == Some(Char(' ')) <==> s == "space"
  {
  }

  /** Two keys share a name exactly when they are the same key up to a shifted letter's case. */
  lemma DisplayInjective(k1: Key, k2: Key)
    ensures KeyDisplay(k1) == KeyDisplay(k2) <==> Canonical(k1) == Canonical(k2)
  {
    DisplayRoundTrip(k1);
    DisplayRoundTrip(k2);
    if Canonical(k1) == Canonical(k2) && k1.Shift? {
      assert k2.Shift?;
    }
  }
}
