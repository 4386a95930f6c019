/**
 * The slice of the terminal library's key events that the key handling reads:
 * a key code and the set of held modifiers (the library's modifier bit set,
 * written here as a set).
 */
module Crossterm {
  import opened Wrappers

  /** An unsigned byte, the type of a function-key number. */
  type U8 = n: int | 0 <= n < 256

  datatype KeyCode =
    | Backspace | Enter | Left | Right | Up | Down | Home | End | PageUp | PageDown
    | Tab | BackTab | Delete | Insert | F(n: U8) | Char(c: char) | Null | Esc
    | CapsLock | ScrollLock | NumLock | PrintScreen | Pause | Menu | KeypadBegin
    | Media | ModifierKey

  /** The library's own name of a code that carries no payload. */
  function CodeName(code: KeyCode): Option<string> {
    match code
    case Backspace => Some("Backspace")
    case Enter => Some("Enter")
    case Left => Some("Left")
    case Right => Some("Right")
    case Up => Some("Up")
    case Down => Some("Down")
    case Home => Some("Home")
    case End => Some("End")
    case PageUp => Some("PageUp")
    case PageDown => Some("PageDown")
    case Tab => Some("Tab")
    case BackTab => Some("BackTab")
    case Delete => Some("Delete")
    case Insert => Some("Insert")
    case F(_) => None
    case Char(_) => None
    case Null => Some("Null")
    case Esc => Some("Esc")
    case CapsLock => Some("CapsLock")
    case ScrollLock => Some("ScrollLock")
    case NumLock => Some("NumLock")
    case PrintScreen => Some("PrintScreen")
    case Pause => Some("Pause")
    case Menu => Some("Menu")
    case KeypadBegin => Some("KeypadBegin")
    case Media => Some("Media")
    case ModifierKey => Some("Modifier")
  }

  datatype Modifier = SHIFT | CONTROL | ALT | SUPER | HYPER | META

  datatype KeyEvent = KeyEvent(code: KeyCode, modifiers: set<Modifier>)
}
