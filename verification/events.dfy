/**
 * The fixed key table of src/update/event.rs: which terminal key event
 * becomes which message.
 */
module Events {
  import opened Wrappers
  import CT = Crossterm
  import opened Messages

  /** The message a key event asks for, if any. */
  function HandleKey(e: CT.KeyEvent): (r: Option<Message>)
    ensures r.Some? ==> e.code == CT.Esc || (e.code.Char? && e.code.c in "kjgGqc")
  {
    match e.code
    case Char('k') => Some(PrevRow)
    case Char('j') => Some(NextRow)
    case Char('g') => Some(FirstRow)
    case Char('G') => Some(LastRow)
    case Char('q') => Some(Quit)
    case Char('c') => if CT.CONTROL in e.modifiers then Some(Quit) else None
    case Esc => Some(Quit)
    case _ => None
  }

  /** The whole table, read backwards from the message to the keys that give it. */
  lemma HandleKeyTable(e: CT.KeyEvent)
    ensures HandleKey(e) == Some(PrevRow) <==> e.code == CT.Char('k')
    ensures HandleKey(e) == Some(NextRow) <==> e.code == CT.Char('j')
    ensures HandleKey(e) == Some(FirstRow) <==> e.code == CT.Char('g')
    ensures HandleKey(e) == Some(LastRow) <==> e.code == CT.Char('G')
    ensures HandleKey(e) == Some(Quit) <==>
      e.code == CT.Char('q') || e.code == CT.Esc || (e.code == CT.Char('c') && CT.CONTROL in e.modifiers)
  {
  }

  /** Only the control modifier is ever consulted, and only for 'c'. */
  lemma ModifiersMatterOnlyForC(code: CT.KeyCode, m1: set<CT.Modifier>, m2: set<CT.Modifier>)
    requires code != CT.Char('c') || (CT.CONTROL in m1 <==> CT.CONTROL in m2)
    ensures HandleKey(CT.KeyEvent(code, m1)) == HandleKey(CT.KeyEvent(code, m2))
  {
  }
}
