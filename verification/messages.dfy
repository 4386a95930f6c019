/**
 * The messages a key press turns into (src/update/message.rs): their
 * user-facing descriptions and the model operation each one dispatches to.
 */
module Messages {
  import opened Wrappers

  datatype Message = PrevRow | NextRow | LastRow | FirstRow | Quit

  /** The short description shown for a message. */
  function Describe(msg: Message): (r: string)
    ensures r != []
  {
    match msg
    case PrevRow => "Scroll up one row"
    case NextRow => "Scroll down one row"
    case LastRow => "Jump to bottom row"
    case FirstRow => "Jump to top row"
    case Quit => "Quit application"
  }

  /** The five descriptions are pairwise distinct. */
  lemma DescribeInjective(m1: Message, m2: Message)
    ensures Describe(m1) == Describe(m2) <==> m1 == m2
  {
    // The five descriptions have five different lengths.
    assert |Describe(m1)| == |Describe(m2)| ==> m1 == m2;
  }

  /** The model operations a message can trigger. */
  datatype ModelCall = CallPreviousRow | CallNextRow | CallGoToLastRow | CallGoToFirstRow | CallQuit

  /** What `update` does with a message: one model call, and no follow-up message. */
  datatype Dispatch = Dispatch(call: ModelCall, reply: Option<Message>)

  function Update(msg: Message): (r: Dispatch)
    ensures r.reply == None
  {
    match msg
    case PrevRow => Dispatch(CallPreviousRow, None)
    case NextRow => Dispatch(CallNextRow, None)
    case LastRow => Dispatch(CallGoToLastRow, None)
    case FirstRow => Dispatch(CallGoToFirstRow, None)
    case Quit => Dispatch(CallQuit, None)
  }

  /** The message that triggers a model call: the partner of `Update`. */
  function Trigger(call: ModelCall): Message {
    match call
    case CallPreviousRow => PrevRow
    case CallNextRow => NextRow
    case CallGoToLastRow => LastRow
    case CallGoToFirstRow => FirstRow
    case CallQuit => Quit
  }

  /** Every message triggers its own model call, and every call has exactly one trigger. */
  lemma UpdateOneToOne(msg: Message, call: ModelCall)
    ensures Update(msg).call == call <==> Trigger(call) == msg
  {
  }
}
