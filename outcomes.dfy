/**
 * Command outcomes and the translation of a handler's result into the
 * outcome returned to the caller and the message shown to the sender.
 */
module Outcomes {
  import opened Wrappers
  import opened CommandNames

  datatype Outcome =
    | Success
    | NoPermission
    | WrongUsage
    | UnsupportedSender
    | Error
    | NotHandled
    | FailureOther

  const PermissionError: string := "Sorry, you do not have permission for this command."
  const InvalidCommand: string := "Invalid command entered! Type /help for help!"
  const ErrorOccurred: string := "An error occurred! Please contact the server administrators."
  const UnsupportedSenderError: string := ""

  /** What invoking a handler produced: a value (None standing for null) or a thrown exception. */
  datatype Invocation = Returned(result: Option<Outcome>) | Threw

  /** What one dispatch yields: the outcome returned and the messages sent to the sender, in order. */
  datatype Response = Response(outcome: Outcome, sent: seq<string>)

  /**
   * The outcome after the exception is caught, null is defaulted and a
   * NotHandled coming back from a handler is coerced: a dispatched command
   * never reports NotHandled, and every other returned value passes through.
   */
  function Normalize(inv: Invocation): (o: Outcome)
    ensures o != NotHandled
    ensures inv.Threw? ==> o == Error
    ensures inv == Returned(None) ==> o == FailureOther
    ensures inv == Returned(Some(NotHandled)) ==> o == FailureOther
    ensures inv.Returned? && inv.result.Some? && inv.result.value != NotHandled ==> o == inv.result.value
  {
    match inv
    case Threw => Error
    case Returned(v) =>
      var o := if v.Some? then v.value else FailureOther;
      if o == NotHandled then FailureOther else o
  }

  /**
   * The message table: Success sends nothing, every other outcome exactly one
   * fixed text, except WrongUsage, whose text names the matched command and
   * its usage hint.
   */
  function MessageFor(o: Outcome, name: CommandName, usage: string): (m: Option<string>)
    ensures m.None? <==> o == Success
    ensures o == NoPermission ==> m == Some(PermissionError)
    ensures o == WrongUsage ==> m == Some("/" + NameText(name) + " " + usage)
    ensures o == UnsupportedSender ==> m == Some(UnsupportedSenderError)
    ensures o in {Error, NotHandled, FailureOther} ==> m == Some(ErrorOccurred)
  {
    match o
    case Success => None
    case NoPermission => Some(PermissionError)
    case WrongUsage => Some("/" + NameText(name) + " " + usage)
    case UnsupportedSender => Some(UnsupportedSenderError)
    case Error => Some(ErrorOccurred)
    case NotHandled => Some(ErrorOccurred)
    case FailureOther => Some(ErrorOccurred)
  }

  /**
   * The whole of what happens once a command `name` has matched and its
   * handler has produced `inv`: the normalized outcome and at most one message.
   */
  function Respond(name: CommandName, usage: string, inv: Invocation): (r: Response)
    ensures r.outcome != NotHandled
    ensures r.outcome == Normalize(inv)
    ensures r.sent == if r.outcome == Success then [] else [MessageFor(r.outcome, name, usage).value]
    ensures |r.sent| == if r.outcome == Success then 0 else 1
    ensures inv.Threw? ==> r == Response(Error, [ErrorOccurred])
    ensures inv == Returned(None) ==> r == Response(FailureOther, [ErrorOccurred])
    ensures inv == Returned(Some(NotHandled)) ==> r == Response(FailureOther, [ErrorOccurred])
    ensures r.outcome == WrongUsage ==> r.sent == ["/" + NameText(name) + " " + usage]
  {
    var o := Normalize(inv);
    match MessageFor(o, name, usage)
    case None => Response(o, [])
    case Some(text) => Response(o, [text])
  }
}
