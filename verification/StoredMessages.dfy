/** Messages as the session stores them: typed content parts and fingerprint metadata. */
module StoredMessages {
  import opened Prelude
  import opened ToolExchanges

  datatype StoredRole = SystemMessage | UserMessage | AgentMessage | ResultMessage

  /** The file page a result value shows, when it is a paginated read. */
  datatype Page = Page(path: string, hash: string)

  datatype Value = Value(page: Option<Page>, text: string)

  datatype StoredPart =
    | Prose(text: string)
    | Call(call: ToolCall)
    | Outcome(callId: string, result: Option<Value>, error: Option<string>)

  datatype Stored = Stored(
    role: StoredRole, parts: seq<StoredPart>,
    callPrint: Option<string>, resultPrint: Option<string>, toolName: Option<string>)

  /** The first tool result among the parts. */
  function FirstOutcome(parts: seq<StoredPart>): (r: Option<StoredPart>)
    ensures r.Some? ==> r.value.Outcome?
  {
    if parts == [] then None
    else if parts[0].Outcome? then Some(parts[0])
    else FirstOutcome(parts[1..])
  }

  function AnsweredId(m: Stored): Option<string> {
    match FirstOutcome(m.parts)
    case None => None
    case Some(outcome) => Some(outcome.callId)
  }

  function CallsOf(parts: seq<StoredPart>): seq<ToolCall> {
    if parts == [] then []
    else if parts[0].Call? then [parts[0].call] + CallsOf(parts[1..])
    else CallsOf(parts[1..])
  }
}
