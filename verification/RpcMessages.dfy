/** Requests on the wire: what the gateway sends and what a worker makes of a message body. */
module RpcMessages {
  import opened Wrappers
  import opened Timestamps
  import Json

  datatype Task = Task(scriptName: string, scriptVersion: Option<string>, parameters: Json.Value, timeout: int) {
    predicate Valid() {
      && 1 <= |scriptName| <= 100
      && (scriptVersion.Some? ==> |scriptVersion.value| <= 50)
      && parameters.Object?
      && 1 <= timeout <= 3600
    }
  }

  /** A ScrapingRequest; one that exists has passed its model's field checks. */
  datatype Request = Request(requestId: string, task: Task, createdAt: DateTime) {
    predicate Valid() {
      task.Valid() && createdAt.Valid()
    }
  }

  datatype FieldValue = Missing | OtherType | Text(text: string)

  /** A message body. `task` is None when one of the other fields is missing or of the wrong type. */
  datatype Body =
    | NotJson
    | NotObject
    | Fields(requestId: FieldValue, createdAt: FieldValue, task: Option<Task>)

  /** The body `call_async` sends. */
  function Encode(r: Request): Body {
    Fields(Text(r.requestId), Text(IsoFormat(r.createdAt)), Some(r.task))
  }

  /** `Invalid` carries the request id of the error reply; without one, building that reply raises. */
  datatype Parsed = Accepted(request: Request) | Invalid(replyId: Option<string>)

  /** `request_data.get("request_id", "unknown")`, when it is a string. */
  function ReplyId(body: Body): Option<string> {
    if !body.Fields? then None
    else
      match body.requestId
      case Missing => Some("unknown")
      case OtherType => None
      case Text(id) => Some(id)
  }

  /** The parsing part of `_process_message`; an absent id or time is made up on the spot. */
  function Decode(body: Body, freshId: string, now: DateTime): (p: Parsed)
    ensures p.Accepted? ==> p.request.task.Valid()
  {
    if !body.Fields? then Invalid(None)
    else
      var created := match body.createdAt
        case Missing => Some(now)
        case OtherType => None
        case Text(t) => FromIsoFormat(t);
      if created.None? || body.task.None? || !body.task.value.Valid() || body.requestId.OtherType?
      then Invalid(ReplyId(body))
      else
        Accepted(Request(if body.requestId.Text? then body.requestId.text else freshId,
                         body.task.value, created.value))
  }

  /** A worker reads back exactly the request that was sent, and would name it in an error reply. */
  lemma {:induction false} DecodeEncode(r: Request, freshId: string, now: DateTime)
    requires r.Valid()
    ensures Decode(Encode(r), freshId, now) == Accepted(r)
    ensures ReplyId(Encode(r)) == Some(r.requestId)
  {
    hide IsoFormat, FromIsoFormat;
    IsoRoundTrip(r.createdAt);
  }

  /** A request without an id or a time gets a fresh one and the present one; its error replies name "unknown". */
  lemma {:induction false} AbsentFilled(task: Task, freshId: string, now: DateTime, created: FieldValue)
    ensures task.Valid() ==>
      Decode(Fields(Missing, Missing, Some(task)), freshId, now) == Accepted(Request(freshId, task, now))
    ensures ReplyId(Fields(Missing, created, Some(task))) == Some("unknown")
    ensures !task.Valid() ==> Decode(Fields(Missing, created, Some(task)), freshId, now) == Invalid(Some("unknown"))
  {
  }

  /** A request that parses always has an id an error reply could carry. */
  lemma {:induction false} AcceptedHasId(body: Body, freshId: string, now: DateTime)
    requires Decode(body, freshId, now).Accepted?
    ensures ReplyId(body).Some?
    ensures body.requestId.Text? ==> Decode(body, freshId, now).request.requestId == body.requestId.text
  {
    hide FromIsoFormat;
  }
}
