/** The error tree of `src/error.rs`, and which errors make a queue call refresh
    its session (`src/session.rs`). Message texts are opaque. */
module Errors {
  import opened Wrappers

  datatype Kind =
    | RunnerNotFound
    | RunnerExists
    | JobStillRunning
    | MessageQueueTokenExpired
    | BadRequest
    | NotFound
    | Unauthorized
    | Conflict
    | InvalidGitHubConfigUrl

  datatype Error =
    | KindError(k: Kind)
    | Classified(kind: Kind, inner: Error)
    | Context(message: string, inner: Error)
    | Message(message: string)
    | Http(code: int, message: string, source: Option<Error>)
    | Request
    | Json
    | Jwt
    | Url
    | JwtMissingExp
  {
    function WithContext(message: string): Error {
      Context(message, this)
    }

    predicate HasKind(k: Kind) {
      match this
      case KindError(k') => k' == k
      case Classified(kind, inner) => kind == k || inner.HasKind(k)
      case Context(_, inner) => inner.HasKind(k)
      case Http(_, _, Some(source)) => source.HasKind(k)
      case _ => false
    }

    function Status(): Option<int> {
      match this
      case Http(code, _, _) => Some(code)
      case Context(_, inner) => inner.Status()
      case Classified(_, inner) => inner.Status()
      case _ => None
    }

    predicate IsMessageQueueTokenExpired() {
      HasKind(MessageQueueTokenExpired)
    }
  }

  // ----- Mapping a response to an error -----

  /** The body of a failed response: empty, or some text that the JSON library
      may read as an exception with a type name. */
  datatype Body = Empty | Content(plainText: bool, exception: Option<Exception>)

  /** `typeName` of the exception, by the substrings the mapper looks for. */
  datatype Exception = Exception(agentExists: bool, agentNotFound: bool, jobStillRunning: bool)

  datatype ResponseError = ResponseError(status: int, body: Body, seed: Option<Kind>, text: string)

  /** The first recognised substring decides. */
  function ExceptionKind(e: Exception): Option<Kind> {
    if e.agentExists then Some(RunnerExists)
    else if e.agentNotFound then Some(RunnerNotFound)
    else if e.jobStillRunning then Some(JobStillRunning)
    else None
  }

  function StatusKind(status: int): Option<Kind> {
    if status == 400 then Some(BadRequest)
    else if status == 401 then Some(Unauthorized)
    else if status == 404 then Some(NotFound)
    else if status == 409 then Some(Conflict)
    else None
  }

  /** What `map_response_error` makes of the body and the seed. */
  function BodyError(context: ResponseError): Error {
    var message := context.text;
    if context.body.Empty? then
      if context.seed.Some? then KindError(context.seed.value) else Message(message)
    else if context.seed.Some? then Classified(context.seed.value, Message(message))
    else if context.body.plainText then Message(message)
    else
      match context.body.exception
      case Some(exception) =>
        (match ExceptionKind(exception)
         case Some(kind) => Classified(kind, Message(message))
         case None => Message(message))
      case None => Message(message)
  }

  /** `map_response_error` */
  function MapResponseError(context: ResponseError): Error {
    var inner := BodyError(context);
    var wrapped :=
      match StatusKind(context.status)
      case Some(kind) => Classified(kind, inner)
      case None => inner;
    Http(context.status, context.text, Some(wrapped))
  }

  /** The kind the body contributes: the seed, or a recognised exception. */
  function BodyKind(context: ResponseError): Option<Kind> {
    if context.seed.Some? then context.seed
    else if context.body.Content? && !context.body.plainText && context.body.exception.Some? then
      ExceptionKind(context.body.exception.value)
    else None
  }

  lemma BodyErrorKinds(context: ResponseError, k: Kind)
    ensures BodyError(context).HasKind(k) <==> BodyKind(context) == Some(k)
  {
    var e := BodyError(context);
    if e.Classified? {
      assert !e.inner.HasKind(k);
    }
  }

  lemma WrappedKinds(context: ResponseError, k: Kind)
    ensures MapResponseError(context).HasKind(k)
            <==> BodyKind(context) == Some(k) || StatusKind(context.status) == Some(k)
    ensures MapResponseError(context).Status() == Some(context.status)
  {
    BodyErrorKinds(context, k);
    var inner, e := BodyError(context), MapResponseError(context);
    match StatusKind(context.status) {
      case Some(kind) =>
        assert e.source.value == Classified(kind, inner);
        assert e.source.value.HasKind(k) <==> kind == k || inner.HasKind(k);
      case None =>
        assert e.source.value == inner;
    }
  }

  /** The kinds of a mapped error are exactly the kind of the status, and the seed
      or, without one, that of the first exception the JSON body names. */
  lemma MappedKinds(context: ResponseError, k: Kind)
    ensures
      var (seed, body, status) := (context.seed, context.body, context.status);
      var named := seed.None? && body.Content? && !body.plainText && body.exception.Some?;
      MapResponseError(context).HasKind(k)
      <==> || seed == Some(k)
           || (named && var e := body.exception.value;
               || (k == RunnerExists && e.agentExists)
               || (k == RunnerNotFound && e.agentNotFound && !e.agentExists)
               || (k == JobStillRunning && e.jobStillRunning && !e.agentNotFound && !e.agentExists))
           || (k == BadRequest && status == 400) || (k == Unauthorized && status == 401)
           || (k == NotFound && status == 404) || (k == Conflict && status == 409)
    ensures MapResponseError(context).Status() == Some(context.status)
  {
    WrappedKinds(context, k);
  }

  /** One layer around an error. */
  datatype Layer = InContextOf(message: string) | OfKind(kind: Kind) | OfStatus(code: int)

  function Wrap(e: Error, layer: Layer): Error {
    match layer
    case InContextOf(message) => e.WithContext(message)
    case OfKind(kind) => Classified(kind, e)
    case OfStatus(code) => Http(code, "", Some(e))
  }

  /** The layers around an error, the innermost first. */
  function Wrapped(e: Error, layers: seq<Layer>): Error {
    if layers == [] then e else Wrap(Wrapped(e, layers[..|layers| - 1]), layers[|layers| - 1])
  }

  /** However deep an error is wrapped, its kinds are its own and those of the layers. */
  lemma {:induction false} TreeKinds(e: Error, layers: seq<Layer>, k: Kind)
    ensures Wrapped(e, layers).HasKind(k) <==> e.HasKind(k) || OfKind(k) in layers
  {
    if layers != [] {
      var before, layer := layers[..|layers| - 1], layers[|layers| - 1];
      TreeKinds(e, before, k);
      assert layers == before + [layer];
      assert Wrapped(e, layers) == Wrap(Wrapped(e, before), layer);
    }
  }

  /** The status is that of the outermost layer with one, or that of the error itself. */
  lemma {:induction false} TreeStatus(e: Error, layers: seq<Layer>, n: nat)
    requires n <= |layers| && (n > 0 ==> layers[n - 1].OfStatus?)
    requires forall j :: n <= j < |layers| ==> !layers[j].OfStatus?
    ensures Wrapped(e, layers).Status() == if n > 0 then Some(layers[n - 1].code) else e.Status()
  {
    if |layers| > n {
      TreeStatus(e, layers[..|layers| - 1], n);
    }
  }

  /** Context added any number of times. */
  function InContext(e: Error, messages: seq<string>): Error {
    if messages == [] then e
    else InContext(e, messages[..|messages| - 1]).WithContext(messages[|messages| - 1])
  }

  lemma {:induction false} ContextPreserves(e: Error, messages: seq<string>, k: Kind)
    ensures InContext(e, messages).HasKind(k) == e.HasKind(k)
    ensures InContext(e, messages).Status() == e.Status()
  {
    if messages != [] {
      ContextPreserves(e, messages[..|messages| - 1], k);
    }
  }

  // ----- Queue calls -----

  datatype QueueCall = GetMessage | DeleteMessage | AcquireJobs

  /** Why the body of an accepted response cannot be used: the HTTP library
      cannot read it as JSON, or the batch in it is rejected. */
  datatype ReadFailure = Unreadable | BatchRejected | TypeUnsupported

  /** Where one attempt of a queue call ends. `AdminFailed` is a failure of
      `actions_url`, before the queue request is sent. */
  datatype Attempt =
    | QueueUrlInvalid
    | AdminFailed(why: AdminFailure)
    | NotSent
    | Answered(status: int, read: Option<ReadFailure>, body: Body, text: string)

  /** The ways to fail to get an admin token (`src/client.rs`). */
  datatype AdminFailure =
    | AdminNotSent
    | AdminRefused(status: int, body: Body, text: string)
    | AdminBodyUnreadable
    | AdminFieldMissing
    | AppKeyRejected
    | ExpiryUnreadable

  function AdminError(why: AdminFailure): Error {
    match why
    case AdminNotSent => Request
    case AdminRefused(status, body, text) => MapResponseError(ResponseError(status, body, None, text))
    case AdminBodyUnreadable => Request
    case AdminFieldMissing => Message("missing")
    case AppKeyRejected => Jwt
    case ExpiryUnreadable => JwtMissingExp
  }

  predicate Accepts(call: QueueCall, status: int) {
    match call
    case GetMessage => status == 200 || status == 202
    case DeleteMessage => status == 204
    case AcquireJobs => status == 200
  }

  /** 200 is answered with a body that has to be read. */
  predicate ReadsBody(call: QueueCall, status: int) {
    status == 200 && !call.DeleteMessage?
  }

  function ReadError(failure: ReadFailure): Error {
    match failure
    case Unreadable => Request
    case BatchRejected => Json
    case TypeUnsupported => Message("unsupported message type")
  }

  /** `get_message_once`, `delete_message_once` and `acquire_jobs_once` */
  function AttemptOnce(call: QueueCall, a: Attempt): Option<Error> {
    match a
    case QueueUrlInvalid => Some(Url)
    case AdminFailed(why) => Some(AdminError(why))
    case NotSent => Some(Request)
    case Answered(status, read, body, text) =>
      if Accepts(call, status) then
        if ReadsBody(call, status) && read.Some? then Some(ReadError(read.value)) else None
      else if status == 401 then
        Some(MapResponseError(ResponseError(status, body, Some(MessageQueueTokenExpired), text)))
      else Some(MapResponseError(ResponseError(status, body, None, text)))
  }

  /** Which answers complete a queue call: 204 to a DELETE; 200 with a readable
      body to the other two; and 202, which carries no message, to a poll. Any
      other answer is an error that carries its status, unless the status was
      right and only the body could not be used. */
  lemma CompletesIff(call: QueueCall, a: Attempt)
    ensures AttemptOnce(call, a).None? <==>
            a.Answered? &&
            match call
            case GetMessage => a.status == 202 || (a.status == 200 && a.read.None?)
            case DeleteMessage => a.status == 204
            case AcquireJobs => a.status == 200 && a.read.None?
    ensures AttemptOnce(call, a).Some? && a.Answered? ==>
              AttemptOnce(call, a).value.Status()
              == if a.status == 200 && (call.GetMessage? || call.AcquireJobs?) then None else Some(a.status)
  {
  }

  /** What a caller can tell from a failed attempt. An answer with the wrong status
      has the kind of its status, that of a named exception, and on 401 that of an
      expired token, which replaces the exception; so has a refusal of an admin
      endpoint, except for the expired token. Any other failure has no kind and
      no status. */
  lemma FailureKinds(call: QueueCall, a: Attempt, k: Kind)
    requires AttemptOnce(call, a).Some?
    ensures
      var e := AttemptOnce(call, a).value;
      if a.Answered? then
        var right := a.status == 200 && !call.DeleteMessage?;
        e.HasKind(k) <==> !right && (OfStatusKind(a.status, k)
                                     || (a.status == 401 && k == MessageQueueTokenExpired)
                                     || (a.status != 401 && OfException(a.body, k)))
      else if a.AdminFailed? && a.why.AdminRefused? then
        && e.Status() == Some(a.why.status)
        && (e.HasKind(k) <==> OfStatusKind(a.why.status, k) || OfException(a.why.body, k))
      else e.Status() == None && !e.HasKind(k)
  {
    match a
    case Answered(status, read, body, text) =>
      MappedKinds(ResponseError(status, body, Some(MessageQueueTokenExpired), text), k);
      MappedKinds(ResponseError(status, body, None, text), k);
    case AdminFailed(AdminRefused(status, body, text)) =>
      MappedKinds(ResponseError(status, body, None, text), k);
    case _ =>
  }

  predicate OfStatusKind(status: int, k: Kind) {
    || (k == BadRequest && status == 400) || (k == Unauthorized && status == 401)
    || (k == NotFound && status == 404) || (k == Conflict && status == 409)
  }

  predicate OfException(body: Body, k: Kind) {
    body.Content? && !body.plainText && body.exception.Some? &&
    var e := body.exception.value;
    || (k == RunnerExists && e.agentExists)
    || (k == RunnerNotFound && e.agentNotFound && !e.agentExists)
    || (k == JobStillRunning && e.jobStillRunning && !e.agentNotFound && !e.agentExists)
  }

  predicate CausesRefresh(call: QueueCall, a: Attempt) {
    var r := AttemptOnce(call, a);
    r.Some? && r.value.IsMessageQueueTokenExpired()
  }

  /** A refresh happens exactly when the queue request itself was answered 401. */
  lemma RefreshIffUnauthorized(call: QueueCall, a: Attempt)
    ensures CausesRefresh(call, a) <==> a.Answered? && a.status == 401
  {
    match a
    case Answered(status, _, body, text) =>
      MappedKinds(ResponseError(status, body, Some(MessageQueueTokenExpired), text), MessageQueueTokenExpired);
      MappedKinds(ResponseError(status, body, None, text), MessageQueueTokenExpired);
    case AdminFailed(AdminRefused(status, body, text)) =>
      MappedKinds(ResponseError(status, body, None, text), MessageQueueTokenExpired);
    case _ =>
  }

  /** A 401 from an admin endpoint is recognisable as unauthorized, but no amount
      of context makes it look like an expired queue token. */
  lemma AdminUnauthorizedIsNotExpiry(body: Body, text: string, messages: seq<string>)
    ensures
      var e := InContext(AdminError(AdminRefused(401, body, text)), messages);
      e.HasKind(Unauthorized) && !e.IsMessageQueueTokenExpired() && e.Status() == Some(401)
  {
    var e := AdminError(AdminRefused(401, body, text));
    MappedKinds(ResponseError(401, body, None, text), Unauthorized);
    MappedKinds(ResponseError(401, body, None, text), MessageQueueTokenExpired);
    ContextPreserves(e, messages, Unauthorized);
    ContextPreserves(e, messages, MessageQueueTokenExpired);
  }
}
