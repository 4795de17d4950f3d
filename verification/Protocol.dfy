/** The message loop of `src/listener.rs` as a step relation on observable events.

    An event is one call the loop makes, with the answer it got. `Lost` stands for
    an answer that never arrived: the process died, or the future was dropped. */
module Protocol {
  import opened Wrappers
  import opened Messages

  datatype Answer = Ok | Err | Lost

  /** How a poll ended. `Dropped` is a poll that lost the race with the stop channel. */
  datatype PollOutcome = NoMessage | Got(message: Message) | PollFailed | PollLost | Dropped

  datatype Event =
    | Stored(statistics: Statistic)
    | Desired(count: int, answer: Answer)
    | Polled(cursor: int, capacity: int, outcome: PollOutcome)
    | Acquired(ids: seq<int>, answer: Answer)
    | Started(job: Job, answer: Answer)
    | Completed(job: Job, answer: Answer)
    | Deleted(messageId: int, answer: Answer)
    | StopSeen

  datatype RunError =
    | NilSession
    | NilSessionStatistics
    | InitialDesiredError
    | GetMessageError
    | IdleDesiredError
    | NilMessageStatistics
    | AcquireError
    | StartedError
    | CompletedError
    | MessageDesiredError
    | DeleteError

  /** Where the loop is. `cursor` is `last_message_id`; while a message is being
      handled it is still the id acknowledged before it. */
  datatype Control =
    | Booting(statistics: Statistic)
    | InitialScaling(statistics: Statistic)
    | Polling(cursor: int)
    | IdleScaling(cursor: int)
    | Storing(cursor: int, message: Message)
    | Acquiring(cursor: int, message: Message)
    | Starting(cursor: int, message: Message, next: nat)
    | Completing(cursor: int, message: Message, next: nat)
    | Scaling(cursor: int, message: Message)
    | Acking(cursor: int, message: Message)
    | Stopped
    | Failed(error: RunError)
    | Interrupted

  /** `latest` is `latest_statistics`. */
  datatype State = State(control: Control, latest: Option<Statistic>)

  /** When a message is deleted: after its processing, as this crate does, or
      before it, as the upstream Go listener does. */
  datatype Order = AckLast | AckFirst

  // ----- The order of the calls -----

  function ToAcquire(cursor: int, m: Message): Control {
    if m.availableJobs != [] then Acquiring(cursor, m) else ToStart(cursor, m, 0)
  }

  function ToStart(cursor: int, m: Message, next: nat): Control {
    if next < |m.startedJobs| then Starting(cursor, m, next) else ToComplete(cursor, m, 0)
  }

  function ToComplete(cursor: int, m: Message, next: nat): Control {
    if next < |m.completedJobs| then Completing(cursor, m, next) else Scaling(cursor, m)
  }

  /** A message without statistics is rejected before anything is called. */
  function ToHandle(cursor: int, m: Message): Control {
    if m.statistics.None? then Failed(NilMessageStatistics) else Storing(cursor, m)
  }

  function AfterStored(order: Order, cursor: int, m: Message): Control {
    if order.AckFirst? then Acking(cursor, m) else ToAcquire(cursor, m)
  }

  function AfterScaled(order: Order, cursor: int, m: Message): Control {
    if order.AckFirst? then Polling(m.messageId) else Acking(cursor, m)
  }

  function AfterAcked(order: Order, cursor: int, m: Message): Control {
    if order.AckFirst? then ToAcquire(cursor, m) else Polling(m.messageId)
  }

  /** The `runner_request_id` of every available job. */
  function RequestIds(jobs: seq<Job>): seq<int> {
    seq(|jobs|, i requires 0 <= i < |jobs| => jobs[i].runnerRequestId)
  }

  /** The ids asked for are those of the jobs, one for each, in their order. */
  lemma RequestIdsAre(jobs: seq<Job>, k: nat)
    requires k < |jobs|
    ensures |RequestIds(jobs)| == |jobs| && RequestIds(jobs)[k] == jobs[k].runnerRequestId
  {
  }

  /** `?` after a call: go on, or leave the loop. */
  function After(answer: Answer, next: Control, error: RunError): Control {
    match answer
    case Ok => next
    case Err => Failed(error)
    case Lost => Interrupted
  }

  function AfterPoll(cursor: int, outcome: PollOutcome): Control {
    match outcome
    case NoMessage => IdleScaling(cursor)
    case Got(m) => ToHandle(cursor, m)
    case PollFailed => Failed(GetMessageError)
    case PollLost => Interrupted
    case Dropped => Polling(cursor)
  }

  /** One step: the event the loop may produce in this state, and the next state. */
  function Advance(order: Order, s: State, e: Event): Option<State> {
    match s.control
    case Booting(stats) =>
      if e == Stored(stats) then Some(State(InitialScaling(stats), Some(stats))) else None
    case InitialScaling(stats) =>
      if e.Desired? && e.count == stats.totalAssignedJobs then
        Some(s.(control := After(e.answer, Polling(0), InitialDesiredError)))
      else None
    case Polling(cursor) =>
      if e.StopSeen? then Some(s.(control := Stopped))
      else if e.Polled? && e.cursor == cursor && 0 <= e.capacity then
        Some(s.(control := AfterPoll(cursor, e.outcome)))
      else None
    case IdleScaling(cursor) =>
      if e.Desired? && s.latest.Some? && e.count == s.latest.value.totalAssignedJobs then
        Some(s.(control := After(e.answer, Polling(cursor), IdleDesiredError)))
      else None
    case Storing(cursor, m) =>
      if e.Stored? && m.statistics == Some(e.statistics) then
        Some(State(AfterStored(order, cursor, m), Some(e.statistics)))
      else None
    case Acquiring(cursor, m) =>
      if e.Acquired? && e.ids == RequestIds(m.availableJobs) then
        Some(s.(control := After(e.answer, ToStart(cursor, m, 0), AcquireError)))
      else None
    case Starting(cursor, m, i) =>
      if e.Started? && i < |m.startedJobs| && e.job == m.startedJobs[i] then
        Some(s.(control := After(e.answer, ToStart(cursor, m, i + 1), StartedError)))
      else None
    case Completing(cursor, m, i) =>
      if e.Completed? && i < |m.completedJobs| && e.job == m.completedJobs[i] then
        Some(s.(control := After(e.answer, ToComplete(cursor, m, i + 1), CompletedError)))
      else None
    case Scaling(cursor, m) =>
      if e.Desired? && m.statistics.Some? && e.count == m.statistics.value.totalAssignedJobs then
        Some(s.(control := After(e.answer, AfterScaled(order, cursor, m), MessageDesiredError)))
      else None
    case Acking(cursor, m) =>
      if e.Deleted? && e.messageId == m.messageId then
        Some(s.(control := After(e.answer, AfterAcked(order, cursor, m), DeleteError)))
      else None
    case _ => None
  }

  /** The state after a whole trace; `None` when some event was out of order. */
  function Replay(order: Order, start: State, trace: seq<Event>): Option<State> {
    if trace == [] then Some(start)
    else
      match Replay(order, start, trace[..|trace| - 1])
      case None => None
      case Some(s) => Advance(order, s, trace[|trace| - 1])
  }

  /** What a session promises a new run: its id, and its statistics. */
  datatype Initial = Initial(nilId: bool, statistics: Option<Statistic>)

  /** The checks before the loop. */
  function Begin(initial: Initial, latest: Option<Statistic>): State {
    if initial.nilId then State(Failed(NilSession), latest)
    else if initial.statistics.None? then State(Failed(NilSessionStatistics), latest)
    else State(Booting(initial.statistics.value), latest)
  }

  lemma ReplaySnoc(order: Order, start: State, trace: seq<Event>, e: Event)
    requires Replay(order, start, trace).Some?
    ensures Replay(order, start, trace + [e]) == Advance(order, Replay(order, start, trace).value, e)
  {
    assert (trace + [e])[..|trace|] == trace;
  }

  /** A prefix of an accepted trace is accepted. */
  lemma {:induction false} ReplayPrefix(order: Order, start: State, trace: seq<Event>, n: nat)
    requires Replay(order, start, trace).Some? && n <= |trace|
    ensures Replay(order, start, trace[..n]).Some?
  {
    if n < |trace| {
      ReplayPrefix(order, start, trace[..|trace| - 1], n);
      assert trace[..|trace| - 1][..n] == trace[..n];
    } else {
      assert trace[..n] == trace;
    }
  }
}
