/** `Listener` of `src/listener.rs`: the loop itself, statement by statement,
    against an environment that decides every answer. */
module ListenerLoop {
  import opened Wrappers
  import opened Messages
  import opened Protocol
  import opened RunTraces

  /** What `rx.changed()` reported when it won the race with a poll. */
  datatype Changed = StopSet | Spurious | SenderDropped

  /** The environment of one run, by the number of events so far: the value of
      the stop flag, the change of the stop channel that drops a poll, the result
      of a poll, the answer to any other call, and a concurrent
      `set_max_runners`. An answer may be `Lost`, so a run may be cut anywhere. */
  datatype Env = Env(
    stopFlag: nat -> bool,
    changed: nat -> Option<Changed>,
    poll: nat -> PollOutcome,
    answer: nat -> Answer,
    setMax: nat -> Option<int>)

  /** Why a call returned: normally, with an error, never, or it still polls. */
  datatype Outcome = Returned | Erred(error: RunError) | Hung | Running

  function ControlOf(o: Outcome, next: Control): Control {
    match o
    case Returned => next
    case Erred(error) => Failed(error)
    case Hung => Interrupted
    case Running => next
  }

  /** `max_runners` after the first `n` events. */
  function CapacityAt(env: Env, initial: int, n: nat): int {
    var before := if n == 0 then initial else CapacityAt(env, initial, n - 1);
    match env.setMax(n)
    case Some(count) => if count < 0 then before else count
    case None => before
  }

  /** The poll recorded as event `i` was dropped because the run was told to stop. */
  ghost predicate ToldToStop(env: Env, trace: seq<Event>, i: nat)
    requires i < |trace|
  {
    trace[i].Polled? && trace[i].outcome.Dropped? && env.changed(i) != Some(Spurious)
  }

  /** Event `i` of the trace is the one this environment causes. */
  ghost predicate Caused(env: Env, hasStop: bool, capacity: int, trace: seq<Event>, i: nat)
    requires i < |trace|
  {
    match trace[i]
    case Stored(_) => true
    case StopSeen => hasStop && (env.stopFlag(i) || (i > 0 && ToldToStop(env, trace, i - 1)))
    case Polled(_, cap, outcome) =>
      && !(hasStop && env.stopFlag(i)) && !(i > 0 && ToldToStop(env, trace, i - 1))
      && cap == CapacityAt(env, capacity, i)
      && outcome == (if hasStop && env.changed(i).Some? then Dropped
                     else if env.poll(i).Dropped? then PollLost else env.poll(i))
    case _ => trace[i].answer == env.answer(i)
  }

  /** `after` adds one successful acquire of the ids of all `jobs`, in order, if
      there are any. */
  ghost predicate AcquiresAll(before: seq<Event>, after: seq<Event>, jobs: seq<Job>) {
    if jobs == [] then after == before
    else
      && |after| == |before| + 1 && before <= after
      && var e := after[|before|];
         e.Acquired? && e.answer == Ok && |e.ids| == |jobs|
         && forall k :: 0 <= k < |jobs| ==> e.ids[k] == jobs[k].runnerRequestId
  }

  /** `after` adds one successful report for each of the started `jobs`, in order. */
  ghost predicate StartsAll(before: seq<Event>, after: seq<Event>, jobs: seq<Job>) {
    && |after| == |before| + |jobs| && before <= after
    && forall k :: 0 <= k < |jobs| ==> after[|before| + k] == Started(jobs[k], Ok)
  }

  /** `after` adds one successful report for each of the completed `jobs`, in order. */
  ghost predicate CompletesAll(before: seq<Event>, after: seq<Event>, jobs: seq<Job>) {
    && |after| == |before| + |jobs| && before <= after
    && forall k :: 0 <= k < |jobs| ==> after[|before| + k] == Completed(jobs[k], Ok)
  }

  lemma StartsOneMore(before: seq<Event>, after: seq<Event>, jobs: seq<Job>, i: nat)
    requires i < |jobs| && StartsAll(before, after, jobs[..i])
    ensures StartsAll(before, after + [Started(jobs[i], Ok)], jobs[..i + 1])
  {
  }

  lemma CompletesOneMore(before: seq<Event>, after: seq<Event>, jobs: seq<Job>, i: nat)
    requires i < |jobs| && CompletesAll(before, after, jobs[..i])
    ensures CompletesAll(before, after + [Completed(jobs[i], Ok)], jobs[..i + 1])
  {
  }

  /** `after` adds the successful calls that `process` makes for `msg`. */
  ghost predicate Processes(before: seq<Event>, after: seq<Event>, msg: Message)
    requires msg.statistics.Some?
  {
    exists acquired, started, completed ::
      && AcquiresAll(before, acquired, msg.availableJobs)
      && StartsAll(acquired, started, msg.startedJobs)
      && CompletesAll(started, completed, msg.completedJobs)
      && after == completed + [Desired(msg.statistics.value.totalAssignedJobs, Ok)]
  }

  class Listener {
    var maxRunners: int
    var latestStatistics: Option<Statistic>
    var calls: nat
    ghost var cause: Env
    ghost var hasStop: bool
    ghost var capacity: int
    ghost var start: State
    ghost var state: State
    ghost var trace: seq<Event>

    /** The trace so far is accepted by the protocol and caused by the environment. */
    ghost predicate Valid()
      reads this
    {
      && 0 <= maxRunners && calls == |trace|
      && Replay(AckLast, start, trace) == Some(state)
      && latestStatistics == state.latest
      && maxRunners == CapacityAt(cause, capacity, calls)
      && forall i :: 0 <= i < |trace| ==> Caused(cause, hasStop, capacity, trace, i)
    }

    /** `ListenerConfig::validate` and `Listener::new` */
    static method New(scaleSetId: int, maxRunners: int) returns (r: Result<Listener, string>)
      ensures r.Success? <==> scaleSetId != 0 && 0 <= maxRunners
      ensures r.Success? ==>
                fresh(r.value) && r.value.maxRunners == maxRunners && r.value.latestStatistics == None
    {
      if scaleSetId == 0 {
        return Failure("scaleSetID is required");
      }
      if maxRunners < 0 {
        return Failure("maxRunners must be >= 0");
      }
      var l := new Listener(maxRunners);
      return Success(l);
    }

    constructor (maxRunners: int)
      ensures this.maxRunners == maxRunners && latestStatistics == None
    {
      this.maxRunners := maxRunners;
      latestStatistics := None;
      calls := 0;
      cause := *;
      start := State(Stopped, None);
      state := State(Stopped, None);
      trace := [];
    }

    method SetMaxRunners(count: int) returns (ok: bool)
      modifies this`maxRunners
      ensures ok == (0 <= count)
      ensures maxRunners == if 0 <= count then count else old(maxRunners)
    {
      if count < 0 {
        return false;
      }
      maxRunners := count;
      return true;
    }

    /** The environment and the start of the run are the same, and the trace only grew. */
    twostate predicate Continues()
      reads this
    {
      && cause == old(cause) && hasStop == old(hasStop) && capacity == old(capacity) && start == old(start)
      && old(trace) <= trace
    }

    /** Records one event. Between two events others may call `set_max_runners`. */
    method Record(env: Env, ghost e: Event)
      requires Valid() && env == cause && Advance(AckLast, state, e).Some?
      requires Caused(cause, hasStop, capacity, trace + [e], |trace|)
      modifies this
      ensures Continues() && trace == old(trace) + [e]
      ensures Some(state) == Advance(AckLast, old(state), e)
      ensures latestStatistics == old(latestStatistics)
      ensures !e.Stored? ==> Valid()
      ensures calls == |trace| && 0 <= maxRunners && maxRunners == CapacityAt(cause, capacity, calls)
      ensures Replay(AckLast, start, trace) == Some(state)
      ensures forall i :: 0 <= i < |trace| ==> Caused(cause, hasStop, capacity, trace, i)
    {
      ReplaySnoc(AckLast, start, trace, e);
      CausedSnoc(cause, hasStop, capacity, trace, e);
      state := Advance(AckLast, state, e).value;
      trace := trace + [e];
      calls := calls + 1;
      match env.setMax(calls) {
        case Some(count) => var _ := SetMaxRunners(count);
        case None =>
      }
    }

    method StoreStatistics(env: Env, stats: Statistic)
      requires Valid() && env == cause && Advance(AckLast, state, Stored(stats)).Some?
      modifies this
      ensures Valid() && Continues() && latestStatistics == Some(stats)
      ensures trace == old(trace) + [Stored(stats)]
      ensures Some(state) == Advance(AckLast, old(state), Stored(stats))
    {
      Record(env, Stored(stats));
      latestStatistics := Some(stats);
    }

    /** One call to the session or to the scaler. */
    method Call(env: Env, ghost e: Event) returns (answer: Answer)
      requires Valid() && env == cause && Advance(AckLast, state, e).Some?
      requires e.Desired? || e.Acquired? || e.Started? || e.Completed? || e.Deleted?
      requires e.answer == env.answer(calls)
      modifies this
      ensures Valid() && Continues() && answer == e.answer && trace == old(trace) + [e]
      ensures Some(state) == Advance(AckLast, old(state), e) && latestStatistics == old(latestStatistics)
    {
      answer := env.answer(calls);
      Record(env, e);
    }

    method AcquireJobs(env: Env, ghost cursor: int, msg: Message) returns (o: Outcome)
      requires Valid() && env == cause && state.control == ToAcquire(cursor, msg)
      modifies this
      ensures Valid() && Continues() && o != Running
      ensures state.control == ControlOf(o, ToStart(cursor, msg, 0)) && latestStatistics == old(latestStatistics)
      ensures o == Returned <==> AcquiresAll(old(trace), trace, msg.availableJobs)
    {
      if msg.availableJobs != [] {
        var ids := RequestIds(msg.availableJobs);
        var answer := Call(env, Acquired(ids, env.answer(calls)));
        if answer != Ok {
          return if answer == Err then Erred(AcquireError) else Hung;
        }
      }
      return Returned;
    }

    method ReportStarted(env: Env, ghost cursor: int, msg: Message) returns (o: Outcome)
      requires Valid() && env == cause && state.control == ToStart(cursor, msg, 0)
      modifies this
      ensures Valid() && Continues() && o != Running
      ensures state.control == ControlOf(o, ToComplete(cursor, msg, 0)) && latestStatistics == old(latestStatistics)
      ensures o == Returned ==> StartsAll(old(trace), trace, msg.startedJobs)
    {
      for i := 0 to |msg.startedJobs|
        invariant StartsAll(old(trace), trace, msg.startedJobs[..i])
        invariant Valid() && Continues() && state.control == ToStart(cursor, msg, i)
        invariant latestStatistics == old(latestStatistics)
      {
        ghost var before := trace;
        var answer := Call(env, Started(msg.startedJobs[i], env.answer(calls)));
        if answer != Ok {
          return if answer == Err then Erred(StartedError) else Hung;
        }
        StartsOneMore(old(trace), before, msg.startedJobs, i);
      }
      assert msg.startedJobs[..|msg.startedJobs|] == msg.startedJobs;
      return Returned;
    }

    method ReportCompleted(env: Env, ghost cursor: int, msg: Message) returns (o: Outcome)
      requires Valid() && env == cause && state.control == ToComplete(cursor, msg, 0)
      modifies this
      ensures Valid() && Continues() && o != Running
      ensures state.control == ControlOf(o, Scaling(cursor, msg)) && latestStatistics == old(latestStatistics)
      ensures o == Returned ==> CompletesAll(old(trace), trace, msg.completedJobs)
    {
      for i := 0 to |msg.completedJobs|
        invariant CompletesAll(old(trace), trace, msg.completedJobs[..i])
        invariant Valid() && Continues() && state.control == ToComplete(cursor, msg, i)
        invariant latestStatistics == old(latestStatistics)
      {
        ghost var before := trace;
        var answer := Call(env, Completed(msg.completedJobs[i], env.answer(calls)));
        if answer != Ok {
          return if answer == Err then Erred(CompletedError) else Hung;
        }
        CompletesOneMore(old(trace), before, msg.completedJobs, i);
      }
      assert msg.completedJobs[..|msg.completedJobs|] == msg.completedJobs;
      return Returned;
    }

    /** `process`: the calls a message asks for, up to its deletion. On a normal
        return these are one acquire of all available ids, in order, if there are
        any; every started job; every completed job; and the desired count. */
    method Process(env: Env, ghost cursor: int, msg: Message) returns (o: Outcome)
      requires Valid() && env == cause
      requires state.control == if msg.statistics.None? then Failed(NilMessageStatistics) else ToAcquire(cursor, msg)
      modifies this
      ensures Valid() && Continues() && o != Running
      ensures state.control == ControlOf(o, Acking(cursor, msg)) && latestStatistics == old(latestStatistics)
      ensures msg.statistics.None? ==>
                o == Erred(NilMessageStatistics) && trace == old(trace)
      ensures o == Returned ==> msg.statistics.Some? && Processes(old(trace), trace, msg)
    {
      if msg.statistics.None? {
        return Erred(NilMessageStatistics);
      }
      var count := msg.statistics.value.totalAssignedJobs;
      o := AcquireJobs(env, cursor, msg);
      if o != Returned {
        return;
      }
      o := ReportStarted(env, cursor, msg);
      if o != Returned {
        return;
      }
      o := ReportCompleted(env, cursor, msg);
      if o != Returned {
        return;
      }
      var answer := Call(env, Desired(count, env.answer(calls)));
      if answer != Ok {
        return if answer == Err then Erred(MessageDesiredError) else Hung;
      }
    }

    /** `handle_message`: store, process, and only then delete. */
    method HandleMessage(env: Env, ghost cursor: int, msg: Message) returns (o: Outcome)
      requires Valid() && env == cause && state.control == ToHandle(cursor, msg)
      modifies this
      ensures Valid() && Continues() && o != Running
      ensures state.control == ControlOf(o, Polling(msg.messageId))
      ensures o == Returned ==>
                && msg.statistics.Some? && latestStatistics == msg.statistics
                && trace != [] && trace[|trace| - 1] == Deleted(msg.messageId, Ok)
                && Processes(old(trace) + [Stored(msg.statistics.value)], trace[..|trace| - 1], msg)
      ensures msg.statistics.None? ==>
                && o == Erred(NilMessageStatistics)
                && trace == old(trace) && latestStatistics == old(latestStatistics)
    {
      if msg.statistics.Some? {
        StoreStatistics(env, msg.statistics.value);
      }
      o := Process(env, cursor, msg);
      if o != Returned {
        return;
      }
      var answer := Call(env, Deleted(msg.messageId, env.answer(calls)));
      if answer != Ok {
        return if answer == Err then Erred(DeleteError) else Hung;
      }
    }

    /** The statements before the loop. */
    method Boot(env: Env, initial: Initial) returns (o: Outcome)
      requires Valid() && env == cause && trace == [] && state == Begin(initial, latestStatistics)
      modifies this
      ensures Valid() && Continues() && o != Running
      ensures state.control == ControlOf(o, Polling(0))
      ensures o == Returned ==> latestStatistics.Some? && trace != [] && !trace[|trace| - 1].Polled?
      ensures o == Returned ==>
                && !initial.nilId && initial.statistics.Some? && latestStatistics == initial.statistics
                && trace == [Stored(initial.statistics.value), Desired(initial.statistics.value.totalAssignedJobs, Ok)]
    {
      if initial.nilId {
        return Erred(NilSession);
      }
      if initial.statistics.None? {
        return Erred(NilSessionStatistics);
      }
      var stats := initial.statistics.value;
      StoreStatistics(env, stats);
      var answer := Call(env, Desired(stats.totalAssignedJobs, env.answer(calls)));
      if answer != Ok {
        return if answer == Err then Erred(InitialDesiredError) else Hung;
      }
      return Returned;
    }

    /** The loop may poll again. */
    ghost predicate Ready(cursor: int)
      reads this
    {
      && Valid() && state.control == Polling(cursor) && latestStatistics.Some?
      && trace != [] && !ToldToStop(cause, trace, |trace| - 1)
    }

    /** One poll that wins its race, and what follows. */
    method Poll(env: Env, lastMessageId: int) returns (o: Outcome, nextMessageId: int)
      requires Ready(lastMessageId) && env == cause
      requires !(hasStop && (env.stopFlag(calls) || env.changed(calls).Some?))
      modifies this
      ensures Valid() && Continues() && |old(trace)| < |trace|
      ensures o == Running ==> Ready(nextMessageId)
      ensures
        var result := env.poll(old(calls));
        && trace[|old(trace)|] == Polled(lastMessageId, old(maxRunners), if result.Dropped? then PollLost else result)
        && (o == Running ==>
              match result
              case NoMessage =>
                && nextMessageId == lastMessageId && old(latestStatistics).Some?
                && trace[|old(trace)| + 1..] == [Desired(old(latestStatistics).value.totalAssignedJobs, Ok)]
              case Got(msg) => nextMessageId == msg.messageId && trace[|trace| - 1] == Deleted(msg.messageId, Ok)
              case _ => false)
      ensures match o
              case Running => true
              case Returned => false
              case Erred(error) => state.control == Failed(error)
              case Hung => state.control == Interrupted
    {
      nextMessageId := lastMessageId;
      var outcome := env.poll(calls);
      Record(env, Polled(lastMessageId, maxRunners, if outcome.Dropped? then PollLost else outcome));
      match outcome {
        case PollFailed => return Erred(GetMessageError), lastMessageId;
        case PollLost => return Hung, lastMessageId;
        case Dropped => return Hung, lastMessageId;
        case NoMessage =>
          var count := latestStatistics.value.totalAssignedJobs;
          var answer := Call(env, Desired(count, env.answer(calls)));
          if answer != Ok {
            return if answer == Err then Erred(IdleDesiredError) else Hung, lastMessageId;
          }
        case Got(msg) =>
          o := HandleMessage(env, lastMessageId, msg);
          if o != Returned {
            return;
          }
          nextMessageId := msg.messageId;
      }
      o := Running;
    }

    /** The stop flag, and the race of `rx.changed()` with the poll. `Running`
        means that the poll goes ahead; a spurious change drops the poll. */
    method WatchStop(env: Env, lastMessageId: int) returns (o: Outcome, dropped: bool)
      requires Ready(lastMessageId) && env == cause && hasStop
      modifies this
      ensures Valid() && Continues()
      ensures o == Running || (o == Returned && state.control == Stopped)
      ensures o == Returned <==>
              env.stopFlag(old(calls)) || env.changed(old(calls)) in {Some(StopSet), Some(SenderDropped)}
      ensures o == Running ==> (dropped <==> env.changed(old(calls)) == Some(Spurious))
      ensures o == Running ==> Ready(lastMessageId)
      ensures o == Running && dropped ==> trace == old(trace) + [Polled(lastMessageId, old(maxRunners), Dropped)]
      ensures o == Running && !dropped ==> trace == old(trace) && !(env.stopFlag(calls) || env.changed(calls).Some?)
    {
      if env.stopFlag(calls) {
        Record(env, StopSeen);
        return Returned, false;
      }
      if env.changed(calls).None? {
        return Running, false;
      }
      var changed := env.changed(calls).value;
      Record(env, Polled(lastMessageId, maxRunners, Dropped));
      if changed == Spurious {
        return Running, true;
      }
      Record(env, StopSeen);
      return Returned, true;
    }

    method Setup(env: Env, initial: Initial, stop: bool)
      requires 0 <= maxRunners
      modifies this
      ensures Valid() && cause == env && hasStop == stop && start == state == Begin(initial, old(latestStatistics))
      ensures trace == [] && latestStatistics == old(latestStatistics)
    {
      cause, hasStop, trace, calls := env, stop, [], 0;
      capacity := maxRunners;
      start := Begin(initial, latestStatistics);
      state := start;
      match env.setMax(0) {
        case Some(count) => var _ := SetMaxRunners(count);
        case None =>
      }
    }

    /** `run_with_stop`, for at most `turns` rounds of the loop; `Running` means
        that it would go on. `stop` says whether there is a stop channel. */
    method RunWithStop(env: Env, initial: Initial, stop: bool, turns: nat) returns (o: Outcome)
      requires 0 <= maxRunners
      modifies this
      ensures Valid() && cause == env && hasStop == stop && start == Begin(initial, old(latestStatistics))
      ensures match o
              case Returned => state.control == Stopped
              case Erred(error) => state.control == Failed(error)
              case Hung => state.control == Interrupted
              case Running => state.control.Polling? && turns <= |trace|
      ensures !stop ==> o != Returned
    {
      Setup(env, initial, stop);
      o := Boot(env, initial);
      if o != Returned {
        return;
      }
      var lastMessageId := 0;
      for turn := 0 to turns
        invariant cause == env && hasStop == stop && start == Begin(initial, old(latestStatistics))
        invariant Ready(lastMessageId) && turn <= |trace|
      {
        if stop {
          var dropped;
          o, dropped := WatchStop(env, lastMessageId);
          if o == Returned {
            return;
          }
          if dropped {
            continue;
          }
        }
        o, lastMessageId := Poll(env, lastMessageId);
        if o != Running {
          return;
        }
      }
      return Running;
    }

    /** `run` and `run_until`: what the caller can rely on. The run is on plan up
        to its end; on a normal return every received message is acknowledged,
        and otherwise all but possibly the last one. */
    method RunUntil(env: Env, initial: Initial, stop: bool, turns: nat) returns (o: Outcome)
      requires 0 <= maxRunners
      modifies this
      ensures Valid() && cause == env && hasStop == stop && start == Begin(initial, old(latestStatistics))
      ensures !initial.nilId && initial.statistics.Some? ==> Fits(initial.statistics.value, trace, state)
      ensures initial.nilId || initial.statistics.None? ==>
                trace == [] && o == Erred(if initial.nilId then NilSession else NilSessionStatistics)
      ensures o == Returned ==> stop && state.control == Stopped && Received(trace) == Acknowledged(trace)
      ensures o == Running ==> turns <= |trace| && Received(trace) == Acknowledged(trace)
      ensures o.Erred? || o == Hung ==>
                Received(trace) == Acknowledged(trace)
                || (Received(trace) != [] && Received(trace)[..|Received(trace)| - 1] == Acknowledged(trace))
      ensures o.Erred? <==> state.control.Failed?
      ensures o.Erred? ==> o.error == state.control.error
      ensures o == Hung <==> state.control == Interrupted
    {
      ghost var latest := latestStatistics;
      o := RunWithStop(env, initial, stop, turns);
      ReceivedAcknowledged(initial, latest, trace, state);
      if !initial.nilId && initial.statistics.Some? {
        TraceOnPlan(initial.statistics.value, latest, trace, state);
      } else {
        NothingAfterRefusal(initial, latest, trace);
      }
    }

    /** `handle_one`: one message outside the loop. */
    method HandleOne(env: Env, msg: Message) returns (o: Outcome)
      requires 0 <= maxRunners
      modifies this
      ensures Valid() && cause == env && start == State(ToHandle(0, msg), old(latestStatistics))
      ensures state.control == ControlOf(o, Polling(msg.messageId)) && o != Running
    {
      Setup(env, Initial(true, None), false);
      start := State(ToHandle(0, msg), latestStatistics);
      state := start;
      o := HandleMessage(env, 0, msg);
    }
  }

  lemma CausedSnoc(env: Env, hasStop: bool, capacity: int, trace: seq<Event>, e: Event)
    requires forall i :: 0 <= i < |trace| ==> Caused(env, hasStop, capacity, trace, i)
    requires Caused(env, hasStop, capacity, trace + [e], |trace|)
    ensures forall i :: 0 <= i < |trace + [e]| ==> Caused(env, hasStop, capacity, trace + [e], i)
  {
    forall i | 0 <= i < |trace|
      ensures Caused(env, hasStop, capacity, trace + [e], i)
    {
      assert Caused(env, hasStop, capacity, trace, i);
    }
  }

  /** A session without an id or without statistics starts no run. */
  lemma {:induction false} NothingAfterRefusal(initial: Initial, latest: Option<Statistic>, trace: seq<Event>)
    requires initial.nilId || initial.statistics.None?
    requires Replay(AckLast, Begin(initial, latest), trace).Some?
    ensures trace == []
  {
    if trace != [] {
      NothingAfterRefusal(initial, latest, trace[..|trace| - 1]);
    }
  }

  /** The contract leaves no choice: two traces with the same start that the same
      environment causes agree as far as both go. */
  lemma {:induction false} TraceDetermined(
      env: Env, hasStop: bool, capacity: int, start: State, a: seq<Event>, b: seq<Event>)
    requires Replay(AckLast, start, a).Some? && Replay(AckLast, start, b).Some?
    requires forall i :: 0 <= i < |a| ==> Caused(env, hasStop, capacity, a, i)
    requires forall i :: 0 <= i < |b| ==> Caused(env, hasStop, capacity, b, i)
    requires |a| <= |b|
    ensures a == b[..|a|]
  {
    if a != [] {
      var n := |a| - 1;
      CausedPrefix(env, hasStop, capacity, a, n);
      CausedPrefix(env, hasStop, capacity, b, n);
      ReplayPrefix(AckLast, start, b, n);
      ReplayPrefix(AckLast, start, b, n + 1);
      TraceDetermined(env, hasStop, capacity, start, a[..n], b[..n]);
      assert b[..n][..n] == b[..n] == b[..n + 1][..n];
      SameEvent(env, hasStop, capacity, Replay(AckLast, start, a[..n]).value, a, b, n);
      SameUpTo(a, b, n);
    }
  }

  lemma SameUpTo(a: seq<Event>, b: seq<Event>, n: nat)
    requires n + 1 == |a| <= |b| && a[..n] == b[..n] && a[n] == b[n]
    ensures a == b[..|a|]
  {
    assert a == a[..n] + [a[n]];
  }

  lemma CausedPrefix(env: Env, hasStop: bool, capacity: int, trace: seq<Event>, n: nat)
    requires n <= |trace|
    requires forall i :: 0 <= i < |trace| ==> Caused(env, hasStop, capacity, trace, i)
    ensures forall i :: 0 <= i < n ==> Caused(env, hasStop, capacity, trace[..n], i)
  {
    forall i | 0 <= i < n
      ensures Caused(env, hasStop, capacity, trace[..n], i)
    {
      assert Caused(env, hasStop, capacity, trace, i);
    }
  }

  lemma SameEvent(env: Env, hasStop: bool, capacity: int, s: State, a: seq<Event>, b: seq<Event>, n: nat)
    requires n < |a| && n < |b| && a[..n] == b[..n]
    requires Advance(AckLast, s, a[n]).Some? && Advance(AckLast, s, b[n]).Some?
    requires Caused(env, hasStop, capacity, a, n) && Caused(env, hasStop, capacity, b, n)
    ensures a[n] == b[n]
  {
    if n > 0 {
      assert a[n - 1] == a[..n][n - 1] == b[n - 1];
    }
  }
}
