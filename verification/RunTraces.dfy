/** What every trace of the acknowledge-last loop looks like. */
module RunTraces {
  import opened Wrappers
  import opened Messages
  import opened Protocol

  /** The trace of a run that got as far as state `s`. */
  ghost predicate Accepted(initial: Initial, latest: Option<Statistic>, trace: seq<Event>, s: State) {
    Replay(AckLast, Begin(initial, latest), trace) == Some(s)
  }

  // ----- What a trace says -----

  /** The ids of the messages received, in order. */
  function Received(trace: seq<Event>): seq<int> {
    if trace == [] then []
    else
      var e := trace[|trace| - 1];
      Received(trace[..|trace| - 1]) + (if e.Polled? && e.outcome.Got? then [e.outcome.message.messageId] else [])
  }

  /** The ids of the messages whose deletion was confirmed, in order. */
  function Acknowledged(trace: seq<Event>): seq<int> {
    if trace == [] then []
    else
      var e := trace[|trace| - 1];
      Acknowledged(trace[..|trace| - 1]) + (if e.Deleted? && e.answer.Ok? then [e.messageId] else [])
  }

  function LastAcknowledged(trace: seq<Event>): int {
    var ids := Acknowledged(trace);
    if ids == [] then 0 else ids[|ids| - 1]
  }

  /** The statistics stored last. */
  function LastStored(trace: seq<Event>): Option<Statistic> {
    if trace == [] then None
    else
      var e := trace[|trace| - 1];
      if e.Stored? then Some(e.statistics) else LastStored(trace[..|trace| - 1])
  }

  /** The polls of a trace, in order. */
  function Polls(trace: seq<Event>): seq<Event> {
    if trace == [] then []
    else
      var e := trace[|trace| - 1];
      Polls(trace[..|trace| - 1]) + (if e.Polled? then [e] else [])
  }

  predicate Succeeded(e: Event) {
    match e
    case Stored(_) => true
    case StopSeen => true
    case Polled(_, _, outcome) => !outcome.PollFailed? && !outcome.PollLost?
    case _ => e.answer.Ok?
  }

  // ----- The plan of a run -----

  /** The successful calls that process a message, in order. */
  function Work(m: Message): seq<Event>
    requires m.statistics.Some?
  {
    [Stored(m.statistics.value)] + WorkAfterStore(m)
  }

  function WorkAfterStore(m: Message): seq<Event>
    requires m.statistics.Some?
  {
    (if m.availableJobs == [] then [] else [Acquired(RequestIds(m.availableJobs), Ok)]) + WorkFromStart(m, 0)
  }

  function WorkFromStart(m: Message, i: nat): seq<Event>
    requires m.statistics.Some?
    decreases |m.startedJobs| - i
  {
    if i < |m.startedJobs| then [Started(m.startedJobs[i], Ok)] + WorkFromStart(m, i + 1)
    else WorkFromComplete(m, 0)
  }

  function WorkFromComplete(m: Message, i: nat): seq<Event>
    requires m.statistics.Some?
    decreases |m.completedJobs| - i
  {
    if i < |m.completedJobs| then [Completed(m.completedJobs[i], Ok)] + WorkFromComplete(m, i + 1)
    else [Desired(m.statistics.value.totalAssignedJobs, Ok)]
  }

  /** What follows a poll when every call succeeds. */
  function Reaction(latest: Statistic, outcome: PollOutcome): seq<Event> {
    match outcome
    case NoMessage => [Desired(latest.totalAssignedJobs, Ok)]
    case Got(m) => if m.statistics.None? then [] else Work(m) + [Deleted(m.messageId, Ok)]
    case _ => []
  }

  /** The latest statistics after the given polls. */
  function LatestAfter(first: Statistic, polls: seq<Event>): Statistic {
    if polls == [] then first
    else
      var e := polls[|polls| - 1];
      if e.Polled? && e.outcome.Got? && e.outcome.message.statistics.Some? then e.outcome.message.statistics.value
      else LatestAfter(first, polls[..|polls| - 1])
  }

  /** The trace of a run with these polls in which every other call succeeds. */
  function Plan(first: Statistic, polls: seq<Event>): seq<Event> {
    if polls == [] then [Stored(first), Desired(first.totalAssignedJobs, Ok)]
    else
      var n := |polls| - 1;
      Plan(first, polls[..n]) + [polls[n]]
      + (if polls[n].Polled? then Reaction(LatestAfter(first, polls[..n]), polls[n].outcome) else [])
  }

  predicate Handling(c: Control) {
    c.Storing? || c.Acquiring? || c.Starting? || c.Completing? || c.Scaling? || c.Acking?
  }

  /** The work of the message at hand that is still to be done. */
  function WorkLeft(c: Control): seq<Event>
    requires Handling(c) && c.message.statistics.Some?
  {
    var m := c.message;
    match c
    case Storing(_, _) => Work(m)
    case Acquiring(_, _) => WorkAfterStore(m)
    case Starting(_, _, i) => WorkFromStart(m, i)
    case Completing(_, _, i) => WorkFromComplete(m, i)
    case Scaling(_, _) => [Desired(m.statistics.value.totalAssignedJobs, Ok)]
    case Acking(_, _) => []
  }

  /** The part of the current turn that is still to come. */
  function Rest(s: State): seq<Event> {
    if Handling(s.control) then
      var m := s.control.message;
      if m.statistics.Some? then WorkLeft(s.control) + [Deleted(m.messageId, Ok)] else []
    else
      match s.control
      case Booting(stats) => [Stored(stats), Desired(stats.totalAssignedJobs, Ok)]
      case InitialScaling(stats) => [Desired(stats.totalAssignedJobs, Ok)]
      case IdleScaling(_) => if s.latest.Some? then [Desired(s.latest.value.totalAssignedJobs, Ok)] else []
      case _ => []
  }

  predicate Live(c: Control) {
    !c.Stopped? && !c.Failed? && !c.Interrupted?
  }

  /** The event with its answer replaced by success. */
  function AsSuccess(e: Event): Event {
    match e
    case Desired(count, _) => Desired(count, Ok)
    case Acquired(ids, _) => Acquired(ids, Ok)
    case Started(job, _) => Started(job, Ok)
    case Completed(job, _) => Completed(job, Ok)
    case Deleted(id, _) => Deleted(id, Ok)
    case _ => e
  }

  // ----- Invariants of a live run -----

  /** The statistics the loop scales by are those of the polls so far. */
  ghost predicate LatestOk(first: Statistic, polls: seq<Event>, s: State) {
    var latest := Some(LatestAfter(first, polls));
    match s.control
    case Booting(stats) => stats == first && polls == []
    case InitialScaling(stats) => stats == first && s.latest == latest && polls == []
    case Polling(_) => s.latest == latest
    case IdleScaling(_) => s.latest == latest
    case Storing(_, m) => m.statistics == latest
    case Acquiring(_, m) => m.statistics == latest && s.latest == latest && m.availableJobs != []
    case Starting(_, m, _) => m.statistics == latest && s.latest == latest
    case Completing(_, m, _) => m.statistics == latest && s.latest == latest
    case Scaling(_, m) => m.statistics == latest && s.latest == latest
    case Acking(_, m) => m.statistics == latest && s.latest == latest
    case _ => true
  }

  lemma CallKeepsLatest(first: Statistic, polls: seq<Event>, s: State, e: Event)
    requires LatestOk(first, polls, s) && Advance(AckLast, s, e).Some? && !e.Polled?
    ensures LatestOk(first, polls, Advance(AckLast, s, e).value)
  {
  }

  /** A message is handled only if it has statistics, and its jobs are acquired
      only if there are any. */
  predicate StatsOk(c: Control) {
    (Handling(c) ==> c.message.statistics.Some?) && (c.Acquiring? ==> c.message.availableJobs != [])
  }

  /** Every successful call takes its event off the work that is left. */
  lemma WorkLeftShrinks(s: State, e: Event)
    requires Handling(s.control) && !s.control.Acking? && StatsOk(s.control)
    requires Advance(AckLast, s, e).Some? && Succeeded(e)
    ensures
      var c := Advance(AckLast, s, e).value.control;
      && Handling(c) && c.message == s.control.message && StatsOk(c)
      && WorkLeft(s.control) == [e] + WorkLeft(c)
  {
    var c := Advance(AckLast, s, e).value.control;
    var rest :=
      match s.control
      case Storing(_, m) => WorkAfterStore(m)
      case Acquiring(_, m) => WorkFromStart(m, 0)
      case Starting(_, m, i) => WorkFromStart(m, i + 1)
      case Completing(_, m, i) => WorkFromComplete(m, i + 1)
      case _ => [];
    assert WorkLeft(s.control) == [e] + rest;
    assert rest == WorkLeft(c);
  }

  /** A successful call moves on to the next event of the rest. */
  lemma RestShrinks(s: State, e: Event)
    requires StatsOk(s.control) && Advance(AckLast, s, e).Some? && !e.Polled? && !e.StopSeen? && Succeeded(e)
    ensures
      var s' := Advance(AckLast, s, e).value;
      AsSuccess(e) == e && Live(s'.control) && Rest(s) == [e] + Rest(s')
  {
    if Handling(s.control) && !s.control.Acking? {
      WorkLeftShrinks(s, e);
      var left := WorkLeft(Advance(AckLast, s, e).value.control);
      var ack := [Deleted(s.control.message.messageId, Ok)];
      assert [e] + left + ack == [e] + (left + ack);
    }
  }

  /** Where a call may fail it may succeed. */
  lemma SuccessPossible(s: State, e: Event)
    requires Advance(AckLast, s, e).Some? && !e.Polled?
    ensures Advance(AckLast, s, AsSuccess(e)).Some? && Succeeded(AsSuccess(e))
  {
  }

  /** A failure ends the run. */
  lemma FailureEnds(s: State, e: Event)
    requires Advance(AckLast, s, e).Some? && !Succeeded(e)
    ensures var c := Advance(AckLast, s, e).value.control; c.Failed? || c.Interrupted?
  {
  }

  /** A poll starts a turn. */
  lemma PollStartsTurn(first: Statistic, polls: seq<Event>, s: State, e: Event)
    requires LatestOk(first, polls, s) && Advance(AckLast, s, e).Some? && e.Polled?
    ensures
      var s' := Advance(AckLast, s, e).value;
      && LatestOk(first, polls + [e], s') && Rest(s) == []
      && Plan(first, polls + [e]) == Plan(first, polls) + [e] + Reaction(LatestAfter(first, polls), e.outcome)
      && Rest(s') == Reaction(LatestAfter(first, polls), e.outcome)
  {
    assert (polls + [e])[..|polls|] == polls;
  }

  /** `trace` fits the plan: exactly, up to the rest of the turn, while the loop
      is live; up to a last event that may have failed once the run has ended. */
  ghost predicate Fits(first: Statistic, trace: seq<Event>, s: State) {
    var plan := Plan(first, Polls(trace));
    if Live(s.control) then trace + Rest(s) == plan
    else if s.control.Stopped? then trace == plan + [StopSeen]
    else trace != [] && trace[..|trace| - 1] + [AsSuccess(trace[|trace| - 1])] <= plan
  }

  lemma PollsSnoc(trace: seq<Event>, e: Event)
    ensures Polls(trace + [e]) == if e.Polled? then Polls(trace) + [e] else Polls(trace)
  {
    assert (trace + [e])[..|trace|] == trace;
  }

  /** After a poll either the reaction is the rest of the turn, or the run has
      ended and there is no reaction. */
  lemma PollLeadsOn(first: Statistic, polls: seq<Event>, s: State, e: Event)
    requires LatestOk(first, polls, s) && Advance(AckLast, s, e).Some? && e.Polled?
    ensures
      var s' := Advance(AckLast, s, e).value;
      var reaction := Reaction(LatestAfter(first, polls), e.outcome);
      if Live(s'.control) then Rest(s') == reaction else !s'.control.Stopped? && reaction == []
  {
  }

  lemma PollFits(first: Statistic, trace: seq<Event>, s: State, e: Event)
    requires LatestOk(first, Polls(trace), s) && Advance(AckLast, s, e).Some? && e.Polled?
    requires trace + Rest(s) == Plan(first, Polls(trace))
    ensures Fits(first, trace + [e], Advance(AckLast, s, e).value)
  {
    var polls := Polls(trace);
    PollStartsTurn(first, polls, s, e);
    PollLeadsOn(first, polls, s, e);
    PollsSnoc(trace, e);
    assert trace + [] == trace;
    assert (trace + [e])[..|trace|] == trace && AsSuccess(e) == e;
    assert trace + [e] + Reaction(LatestAfter(first, polls), e.outcome) == Plan(first, polls + [e]);
  }

  lemma CallSucceeds(trace: seq<Event>, s: State, e: Event, plan: seq<Event>)
    requires StatsOk(s.control) && Advance(AckLast, s, e).Some? && !e.Polled? && !e.StopSeen? && Succeeded(e)
    requires trace + Rest(s) == plan
    ensures
      var s' := Advance(AckLast, s, e).value;
      Live(s'.control) && trace + [e] + Rest(s') == plan
  {
    RestShrinks(s, e);
    var rest := Rest(Advance(AckLast, s, e).value);
    assert trace + [e] + rest == trace + ([e] + rest);
  }

  /** Replacing the answer keeps the kind of an event. */
  lemma AsSuccessKeepsKind(e: Event)
    ensures AsSuccess(e).Polled? <==> e.Polled?
    ensures AsSuccess(e).StopSeen? <==> e.StopSeen?
  {
  }

  lemma CallFails(trace: seq<Event>, s: State, e: Event, plan: seq<Event>)
    requires StatsOk(s.control) && Advance(AckLast, s, e).Some? && !e.Polled? && !e.StopSeen?
    requires trace + Rest(s) == plan
    ensures trace + [AsSuccess(e)] <= plan
  {
    SuccessPossible(s, e);
    AsSuccessKeepsKind(e);
    CallSucceeds(trace, s, AsSuccess(e), plan);
  }

  lemma StopEndsPlan(trace: seq<Event>, s: State, e: Event, plan: seq<Event>)
    requires Advance(AckLast, s, e).Some? && e.StopSeen? && trace + Rest(s) == plan
    ensures Advance(AckLast, s, e).value.control == Stopped && trace + [e] == plan + [StopSeen]
  {
    assert trace + [] == trace;
  }

  lemma CallFits(first: Statistic, trace: seq<Event>, s: State, e: Event)
    requires LatestOk(first, Polls(trace), s) && Advance(AckLast, s, e).Some? && !e.Polled? && !e.StopSeen?
    requires trace + Rest(s) == Plan(first, Polls(trace))
    ensures Fits(first, trace + [e], Advance(AckLast, s, e).value)
  {
    var plan := Plan(first, Polls(trace));
    PollsSnoc(trace, e);
    if Succeeded(e) {
      CallSucceeds(trace, s, e, plan);
    } else {
      FailureEnds(s, e);
      CallFails(trace, s, e, plan);
      assert (trace + [e])[..|trace|] == trace;
    }
  }

  /** One more event keeps a trace on plan. */
  lemma EventFits(first: Statistic, trace: seq<Event>, s: State, e: Event)
    requires LatestOk(first, Polls(trace), s) && Fits(first, trace, s) && Advance(AckLast, s, e).Some?
    ensures
      var s' := Advance(AckLast, s, e).value;
      LatestOk(first, Polls(trace + [e]), s') && Fits(first, trace + [e], s')
  {
    PollsSnoc(trace, e);
    if e.Polled? {
      PollStartsTurn(first, Polls(trace), s, e);
      PollFits(first, trace, s, e);
    } else {
      CallKeepsLatest(first, Polls(trace), s, e);
      if e.StopSeen? {
        StopEndsPlan(trace, s, e, Plan(first, Polls(trace)));
      } else {
        CallFits(first, trace, s, e);
      }
    }
  }

  /** Every trace of a run fits the plan for the polls it made. */
  lemma {:induction false} TraceOnPlan(first: Statistic, latest: Option<Statistic>, trace: seq<Event>, s: State)
    requires Accepted(Initial(false, Some(first)), latest, trace, s)
    ensures LatestOk(first, Polls(trace), s) && Fits(first, trace, s)
  {
    if trace != [] {
      var before, e := trace[..|trace| - 1], trace[|trace| - 1];
      var p := Replay(AckLast, Begin(Initial(false, Some(first)), latest), before).value;
      TraceOnPlan(first, latest, before, p);
      assert trace == before + [e];
      EventFits(first, before, p, e);
    }
  }

  /** The run ends at its first failing event. */
  lemma {:induction false} EndsAtFirstFailure(
      initial: Initial, latest: Option<Statistic>, trace: seq<Event>, s: State, i: nat)
    requires Accepted(initial, latest, trace, s) && i < |trace|
    ensures !Succeeded(trace[i]) ==> i == |trace| - 1 && (s.control.Failed? || s.control.Interrupted?)
  {
    var before, e := trace[..|trace| - 1], trace[|trace| - 1];
    var p := Replay(AckLast, Begin(initial, latest), before).value;
    if i < |before| {
      EndsAtFirstFailure(initial, latest, before, p, i);
      assert trace[i] == before[i];
    }
  }

  // ----- Stopping -----

  /** Received messages are acknowledged, except the one being handled, or the
      one at hand when the run ended. */
  ghost predicate AckedUpTo(received: seq<int>, acked: seq<int>, c: Control) {
    if Handling(c) then received == acked + [c.message.messageId]
    else if c.Failed? || c.Interrupted? then
      received == acked || (received != [] && received[..|received| - 1] == acked)
    else received == acked
  }

  lemma AckedStep(received: seq<int>, acked: seq<int>, s: State, e: Event)
    requires AckedUpTo(received, acked, s.control) && Advance(AckLast, s, e).Some?
    ensures AckedUpTo(
              received + (if e.Polled? && e.outcome.Got? then [e.outcome.message.messageId] else []),
              acked + (if e.Deleted? && e.answer.Ok? then [e.messageId] else []),
              Advance(AckLast, s, e).value.control)
  {
    assert received + [] == received && acked + [] == acked;
  }

  lemma {:induction false} ReceivedAcknowledged(
      initial: Initial, latest: Option<Statistic>, trace: seq<Event>, s: State)
    requires Accepted(initial, latest, trace, s)
    ensures AckedUpTo(Received(trace), Acknowledged(trace), s.control)
  {
    if trace != [] {
      var before, e := trace[..|trace| - 1], trace[|trace| - 1];
      var p := Replay(AckLast, Begin(initial, latest), before).value;
      ReceivedAcknowledged(initial, latest, before, p);
      AckedStep(Received(before), Acknowledged(before), p, e);
    }
  }

  // ----- The cursor -----

  ghost predicate CursorIs(c: Control, acked: seq<int>) {
    && (c.Booting? || c.InitialScaling? ==> acked == [])
    && (c.Polling? || c.IdleScaling? || Handling(c) ==> c.cursor == if acked == [] then 0 else acked[|acked| - 1])
  }

  lemma CursorMoves(acked: seq<int>, s: State, e: Event)
    requires CursorIs(s.control, acked) && Advance(AckLast, s, e).Some?
    ensures CursorIs(Advance(AckLast, s, e).value.control,
                     acked + (if e.Deleted? && e.answer.Ok? then [e.messageId] else []))
  {
    assert acked + [] == acked;
  }

  lemma {:induction false} CursorIsLastAck(initial: Initial, latest: Option<Statistic>, trace: seq<Event>, s: State)
    requires Accepted(initial, latest, trace, s)
    ensures CursorIs(s.control, Acknowledged(trace))
  {
    if trace != [] {
      var before, e := trace[..|trace| - 1], trace[|trace| - 1];
      var p := Replay(AckLast, Begin(initial, latest), before).value;
      CursorIsLastAck(initial, latest, before, p);
      CursorMoves(Acknowledged(before), p, e);
    }
  }

  predicate Rising(ids: seq<int>) {
    forall i, j :: 0 <= i < j < |ids| ==> ids[i] < ids[j]
  }

  /** Every poll that received a message received one above its cursor. */
  ghost predicate PollsRise(trace: seq<Event>) {
    forall e <- trace :: e.Polled? && e.outcome.Got? ==> e.cursor < e.outcome.message.messageId
  }

  lemma RiseStep(received: seq<int>, acked: seq<int>, s: State, e: Event)
    requires Rising(received) && AckedUpTo(received, acked, s.control) && CursorIs(s.control, acked)
    requires Advance(AckLast, s, e).Some? && e.Polled? && e.outcome.Got?
    requires e.cursor < e.outcome.message.messageId
    ensures Rising(received + [e.outcome.message.messageId])
  {
  }

  /** When every poll receives a message above its cursor, the ids a run receives rise. */
  lemma {:induction false} ReceivedRise(initial: Initial, latest: Option<Statistic>, trace: seq<Event>, s: State)
    requires Accepted(initial, latest, trace, s) && PollsRise(trace)
    ensures Rising(Received(trace))
  {
    if trace != [] {
      var before, e := trace[..|trace| - 1], trace[|trace| - 1];
      var p := Replay(AckLast, Begin(initial, latest), before).value;
      ReceivedRise(initial, latest, before, p);
      ReceivedAcknowledged(initial, latest, before, p);
      CursorIsLastAck(initial, latest, before, p);
      if e.Polled? && e.outcome.Got? {
        RiseStep(Received(before), Acknowledged(before), p, e);
      }
    }
  }

  /** Every poll carries the id acknowledged last in this run, or 0; after a
      spurious stop change it is the cursor of the dropped poll again. */
  lemma PollCarriesLastAck(initial: Initial, latest: Option<Statistic>, trace: seq<Event>, s: State, i: nat)
    requires Accepted(initial, latest, trace, s) && i < |trace| && trace[i].Polled?
    ensures trace[i].cursor == LastAcknowledged(trace[..i])
    ensures i > 0 && trace[i - 1].Polled? ==> trace[i - 1].outcome.Dropped? && trace[i].cursor == trace[i - 1].cursor
  {
    var p, q := At(initial, latest, trace, i);
    CursorIsLastAck(initial, latest, trace[..i], p);
    if i > 0 && trace[i - 1].Polled? {
      var o, r := At(initial, latest, trace, i - 1);
      assert p == r;
    }
  }

  /** The states before and after event `i`. */
  lemma At(initial: Initial, latest: Option<Statistic>, trace: seq<Event>, i: nat) returns (p: State, q: State)
    requires Replay(AckLast, Begin(initial, latest), trace).Some? && i < |trace|
    ensures Accepted(initial, latest, trace[..i], p) && Accepted(initial, latest, trace[..i + 1], q)
    ensures Advance(AckLast, p, trace[i]) == Some(q)
  {
    ReplayPrefix(AckLast, Begin(initial, latest), trace, i);
    ReplayPrefix(AckLast, Begin(initial, latest), trace, i + 1);
    p := Replay(AckLast, Begin(initial, latest), trace[..i]).value;
    q := Replay(AckLast, Begin(initial, latest), trace[..i + 1]).value;
    assert trace[..i + 1][..i] == trace[..i];
  }

  // ----- The desired count -----

  lemma {:induction false} LatestIsStored(initial: Initial, latest: Option<Statistic>, trace: seq<Event>, s: State)
    requires Accepted(initial, latest, trace, s)
    ensures s.latest == if LastStored(trace) == None then latest else LastStored(trace)
    ensures s.control.InitialScaling? ==> LastStored(trace) == Some(s.control.statistics)
    ensures s.control.Acquiring? || s.control.Starting? || s.control.Completing? || s.control.Scaling? ==>
              s.control.message.statistics.Some? && LastStored(trace) == s.control.message.statistics
    ensures s.control.Polling? || s.control.IdleScaling? || Handling(s.control) ==> LastStored(trace).Some?
  {
    if trace != [] {
      var before := trace[..|trace| - 1];
      LatestIsStored(initial, latest, before, Replay(AckLast, Begin(initial, latest), before).value);
    }
  }

  /** The scaler is always asked for the assigned total of the statistics stored last. */
  lemma DesiredIsLatest(initial: Initial, latest: Option<Statistic>, trace: seq<Event>, s: State, i: nat)
    requires Accepted(initial, latest, trace, s) && i < |trace| && trace[i].Desired?
    ensures LastStored(trace[..i]).Some? && trace[i].count == LastStored(trace[..i]).value.totalAssignedJobs
  {
    var p, q := At(initial, latest, trace, i);
    LatestIsStored(initial, latest, trace[..i], p);
  }

  /** A message without statistics ends the run at once: nothing is called after
      its poll, and the stored statistics are those from before it. */
  lemma NilStatisticsEndsRun(initial: Initial, latest: Option<Statistic>, trace: seq<Event>, s: State, i: nat)
    requires Accepted(initial, latest, trace, s) && i < |trace|
    requires trace[i].Polled? && trace[i].outcome.Got? && trace[i].outcome.message.statistics.None?
    ensures i == |trace| - 1 && s.control == Failed(NilMessageStatistics)
    ensures LastStored(trace) == LastStored(trace[..i])
  {
    var p, q := At(initial, latest, trace, i);
    if i + 1 < |trace| {
      var r, r' := At(initial, latest, trace, i + 1);
      assert false;
    }
    assert trace[..i + 1] == trace && trace[..|trace| - 1] == trace[..i];
  }

  // ----- Deletion -----

  /** Events `i - |work| .. i` are the successful work for `m`, right after it was received. */
  ghost predicate WorkedThrough(trace: seq<Event>, i: nat, m: Message) {
    && m.statistics.Some? && |Work(m)| < i <= |trace|
    && trace[i - |Work(m)|..i] == Work(m)
    && var poll := trace[i - |Work(m)| - 1]; poll.Polled? && poll.outcome == Got(m)
  }

  /** While a message is being handled, the trace ends with its poll and the
      part of its work that is done. */
  ghost predicate Underway(trace: seq<Event>, m: Message, rest: seq<Event>) {
    && m.statistics.Some? && |rest| <= |Work(m)| && |Work(m)| - |rest| < |trace|
    && trace[|trace| - (|Work(m)| - |rest|)..] + rest == Work(m)
    && var poll := trace[|trace| - (|Work(m)| - |rest|) - 1]; poll.Polled? && poll.outcome == Got(m)
  }

  ghost predicate UnderwayIn(trace: seq<Event>, c: Control) {
    Handling(c) ==>
      StatsOk(c) && Underway(trace, c.message, WorkLeft(c))
  }

  /** One more event takes the handling one call further. */
  lemma UnderwayStep(trace: seq<Event>, s: State, e: Event, s': State)
    requires UnderwayIn(trace, s.control) && Advance(AckLast, s, e) == Some(s')
    ensures UnderwayIn(trace + [e], s'.control)
  {
    var c := s'.control;
    if Handling(c) {
      if Handling(s.control) {
        WorkLeftShrinks(s, e);
        UnderwaySnoc(trace, c.message, e, WorkLeft(c));
      } else {
        UnderwayBegins(trace, c.message, e);
      }
    }
  }

  lemma UnderwayBegins(trace: seq<Event>, m: Message, e: Event)
    requires m.statistics.Some? && e.Polled? && e.outcome == Got(m)
    ensures Underway(trace + [e], m, Work(m))
  {
    assert (trace + [e])[|trace + [e]|..] + Work(m) == Work(m);
  }

  lemma UnderwayOf(trace: seq<Event>, same: seq<Event>, c: Control)
    requires trace == same && UnderwayIn(same, c)
    ensures UnderwayIn(trace, c)
  {
  }

  lemma {:induction false} HandlingIsUnderway(initial: Initial, latest: Option<Statistic>, trace: seq<Event>, s: State)
    requires Accepted(initial, latest, trace, s)
    ensures UnderwayIn(trace, s.control)
  {
    if trace != [] {
      var before, e := trace[..|trace| - 1], trace[|trace| - 1];
      var p := Replay(AckLast, Begin(initial, latest), before).value;
      HandlingIsUnderway(initial, latest, before, p);
      UnderwayStep(before, p, e, s);
      UnderwayOf(trace, before + [e], s.control);
    }
  }

  lemma UnderwaySnoc(trace: seq<Event>, m: Message, e: Event, rest: seq<Event>)
    requires Underway(trace, m, [e] + rest)
    ensures Underway(trace + [e], m, rest)
  {
    var k := |Work(m)| - |[e] + rest|;
    assert (trace + [e])[|trace| + 1 - (k + 1)..] == trace[|trace| - k..] + [e];
    assert trace[|trace| - k..] + [e] + rest == trace[|trace| - k..] + ([e] + rest);
  }

  lemma DeletedIsDone(trace: seq<Event>, s: State, e: Event)
    requires UnderwayIn(trace, s.control) && Advance(AckLast, s, e).Some? && e.Deleted?
    ensures s.control.Acking? && s.control.message.messageId == e.messageId
    ensures Underway(trace, s.control.message, [])
  {
  }

  lemma UnderwayDone(trace: seq<Event>, i: nat, m: Message)
    requires i <= |trace| && Underway(trace[..i], m, [])
    ensures WorkedThrough(trace, i, m)
  {
    var k := |Work(m)|;
    assert trace[..i][i - k..] + [] == trace[i - k..i];
  }

  /** A DELETE is sent only for a message that was received in this run and whose
      whole work succeeded right before, every call of it, in order. */
  lemma DeleteAfterWork(initial: Initial, latest: Option<Statistic>, trace: seq<Event>, s: State, i: nat)
    returns (m: Message)
    requires Accepted(initial, latest, trace, s) && i < |trace| && trace[i].Deleted?
    ensures m.messageId == trace[i].messageId && WorkedThrough(trace, i, m)
  {
    var p, q := At(initial, latest, trace, i);
    HandlingIsUnderway(initial, latest, trace[..i], p);
    DeletedIsDone(trace[..i], p, trace[i]);
    m := p.control.message;
    UnderwayDone(trace, i, m);
  }

  // ----- The calls, in terms of the message polled last -----

  lemma {:induction false} NoPollFromComplete(m: Message, i: nat)
    requires m.statistics.Some?
    ensures forall e <- WorkFromComplete(m, i) :: !e.Polled?
    decreases |m.completedJobs| - i
  {
    if i < |m.completedJobs| {
      NoPollFromComplete(m, i + 1);
    }
  }

  lemma {:induction false} NoPollFromStart(m: Message, i: nat)
    requires m.statistics.Some?
    ensures forall e <- WorkFromStart(m, i) :: !e.Polled?
    decreases |m.startedJobs| - i
  {
    if i < |m.startedJobs| {
      NoPollFromStart(m, i + 1);
    } else {
      NoPollFromComplete(m, 0);
    }
  }

  lemma NoPollInWork(m: Message)
    requires m.statistics.Some?
    ensures forall e <- Work(m) :: !e.Polled?
  {
    NoPollFromStart(m, 0);
  }

  /** The message being handled is the one the last poll received. */
  lemma LastPoll(trace: seq<Event>, m: Message, rest: seq<Event>) returns (j: nat)
    requires Underway(trace, m, rest)
    ensures j < |trace| && trace[j].Polled? && trace[j].outcome == Got(m)
    ensures forall k :: j < k < |trace| ==> !trace[k].Polled?
  {
    var n := |Work(m)| - |rest|;
    j := |trace| - n - 1;
    NoPollInWork(m);
    forall k | j < k < |trace|
      ensures !trace[k].Polled?
    {
      assert trace[k] == (trace[|trace| - n..] + rest)[k - j - 1];
    }
  }

  /** Every call for a message is about the message that the last poll received:
      the acquire asks for the id of each of its available jobs, in order; the
      jobs reported are its own; and the DELETE carries its id. */
  lemma CallsFollowPoll(initial: Initial, latest: Option<Statistic>, trace: seq<Event>, s: State, i: nat)
    returns (j: nat, m: Message)
    requires Accepted(initial, latest, trace, s) && i < |trace|
    requires trace[i].Acquired? || trace[i].Started? || trace[i].Completed? || trace[i].Deleted?
    ensures j < i && trace[j].Polled? && trace[j].outcome == Got(m)
    ensures forall k :: j < k < i ==> !trace[k].Polled?
    ensures match trace[i]
            case Acquired(ids, _) =>
              && m.availableJobs != [] && |ids| == |m.availableJobs|
              && forall k :: 0 <= k < |ids| ==> ids[k] == m.availableJobs[k].runnerRequestId
            case Started(job, _) => job in m.startedJobs
            case Completed(job, _) => job in m.completedJobs
            case Deleted(id, _) => id == m.messageId
            case _ => true
  {
    var p, q := At(initial, latest, trace, i);
    HandlingIsUnderway(initial, latest, trace[..i], p);
    m := p.control.message;
    j := LastPoll(trace[..i], m, WorkLeft(p.control));
    assert forall k :: 0 <= k < i ==> trace[..i][k] == trace[k];
  }

  /** A run begins by storing the statistics of the session and asking for their
      assigned total. */
  lemma RunBegins(first: Statistic, latest: Option<Statistic>, trace: seq<Event>, s: State)
    requires Accepted(Initial(false, Some(first)), latest, trace, s)
    ensures |trace| > 0 ==> trace[0] == Stored(first)
    ensures |trace| > 1 ==> trace[1].Desired? && trace[1].count == first.totalAssignedJobs
  {
    var initial := Initial(false, Some(first));
    if |trace| > 0 {
      var p, q := At(initial, latest, trace, 0);
      if |trace| > 1 {
        var p', q' := At(initial, latest, trace, 1);
        assert p' == q;
      }
    }
  }

  /** The error of a failed run names the call that failed, its last event. A run
      in which an answer was lost has no error at all. */
  lemma FailureNamesCall(first: Statistic, latest: Option<Statistic>, trace: seq<Event>, s: State)
    requires Accepted(Initial(false, Some(first)), latest, trace, s) && trace != []
    ensures
      var last := trace[|trace| - 1];
      match last
      case Polled(_, _, PollFailed) => s.control == Failed(GetMessageError)
      case Polled(_, _, Got(m)) => s.control == Failed(NilMessageStatistics) <==> m.statistics.None?
      case Acquired(_, Err) => s.control == Failed(AcquireError)
      case Started(_, Err) => s.control == Failed(StartedError)
      case Completed(_, Err) => s.control == Failed(CompletedError)
      case Deleted(_, Err) => s.control == Failed(DeleteError)
      case Desired(_, Err) =>
        s.control == Failed(if |trace| <= 2 then InitialDesiredError
                            else if trace[|trace| - 2].Polled? then IdleDesiredError
                            else MessageDesiredError)
      case _ => !s.control.Failed?
  {
    var n := |trace| - 1;
    var p, q := At(Initial(false, Some(first)), latest, trace, n);
    assert trace[..n + 1] == trace;
    if n > 0 {
      var p', q' := At(Initial(false, Some(first)), latest, trace, n - 1);
      assert q' == p;
      if n > 1 {
        var p2, q2 := At(Initial(false, Some(first)), latest, trace, n - 2);
        assert q2 == p' && !p'.control.Booting?;
      }
    }
    FailureOf(p, trace[n]);
  }

  /** The state a last event leads to. */
  lemma FailureOf(p: State, e: Event)
    requires Advance(AckLast, p, e).Some?
    ensures
      var c := Advance(AckLast, p, e).value.control;
      match e
      case Polled(_, _, PollFailed) => c == Failed(GetMessageError)
      case Polled(_, _, Got(m)) => c == Failed(NilMessageStatistics) <==> m.statistics.None?
      case Acquired(_, Err) => c == Failed(AcquireError)
      case Started(_, Err) => c == Failed(StartedError)
      case Completed(_, Err) => c == Failed(CompletedError)
      case Deleted(_, Err) => c == Failed(DeleteError)
      case Desired(_, Err) =>
        c == Failed(if p.control.InitialScaling? then InitialDesiredError
                    else if p.control.IdleScaling? then IdleDesiredError
                    else MessageDesiredError)
      case _ => !c.Failed?
  {
  }
}
