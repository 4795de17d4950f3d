/** The acknowledge-first order of the upstream Go listener loses messages. */
module EarlyAck {
  import opened Wrappers
  import opened Messages
  import opened Protocol
  import opened RunTraces
  import opened Delivery

  ghost predicate HistoryTo(order: Order, history: seq<World>, w: World) {
    History(order, history) && history[|history| - 1] == w
  }

  ghost predicate Reachable(order: Order, w: World) {
    exists history :: HistoryTo(order, history, w)
  }

  lemma Extend(order: Order, w: World, w': World)
    requires Reachable(order, w) && Next(order, w, w')
    ensures Reachable(order, w')
  {
    var history :| HistoryTo(order, history, w);
    HistorySnoc(order, history, w');
    assert HistoryTo(order, history + [w'], w');
  }

  /** The only run so far has done `events` and is in state `s`. */
  ghost predicate InRun(w: World, m: Message, initial: Initial, events: seq<Event>, s: State) {
    && w.published == [m] && w.unsure == {} && w.runs == [Run(initial, None, events)]
    && Replay(AckFirst, Begin(initial, None), events) == Some(s)
    && Reachable(AckFirst, w)
  }

  lemma Do(w: World, m: Message, initial: Initial, events: seq<Event>, s: State, e: Event) returns (w': World)
    requires InRun(w, m, initial, events, s) && Advance(AckFirst, s, e).Some?
    requires e.Polled? && e.outcome.Got? ==> Delivers(w, e.cursor, e.outcome.message)
    requires e.Deleted? ==> e.answer.Ok?
    ensures InRun(w', m, initial, events + [e], Advance(AckFirst, s, e).value)
    ensures w'.queued == if e.Deleted? then w.queued - {e.messageId} else w.queued
  {
    var run := Run(initial, None, events);
    w' := w.(runs := [run.(events := events + [e])],
             queued := if e.Deleted? then w.queued - {e.messageId} else w.queued);
    assert w.runs[..|w.runs| - 1] == [];
    assert w.runs[..|w.runs| - 1] + [run.(events := events + [e])] == w'.runs;
    assert Act(AckFirst, w, w', e);
    Extend(AckFirst, w, w');
    ReplaySnoc(AckFirst, Begin(initial, None), events, e);
  }

  /** One message is published, and a run begins. */
  lemma Begun(m: Message, initial: Initial) returns (w: World)
    requires 0 < m.messageId
    ensures InRun(w, m, initial, [], Begin(initial, None)) && w.queued == {m.messageId}
  {
    var empty := World([], {}, {}, []);
    assert HistoryTo(AckFirst, [empty], empty);
    var one := World([m], {m.messageId}, {}, []);
    assert Publish(empty, one, m);
    Extend(AckFirst, empty, one);
    w := World([m], {m.messageId}, {}, [Run(initial, None, [])]);
    assert Restart(one, w, initial, None);
    Extend(AckFirst, one, w);
  }

  /** The run stores the initial statistics. */
  lemma Booted(m: Message, stats: Statistic) returns (w: World)
    requires 0 < m.messageId
    ensures InRun(w, m, Initial(false, Some(stats)), [Stored(stats)], State(InitialScaling(stats), Some(stats)))
    ensures w.queued == {m.messageId}
  {
    var initial := Initial(false, Some(stats));
    w := Begun(m, initial);
    w := Do(w, m, initial, [], Begin(initial, None), Stored(stats));
    assert [] + [Stored(stats)] == [Stored(stats)];
  }

  /** It scales. */
  lemma Scaled(m: Message, stats: Statistic) returns (w: World)
    requires 0 < m.messageId
    ensures InRun(w, m, Initial(false, Some(stats)),
                  [Stored(stats), Desired(stats.totalAssignedJobs, Ok)], State(Polling(0), Some(stats)))
    ensures w.queued == {m.messageId}
  {
    var e := Desired(stats.totalAssignedJobs, Ok);
    w := Booted(m, stats);
    w := Do(w, m, Initial(false, Some(stats)), [Stored(stats)], State(InitialScaling(stats), Some(stats)), e);
    assert [Stored(stats)] + [e] == [Stored(stats), e];
  }

  /** It polls and gets the message. */
  lemma PolledOnce(m: Message) returns (w: World)
    requires m.statistics.Some? && 0 < m.messageId
    ensures
      var stats := m.statistics.value;
      InRun(w, m, Initial(false, Some(stats)),
            [Stored(stats), Desired(stats.totalAssignedJobs, Ok), Polled(0, 1, Got(m))],
            State(Storing(0, m), Some(stats)))
    ensures w.queued == {m.messageId}
  {
    var stats := m.statistics.value;
    var before := [Stored(stats), Desired(stats.totalAssignedJobs, Ok)];
    w := Scaled(m, stats);
    assert Delivers(w, 0, m);
    w := Do(w, m, Initial(false, Some(stats)), before, State(Polling(0), Some(stats)), Polled(0, 1, Got(m)));
    assert before + [Polled(0, 1, Got(m))]
        == [Stored(stats), Desired(stats.totalAssignedJobs, Ok), Polled(0, 1, Got(m))];
  }

  /** The first call that follows an early DELETE, failing. */
  function FirstCall(m: Message): Event
    requires m.statistics.Some?
  {
    if m.availableJobs != [] then Acquired(RequestIds(m.availableJobs), Err)
    else if m.startedJobs != [] then Started(m.startedJobs[0], Err)
    else if m.completedJobs != [] then Completed(m.completedJobs[0], Err)
    else Desired(m.statistics.value.totalAssignedJobs, Err)
  }

  /** Every message with statistics can be lost: it is deleted, the first call that
      follows then fails, the run is over, no job of it was acquired or reported,
      and it is not in the queue, so no later run will see it. */
  lemma EarlyAckLoses(m: Message) returns (w: World)
    requires m.statistics.Some? && 0 < m.messageId
    ensures Reachable(AckFirst, w) && m in w.published && m.messageId !in w.queued
    ensures |w.runs| == 1 && StateOf(AckFirst, w.runs[0]).Some?
    ensures StateOf(AckFirst, w.runs[0]).value.control.Failed?
    ensures
      var events := w.runs[0].events;
      && |events| > 1 && events[|events| - 2..] == [Deleted(m.messageId, Ok), FirstCall(m)]
      && forall e <- events :: Succeeded(e) ==> !e.Acquired? && !e.Started? && !e.Completed?
    ensures !NothingLost(w)
  {
    var stats := m.statistics.value;
    var initial := Initial(false, Some(stats));
    w := PolledOnce(m);
    var events := [Stored(stats), Desired(stats.totalAssignedJobs, Ok), Polled(0, 1, Got(m))];
    w := Do(w, m, initial, events, State(Storing(0, m), Some(stats)), Stored(stats));
    events := events + [Stored(stats)];
    w := Do(w, m, initial, events, State(Acking(0, m), Some(stats)), Deleted(m.messageId, Ok));
    events := events + [Deleted(m.messageId, Ok)];
    w := Do(w, m, initial, events, State(ToAcquire(0, m), Some(stats)), FirstCall(m));
    var trace := w.runs[0].events;
    forall i: nat
      ensures !ProcessedIn(w.runs[0], m, i)
    {
      if i < |trace| && trace[i].Deleted? {
        assert trace[i - 1] == Stored(stats);
        NotAfterStore(trace, i, m);
      }
    }
    assert !Processed(w, m);
  }

  /** Right after the statistics were stored no message is worked through. */
  lemma NotAfterStore(trace: seq<Event>, i: nat, m: Message)
    requires 0 < i <= |trace| && trace[i - 1].Stored?
    ensures !WorkedThrough(trace, i, m)
  {
    if m.statistics.Some? && |Work(m)| < i {
      var k := |Work(m)|;
      LastIsDesired(m);
      assert trace[i - k..i][k - 1] == trace[i - 1];
    }
  }

  lemma LastIsDesired(m: Message)
    requires m.statistics.Some?
    ensures Work(m)[|Work(m)| - 1] == Desired(m.statistics.value.totalAssignedJobs, Ok)
  {
    StartEndsWithDesired(m, 0);
  }

  lemma {:induction false} StartEndsWithDesired(m: Message, i: nat)
    requires m.statistics.Some?
    ensures WorkFromStart(m, i) != []
    ensures WorkFromStart(m, i)[|WorkFromStart(m, i)| - 1] == Desired(m.statistics.value.totalAssignedJobs, Ok)
    decreases |m.startedJobs| - i
  {
    if i < |m.startedJobs| {
      StartEndsWithDesired(m, i + 1);
    } else {
      CompleteEndsWithDesired(m, 0);
    }
  }

  lemma {:induction false} CompleteEndsWithDesired(m: Message, i: nat)
    requires m.statistics.Some?
    ensures WorkFromComplete(m, i) != []
    ensures WorkFromComplete(m, i)[|WorkFromComplete(m, i)| - 1] == Desired(m.statistics.value.totalAssignedJobs, Ok)
    decreases |m.completedJobs| - i
  {
    if i < |m.completedJobs| {
      CompleteEndsWithDesired(m, i + 1);
    }
  }
}
