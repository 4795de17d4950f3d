/** The loop together with the message queue of the server, over any number of
    runs, crashes and restarts: no message is lost.

    Assumptions on the server. Messages are published with increasing positive
    ids. A poll returns the queued message with the smallest id above its cursor.
    A queued message disappears only through a DELETE for its id; a DELETE whose
    answer was an error or never came may still take effect, at any later time. */
module Delivery {
  import opened Wrappers
  import opened Messages
  import opened Protocol
  import opened RunTraces

  /** One run of the loop: how it began, and its events. */
  datatype Run = Run(initial: Initial, latest: Option<Statistic>, events: seq<Event>)

  /** `published` is everything ever enqueued; `unsure` holds the ids of DELETEs
      without a confirmed answer. The last run is the current one. */
  datatype World = World(published: seq<Message>, queued: set<int>, unsure: set<int>, runs: seq<Run>)

  function StateOf(order: Order, run: Run): Option<State> {
    Replay(order, Begin(run.initial, run.latest), run.events)
  }

  ghost predicate Start(w: World) {
    w.published == [] && w.queued == {} && w.unsure == {} && w.runs == []
  }

  // ----- Steps -----

  ghost predicate Publish(w: World, w': World, m: Message) {
    && 0 < m.messageId
    && (forall p <- w.published :: p.messageId < m.messageId)
    && w' == w.(published := w.published + [m], queued := w.queued + {m.messageId})
  }

  /** A new run begins, wherever the last one was: it had ended, or it crashed. */
  ghost predicate Restart(w: World, w': World, initial: Initial, latest: Option<Statistic>) {
    w' == w.(runs := w.runs + [Run(initial, latest, [])])
  }

  /** The queue rule: the smallest queued id above the cursor. */
  ghost predicate Delivers(w: World, cursor: int, m: Message) {
    && m in w.published && m.messageId in w.queued && cursor < m.messageId
    && forall id <- w.queued :: cursor < id ==> m.messageId <= id
  }

  /** The current run takes one step, and the server sees the call. */
  ghost predicate Act(order: Order, w: World, w': World, e: Event) {
    w.runs != [] &&
    var run := w.runs[|w.runs| - 1];
    var s := StateOf(order, run);
    && s.Some? && Advance(order, s.value, e).Some?
    && (e.Polled? && e.outcome.Got? ==> Delivers(w, e.cursor, e.outcome.message))
    && w' == w.(
      runs := w.runs[..|w.runs| - 1] + [run.(events := run.events + [e])],
      queued := if e.Deleted? && e.answer.Ok? then w.queued - {e.messageId} else w.queued,
      unsure := if e.Deleted? && !e.answer.Ok? then w.unsure + {e.messageId} else w.unsure)
  }

  /** A DELETE without a confirmed answer takes effect after all. */
  ghost predicate LateDelete(w: World, w': World, id: int) {
    id in w.unsure && w' == w.(queued := w.queued - {id})
  }

  ghost predicate Next(order: Order, w: World, w': World) {
    || (exists m :: Publish(w, w', m))
    || (exists initial, latest :: Restart(w, w', initial, latest))
    || (exists e :: Act(order, w, w', e))
    || (exists id :: LateDelete(w, w', id))
  }

  ghost predicate NextAt(order: Order, history: seq<World>, i: nat)
    requires 0 < i < |history|
  {
    Next(order, history[i - 1], history[i])
  }

  ghost predicate History(order: Order, history: seq<World>) {
    && history != [] && Start(history[0])
    && forall i :: 0 < i < |history| ==> NextAt(order, history, i)
  }

  /** A history goes on with any next world. */
  lemma HistorySnoc(order: Order, history: seq<World>, w: World)
    requires History(order, history) && Next(order, history[|history| - 1], w)
    ensures History(order, history + [w])
  {
    var longer := history + [w];
    forall i | 0 < i < |longer|
      ensures NextAt(order, longer, i)
    {
      if i < |history| {
        assert NextAt(order, history, i);
      }
    }
  }

  // ----- Safety -----

  /** Some run deleted `m` after the whole work of `m` had succeeded in it. */
  ghost predicate ProcessedIn(run: Run, m: Message, i: nat) {
    && i < |run.events| && run.events[i].Deleted? && run.events[i].messageId == m.messageId
    && WorkedThrough(run.events, i, m)
  }

  ghost predicate Processed(w: World, m: Message) {
    exists r, i :: 0 <= r < |w.runs| && ProcessedIn(w.runs[r], m, i)
  }

  /** No message is lost: each is queued, or was completely processed before its DELETE. */
  ghost predicate NothingLost(w: World) {
    forall m <- w.published :: m.messageId in w.queued || Processed(w, m)
  }

  // ----- Invariant -----

  function Ids(published: seq<Message>): set<int> {
    set m <- published :: m.messageId
  }

  ghost predicate IdsIncrease(w: World) {
    && (forall m <- w.published :: 0 < m.messageId)
    && (forall i, j :: 0 <= i < j < |w.published| ==> w.published[i].messageId < w.published[j].messageId)
    && w.queued <= Ids(w.published)
  }

  ghost predicate RunsAccepted(w: World) {
    forall r :: 0 <= r < |w.runs| ==> StateOf(AckLast, w.runs[r]).Some?
  }

  ghost predicate ReceivedPublished(w: World) {
    forall r, i :: 0 <= r < |w.runs| && 0 <= i < |w.runs[r].events| ==>
      var e := w.runs[r].events[i];
      e.Polled? && e.outcome.Got? ==> e.outcome.message in w.published
  }

  ghost predicate DeleteSent(w: World, id: int) {
    exists r, i :: 0 <= r < |w.runs| && 0 <= i < |w.runs[r].events|
                   && w.runs[r].events[i].Deleted? && w.runs[r].events[i].messageId == id
  }

  ghost predicate GoneWereDeleted(w: World) {
    && (forall m <- w.published :: m.messageId in w.queued || DeleteSent(w, m.messageId))
    && (forall id <- w.unsure :: DeleteSent(w, id))
  }

  /** Nothing queued is at or below the cursor of a loop that polls, and nothing
      is before the message being handled. */
  ghost predicate CursorOk(published: seq<Message>, queued: set<int>, c: Control) {
    && (c.Polling? || c.IdleScaling? ==>
          (c.cursor == 0 || c.cursor in Ids(published)) && forall id <- queued :: c.cursor < id)
    && (Handling(c) ==> c.message in published && forall id <- queued :: c.message.messageId <= id)
  }

  ghost predicate CursorBelowQueue(w: World)
    requires RunsAccepted(w)
  {
    w.runs != [] ==> CursorOk(w.published, w.queued, StateOf(AckLast, w.runs[|w.runs| - 1]).value.control)
  }

  ghost predicate Inv(w: World) {
    IdsIncrease(w) && RunsAccepted(w) && ReceivedPublished(w) && GoneWereDeleted(w) && CursorBelowQueue(w)
  }

  lemma SentStays(w: World, w': World, id: int)
    requires DeleteSent(w, id)
    requires |w.runs| <= |w'.runs|
    requires forall r :: 0 <= r < |w.runs| ==> w.runs[r].events <= w'.runs[r].events
    ensures DeleteSent(w', id)
  {
    var r, i :| 0 <= r < |w.runs| && 0 <= i < |w.runs[r].events|
                && w.runs[r].events[i].Deleted? && w.runs[r].events[i].messageId == id;
    assert w'.runs[r].events[i] == w.runs[r].events[i];
  }

  lemma PublishKeepsInv(w: World, w': World, m: Message)
    requires Inv(w) && Publish(w, w', m)
    ensures Inv(w')
  {
    PublishKeepsIds(w, w', m);
    assert RunsAccepted(w') && ReceivedPublished(w');
    PublishKeepsGone(w, w', m);
    PublishKeepsCursor(w, w', m);
  }

  lemma PublishKeepsIds(w: World, w': World, m: Message)
    requires IdsIncrease(w) && Publish(w, w', m)
    ensures IdsIncrease(w')
  {
    assert Ids(w'.published) == Ids(w.published) + {m.messageId};
  }

  lemma PublishKeepsGone(w: World, w': World, m: Message)
    requires GoneWereDeleted(w) && Publish(w, w', m)
    ensures GoneWereDeleted(w')
  {
    forall id | DeleteSent(w, id)
      ensures DeleteSent(w', id)
    {
      SentStays(w, w', id);
    }
  }

  lemma PublishKeepsCursor(w: World, w': World, m: Message)
    requires IdsIncrease(w) && RunsAccepted(w) && RunsAccepted(w') && CursorBelowQueue(w) && Publish(w, w', m)
    ensures CursorBelowQueue(w')
  {
    assert Ids(w'.published) == Ids(w.published) + {m.messageId};
    assert w'.runs == w.runs;
  }

  lemma RestartKeepsGone(w: World, w': World, initial: Initial, latest: Option<Statistic>)
    requires GoneWereDeleted(w) && Restart(w, w', initial, latest)
    ensures GoneWereDeleted(w')
  {
    forall id | DeleteSent(w, id)
      ensures DeleteSent(w', id)
    {
      SentStays(w, w', id);
    }
  }

  lemma RestartKeepsInv(w: World, w': World, initial: Initial, latest: Option<Statistic>)
    requires Inv(w) && Restart(w, w', initial, latest)
    ensures Inv(w')
  {
    RestartKeepsGone(w, w', initial, latest);
    assert IdsIncrease(w') && RunsAccepted(w') && ReceivedPublished(w');
    assert StateOf(AckLast, w'.runs[|w'.runs| - 1]) == Some(Begin(initial, latest));
  }

  lemma LateDeleteKeepsGone(w: World, w': World, id: int)
    requires GoneWereDeleted(w) && LateDelete(w, w', id)
    ensures GoneWereDeleted(w')
  {
    forall x | DeleteSent(w, x)
      ensures DeleteSent(w', x)
    {
      SentStays(w, w', x);
    }
  }

  lemma LateDeleteKeepsInv(w: World, w': World, id: int)
    requires Inv(w) && LateDelete(w, w', id)
    ensures Inv(w')
  {
    LateDeleteKeepsGone(w, w', id);
    assert w'.runs == w.runs && w'.published == w.published && w'.queued <= w.queued;
    assert IdsIncrease(w') && RunsAccepted(w') && ReceivedPublished(w');
  }

  lemma ActKeepsRuns(w: World, w': World, e: Event)
    requires RunsAccepted(w) && Act(AckLast, w, w', e)
    ensures RunsAccepted(w') && |w'.runs| == |w.runs|
    ensures
      var n := |w.runs| - 1;
      && StateOf(AckLast, w'.runs[n]) == Advance(AckLast, StateOf(AckLast, w.runs[n]).value, e)
      && w'.runs[n].events == w.runs[n].events + [e]
      && forall r :: 0 <= r < n ==> w'.runs[r] == w.runs[r]
  {
    var run := w.runs[|w.runs| - 1];
    ReplaySnoc(AckLast, Begin(run.initial, run.latest), run.events, e);
  }

  lemma ActKeepsReceived(w: World, w': World, e: Event)
    requires RunsAccepted(w) && ReceivedPublished(w) && Act(AckLast, w, w', e)
    ensures ReceivedPublished(w')
  {
    ActKeepsRuns(w, w', e);
    forall r, i | 0 <= r < |w'.runs| && 0 <= i < |w'.runs[r].events|
                  && w'.runs[r].events[i].Polled? && w'.runs[r].events[i].outcome.Got?
      ensures w'.runs[r].events[i].outcome.message in w'.published
    {
      if i < |w.runs[r].events| {
        assert w'.runs[r].events[i] == w.runs[r].events[i];
      }
    }
  }

  lemma ActKeepsGone(w: World, w': World, e: Event)
    requires RunsAccepted(w) && GoneWereDeleted(w) && Act(AckLast, w, w', e)
    ensures GoneWereDeleted(w')
  {
    ActKeepsRuns(w, w', e);
    forall id | DeleteSent(w, id)
      ensures DeleteSent(w', id)
    {
      SentStays(w, w', id);
    }
    if e.Deleted? {
      var n := |w.runs| - 1;
      assert w'.runs[n].events[|w.runs[n].events|] == e;
      assert DeleteSent(w', e.messageId);
    }
  }

  lemma ActKeepsCursor(w: World, w': World, e: Event)
    requires Inv(w) && Act(AckLast, w, w', e) && RunsAccepted(w')
    ensures CursorBelowQueue(w')
  {
    ActKeepsRuns(w, w', e);
    var s := StateOf(AckLast, w.runs[|w.runs| - 1]).value;
    CursorStep(w, s, e);
  }

  lemma CursorStep(w: World, s: State, e: Event)
    requires IdsIncrease(w) && CursorOk(w.published, w.queued, s.control) && Advance(AckLast, s, e).Some?
    requires e.Polled? && e.outcome.Got? ==> Delivers(w, e.cursor, e.outcome.message)
    ensures CursorOk(
              w.published, if e.Deleted? && e.answer.Ok? then w.queued - {e.messageId} else w.queued,
              Advance(AckLast, s, e).value.control)
  {
    assert forall id <- w.queued :: 0 < id;
  }

  lemma ActKeepsInv(w: World, w': World, e: Event)
    requires Inv(w) && Act(AckLast, w, w', e)
    ensures Inv(w')
  {
    ActKeepsRuns(w, w', e);
    ActKeepsReceived(w, w', e);
    ActKeepsGone(w, w', e);
    ActKeepsCursor(w, w', e);
  }

  lemma StepKeepsInv(w: World, w': World)
    requires Inv(w) && Next(AckLast, w, w')
    ensures Inv(w')
  {
    if m :| Publish(w, w', m) {
      PublishKeepsInv(w, w', m);
    } else if initial, latest :| Restart(w, w', initial, latest) {
      RestartKeepsInv(w, w', initial, latest);
    } else if e :| Act(AckLast, w, w', e) {
      ActKeepsInv(w, w', e);
    } else {
      var id :| LateDelete(w, w', id);
      LateDeleteKeepsInv(w, w', id);
    }
  }

  lemma {:induction false} HistoryKeepsInv(history: seq<World>, i: nat)
    requires History(AckLast, history) && i < |history|
    ensures Inv(history[i])
  {
    if i > 0 {
      HistoryKeepsInv(history, i - 1);
      assert NextAt(AckLast, history, i);
      StepKeepsInv(history[i - 1], history[i]);
    }
  }

  lemma DeletedWasProcessed(w: World, m: Message)
    requires Inv(w) && m in w.published && DeleteSent(w, m.messageId)
    ensures Processed(w, m)
  {
    var r, i :| 0 <= r < |w.runs| && 0 <= i < |w.runs[r].events|
                && w.runs[r].events[i].Deleted? && w.runs[r].events[i].messageId == m.messageId;
    var run := w.runs[r];
    var got := DeleteAfterWork(run.initial, run.latest, run.events, StateOf(AckLast, run).value, i);
    assert run.events[i - |Work(got)| - 1].outcome.message in w.published;
    assert got == m;
    assert ProcessedIn(w.runs[r], m, i);
  }

  /** The headline: in every history of publications, runs, failures, lost
      answers, cancelled polls, crashes and restarts, nothing is lost. */
  lemma NoMessageLost(history: seq<World>, i: nat)
    requires History(AckLast, history) && i < |history|
    ensures NothingLost(history[i])
  {
    HistoryKeepsInv(history, i);
    var w := history[i];
    forall m | m in w.published
      ensures m.messageId in w.queued || Processed(w, m)
    {
      if m.messageId !in w.queued {
        DeletedWasProcessed(w, m);
      }
    }
  }

  /** The cursor never hides work: whenever the loop polls, every queued message
      is above its cursor, in every run. */
  lemma CursorSound(history: seq<World>, i: nat)
    requires History(AckLast, history) && i < |history| && history[i].runs != []
    ensures
      var s := StateOf(AckLast, history[i].runs[|history[i].runs| - 1]);
      s.Some? && (s.value.control.Polling? ==> forall id <- history[i].queued :: s.value.control.cursor < id)
  {
    HistoryKeepsInv(history, i);
  }

  lemma {:induction false} Smallest(ids: set<int>, x: int) returns (least: int)
    requires x in ids
    ensures least in ids && least <= x && forall id <- ids :: least <= id
  {
    if y :| y in ids && y < x {
      least := Smallest(ids - {x}, y);
      assert forall id <- ids :: id == x || id in ids - {x};
    } else {
      least := x;
    }
  }

  /** At-least-once delivery: a message that is still queued, for instance because
      its processing failed in an earlier run, is within reach of the next poll:
      the server has a message to deliver, and none that comes after this one. */
  lemma QueuedIsWithinReach(history: seq<World>, i: nat, cursor: int, m: Message) returns (next: Message)
    requires History(AckLast, history) && i < |history| && history[i].runs != []
    requires
      var s := StateOf(AckLast, history[i].runs[|history[i].runs| - 1]);
      s.Some? && s.value.control == Polling(cursor)
    requires m in history[i].published && m.messageId in history[i].queued
    ensures Delivers(history[i], cursor, next) && next.messageId <= m.messageId
  {
    HistoryKeepsInv(history, i);
    var w := history[i];
    var least := Smallest(w.queued, m.messageId);
    assert least in Ids(w.published);
    next :| next in w.published && next.messageId == least;
  }

  /** A message without statistics is never deleted, in any run. */
  lemma NoStatisticsNeverDeleted(history: seq<World>, i: nat, m: Message)
    requires History(AckLast, history) && i < |history|
    requires m in history[i].published && m.statistics.None?
    ensures m.messageId in history[i].queued && !DeleteSent(history[i], m.messageId)
  {
    HistoryKeepsInv(history, i);
    if DeleteSent(history[i], m.messageId) {
      DeletedWasProcessed(history[i], m);
    }
  }

  /** No run has received a message with an id above `id`. */
  ghost predicate ReceivedUpTo(w: World, id: int) {
    forall r, k :: 0 <= r < |w.runs| && 0 <= k < |w.runs[r].events| ==>
      var e := w.runs[r].events[k];
      e.Polled? && e.outcome.Got? ==> e.outcome.message.messageId <= id
  }

  /** A poll never delivers past a queued message. */
  lemma NotPast(w: World, s: State, e: Event, id: int)
    requires CursorOk(w.published, w.queued, s.control) && Advance(AckLast, s, e).Some? && id in w.queued
    requires e.Polled? && e.outcome.Got? && Delivers(w, e.cursor, e.outcome.message)
    ensures e.outcome.message.messageId <= id
  {
  }

  lemma UpToSnoc(w: World, w': World, e: Event, id: int)
    requires ReceivedUpTo(w, id) && (e.Polled? && e.outcome.Got? ==> e.outcome.message.messageId <= id)
    requires 0 < |w.runs| == |w'.runs| && w'.runs[..|w.runs| - 1] == w.runs[..|w.runs| - 1]
    requires w'.runs[|w.runs| - 1].events == w.runs[|w.runs| - 1].events + [e]
    ensures ReceivedUpTo(w', id)
  {
    forall r, k | 0 <= r < |w'.runs| && 0 <= k < |w'.runs[r].events|
                  && w'.runs[r].events[k].Polled? && w'.runs[r].events[k].outcome.Got?
      ensures w'.runs[r].events[k].outcome.message.messageId <= id
    {
      if k < |w.runs[r].events| {
        assert w'.runs[r].events[k] == w.runs[r].events[k];
      } else {
        assert w'.runs[r].events[k] == e;
      }
    }
  }

  lemma ActUpTo(w: World, w': World, e: Event, m: Message)
    requires RunsAccepted(w) && CursorBelowQueue(w) && Act(AckLast, w, w', e)
    requires ReceivedUpTo(w, m.messageId) && m.messageId in w.queued
    ensures ReceivedUpTo(w', m.messageId)
  {
    ActKeepsRuns(w, w', e);
    if e.Polled? && e.outcome.Got? {
      NotPast(w, StateOf(AckLast, w.runs[|w.runs| - 1]).value, e, m.messageId);
    }
    UpToSnoc(w, w', e, m.messageId);
  }

  lemma StepUpTo(w: World, w': World, m: Message)
    requires Inv(w) && Next(AckLast, w, w') && m in w'.published
    requires m in w.published ==> ReceivedUpTo(w, m.messageId) && m.messageId in w.queued
    ensures ReceivedUpTo(w', m.messageId)
  {
    if p :| Publish(w, w', p) {
    } else if initial, latest :| Restart(w, w', initial, latest) {
      assert ReceivedUpTo(w', m.messageId);
    } else if e :| Act(AckLast, w, w', e) {
      ActUpTo(w, w', e, m);
    }
  }

  /** A message without statistics blocks the queue for ever: in no history does
      any run receive a message that was published after it. */
  lemma {:induction false} NoStatisticsBlocksQueue(history: seq<World>, i: nat, m: Message)
    requires History(AckLast, history) && i < |history|
    requires m in history[i].published && m.statistics.None?
    ensures ReceivedUpTo(history[i], m.messageId)
  {
    if i > 0 {
      assert NextAt(AckLast, history, i);
      HistoryKeepsInv(history, i - 1);
      if m in history[i - 1].published {
        NoStatisticsBlocksQueue(history, i - 1, m);
        NoStatisticsNeverDeleted(history, i - 1, m);
      }
      StepUpTo(history[i - 1], history[i], m);
    }
  }

  // ----- Repeated delivery -----

  ghost predicate AllRise(w: World) {
    forall r :: 0 <= r < |w.runs| ==> PollsRise(w.runs[r].events)
  }

  lemma StepRises(w: World, w': World)
    requires AllRise(w) && Next(AckLast, w, w')
    ensures AllRise(w')
  {
    if p :| Publish(w, w', p) {
    } else if initial, latest :| Restart(w, w', initial, latest) {
    } else if e :| Act(AckLast, w, w', e) {
      forall r | 0 <= r < |w'.runs|
        ensures PollsRise(w'.runs[r].events)
      {
        assert PollsRise(w.runs[r].events);
      }
    }
  }

  lemma {:induction false} HistoryRises(history: seq<World>, i: nat)
    requires History(AckLast, history) && i < |history|
    ensures AllRise(history[i])
  {
    if i > 0 {
      HistoryRises(history, i - 1);
      assert NextAt(AckLast, history, i);
      StepRises(history[i - 1], history[i]);
    }
  }

  /** The ids received by one run rise strictly, so no run receives a message
      twice: only a later run sees a message again. */
  lemma ReceivedOncePerRun(history: seq<World>, i: nat, r: nat)
    requires History(AckLast, history) && i < |history| && r < |history[i].runs|
    ensures
      var ids := Received(history[i].runs[r].events);
      forall j, k :: 0 <= j < k < |ids| ==> ids[j] < ids[k]
  {
    HistoryKeepsInv(history, i);
    HistoryRises(history, i);
    var run := history[i].runs[r];
    ReceivedRise(run.initial, run.latest, run.events, StateOf(AckLast, run).value);
  }

  /** A DELETE that was answered with an error, or never, can take effect at once or
      later, and nothing is lost by that either. */
  lemma LostDeleteTakesEffect(history: seq<World>, w: World, e: Event) returns (longer: seq<World>)
    requires History(AckLast, history) && Act(AckLast, history[|history| - 1], w, e)
    requires e.Deleted? && e.answer != Ok
    ensures History(AckLast, longer) && history + [w] <= longer && longer != []
    ensures longer[|longer| - 1] == w.(queued := w.queued - {e.messageId}) && NothingLost(longer[|longer| - 1])
  {
    HistorySnoc(AckLast, history, w);
    var later := w.(queued := w.queued - {e.messageId});
    assert LateDelete(w, later, e.messageId);
    HistorySnoc(AckLast, history + [w], later);
    longer := history + [w] + [later];
    NoMessageLost(longer, |longer| - 1);
  }

  // ----- When a queued message can be processed -----

  function Now(history: seq<World>): World
    requires history != []
  {
    history[|history| - 1]
  }

  /** Every queued message up to `m` has statistics: what the publisher of the
      messages can check, and the guard of `process`. */
  ghost predicate Unblocked(w: World, m: Message) {
    forall x <- w.published :: x.messageId in w.queued && x.messageId <= m.messageId ==> x.statistics.Some?
  }

  /** `longer` goes on from `history` until `m` is processed and out of the queue. */
  ghost predicate Delivered(history: seq<World>, longer: seq<World>, m: Message) {
    && History(AckLast, longer) && history <= longer
    && longer != [] && Processed(Now(longer), m) && m.messageId !in Now(longer).queued
  }

  /** The current run is in state `s`. */
  ghost predicate CurrentAt(w: World, s: State) {
    w.runs != [] && StateOf(AckLast, w.runs[|w.runs| - 1]) == Some(s)
  }

  /** `longer` goes on from `history` with successful calls of the current run
      only, which leave `queued` in the queue and the run in state `s`. */
  ghost predicate GoesOn(history: seq<World>, longer: seq<World>, queued: set<int>, s: State) {
    && History(AckLast, history) && History(AckLast, longer) && history <= longer
    && Now(history).runs != [] && CurrentAt(Now(longer), s) && Now(longer).queued == queued
    && Now(longer).published == Now(history).published
    && |Now(longer).runs| == |Now(history).runs|
    && Now(longer).runs[..|Now(longer).runs| - 1] == Now(history).runs[..|Now(history).runs| - 1]
  }

  /** The world after a call of the current run. */
  function AfterCall(w: World, e: Event): World
    requires w.runs != []
  {
    var run := w.runs[|w.runs| - 1];
    w.(runs := w.runs[..|w.runs| - 1] + [run.(events := run.events + [e])],
       queued := if e.Deleted? then w.queued - {e.messageId} else w.queued)
  }

  lemma CallActs(w: World, s: State, e: Event)
    requires CurrentAt(w, s) && Advance(AckLast, s, e).Some? && Succeeded(e)
    requires e.Polled? && e.outcome.Got? ==> Delivers(w, e.cursor, e.outcome.message)
    ensures Act(AckLast, w, AfterCall(w, e), e)
  {
  }

  lemma CallKeepsRest(w: World, e: Event)
    requires w.runs != []
    ensures |AfterCall(w, e).runs| == |w.runs| && AfterCall(w, e).published == w.published
    ensures AfterCall(w, e).runs[..|w.runs| - 1] == w.runs[..|w.runs| - 1]
  {
  }

  lemma CallAdvances(w: World, s: State, e: Event, s': State)
    requires CurrentAt(w, s) && Advance(AckLast, s, e) == Some(s')
    ensures CurrentAt(AfterCall(w, e), s')
  {
    var run := w.runs[|w.runs| - 1];
    ReplaySnoc(AckLast, Begin(run.initial, run.latest), run.events, e);
  }

  lemma Call(history: seq<World>, s: State, e: Event) returns (longer: seq<World>)
    requires History(AckLast, history) && CurrentAt(Now(history), s)
    requires Advance(AckLast, s, e).Some? && Succeeded(e)
    requires e.Polled? && e.outcome.Got? ==> Delivers(Now(history), e.cursor, e.outcome.message)
    ensures
      var queued := Now(history).queued;
      GoesOn(history, longer, if e.Deleted? then queued - {e.messageId} else queued, Advance(AckLast, s, e).value)
  {
    var w := Now(history);
    CallActs(w, s, e);
    CallKeepsRest(w, e);
    CallAdvances(w, s, e, Advance(AckLast, s, e).value);
    HistorySnoc(AckLast, history, AfterCall(w, e));
    longer := history + [AfterCall(w, e)];
  }

  /** The job that is to be reported next exists. */
  predicate InRange(c: Control) {
    && (c.Starting? ==> c.next < |c.message.startedJobs|)
    && (c.Completing? ==> c.next < |c.message.completedJobs|)
  }

  /** While there is work left, its first call can be made, and can succeed. */
  lemma WorkCanGoOn(s: State)
    requires Handling(s.control) && !s.control.Acking? && StatsOk(s.control) && InRange(s.control)
    ensures WorkLeft(s.control) != []
    ensures
      var e := WorkLeft(s.control)[0];
      && Succeeded(e) && !e.Polled? && !e.Deleted?
      && Advance(AckLast, s, e).Some? && InRange(Advance(AckLast, s, e).value.control)
  {
  }

  /** All the work that is left can succeed. */
  lemma {:induction false} WorkOff(history: seq<World>, s: State) returns (longer: seq<World>, s': State)
    requires History(AckLast, history) && CurrentAt(Now(history), s)
    requires Handling(s.control) && StatsOk(s.control) && InRange(s.control)
    ensures s'.control.Acking? && s'.control.message == s.control.message
    ensures GoesOn(history, longer, Now(history).queued, s')
    decreases |WorkLeft(s.control)|
  {
    if s.control.Acking? {
      longer, s' := history, s;
    } else {
      WorkCanGoOn(s);
      var e := WorkLeft(s.control)[0];
      WorkLeftShrinks(s, e);
      longer := Call(history, s, e);
      longer, s' := WorkOff(longer, Advance(AckLast, s, e).value);
    }
  }

  /** A polling run can receive, process and delete the first queued message. */
  lemma DeliverNext(history: seq<World>, s: State, m: Message) returns (longer: seq<World>, s': State, next: Message)
    requires History(AckLast, history) && CurrentAt(Now(history), s) && s.control.Polling?
    requires m in Now(history).published && m.messageId in Now(history).queued && Unblocked(Now(history), m)
    ensures next in Now(history).published && next.messageId in Now(history).queued && next.messageId <= m.messageId
    ensures s'.control.Polling?
    ensures GoesOn(history, longer, Now(history).queued - {next.messageId}, s')
  {
    var cursor := s.control.cursor;
    next := QueuedIsWithinReach(history, |history| - 1, cursor, m);
    var poll := Polled(cursor, 0, Got(next));
    longer := Call(history, s, poll);
    longer, s' := WorkOff(longer, Advance(AckLast, s, poll).value);
    var ack := Deleted(next.messageId, Ok);
    longer := Call(longer, s', ack);
    s' := Advance(AckLast, s', ack).value;
  }

  /** One after the other, all queued messages up to `m`. */
  lemma {:induction false} DeliverUpTo(history: seq<World>, s: State, m: Message)
    returns (longer: seq<World>, s': State)
    requires History(AckLast, history) && CurrentAt(Now(history), s) && s.control.Polling?
    requires m in Now(history).published && m.messageId in Now(history).queued && Unblocked(Now(history), m)
    ensures longer != [] && GoesOn(history, longer, Now(longer).queued, s')
    ensures s'.control.Polling? && m.messageId !in Now(longer).queued
    decreases Now(history).queued
  {
    var next;
    longer, s', next := DeliverNext(history, s, m);
    if next.messageId != m.messageId {
      longer, s' := DeliverUpTo(longer, s', m);
    }
  }

  /** A new run comes to its first poll. */
  lemma BootAgain(history: seq<World>, stats: Statistic) returns (longer: seq<World>, s: State)
    requires History(AckLast, history)
    ensures History(AckLast, longer) && history <= longer && CurrentAt(Now(longer), s) && s.control.Polling?
    ensures Now(longer).published == Now(history).published && Now(longer).queued == Now(history).queued
    ensures |Now(longer).runs| == |Now(history).runs| + 1
    ensures Now(longer).runs[..|Now(history).runs|] == Now(history).runs
  {
    var w := Now(history);
    var initial := Initial(false, Some(stats));
    var w' := w.(runs := w.runs + [Run(initial, None, [])]);
    assert Restart(w, w', initial, None);
    HistorySnoc(AckLast, history, w');
    longer := history + [w'];
    var store, scale := Stored(stats), Desired(stats.totalAssignedJobs, Ok);
    s := Begin(initial, None);
    longer := Call(longer, s, store);
    s := Advance(AckLast, s, store).value;
    longer := Call(longer, s, scale);
    s := Advance(AckLast, s, scale).value;
  }

  /** The "if" half: one further run, in which no call fails, is enough. */
  lemma OneRunDelivers(history: seq<World>, m: Message) returns (longer: seq<World>)
    requires History(AckLast, history)
    requires m in Now(history).published && m.messageId in Now(history).queued && Unblocked(Now(history), m)
    ensures Delivered(history, longer, m) && Now(longer).published == Now(history).published
    ensures |Now(longer).runs| == |Now(history).runs| + 1
    ensures Now(longer).runs[..|Now(history).runs|] == Now(history).runs
    ensures forall e <- Now(longer).runs[|Now(history).runs|].events :: Succeeded(e)
  {
    var s;
    longer, s := BootAgain(history, m.statistics.value);
    longer, s := DeliverUpTo(longer, s, m);
    NoMessageLost(longer, |longer| - 1);
    var run := Now(longer).runs[|Now(history).runs|];
    forall i | 0 <= i < |run.events|
      ensures Succeeded(run.events[i])
    {
      EndsAtFirstFailure(run.initial, run.latest, run.events, s, i);
    }
  }

  /** What was published stays published. */
  lemma {:induction false} PublishedStays(history: seq<World>, i: nat, j: nat)
    requires History(AckLast, history) && i <= j < |history|
    ensures forall x <- history[i].published :: x in history[j].published
    decreases j - i
  {
    if i < j {
      PublishedStays(history, i, j - 1);
      assert NextAt(AckLast, history, j);
    }
  }

  lemma ProcessedWasReceived(w: World, m: Message) returns (r: nat, i: nat)
    requires Processed(w, m)
    ensures r < |w.runs| && i < |w.runs[r].events|
    ensures w.runs[r].events[i].Polled? && w.runs[r].events[i].outcome == Got(m)
    ensures m.statistics.Some?
  {
    var k: nat;
    r, k :| 0 <= r < |w.runs| && ProcessedIn(w.runs[r], m, k);
    i := k - |Work(m)| - 1;
  }

  lemma SameId(w: World, x: Message, y: Message)
    requires IdsIncrease(w) && x in w.published && y in w.published && x.messageId == y.messageId
    ensures x == y
  {
    var i :| 0 <= i < |w.published| && w.published[i] == x;
    var j :| 0 <= j < |w.published| && w.published[j] == y;
    assert !(i < j) && !(j < i);
  }

  /** The "only if" half: what comes at or after a message without statistics is
      not processed in any history. */
  lemma NotProcessedAfter(history: seq<World>, i: nat, x: Message, m: Message)
    requires History(AckLast, history) && i < |history|
    requires x in history[i].published && x.statistics.None?
    requires m in history[i].published && x.messageId <= m.messageId
    ensures !Processed(history[i], m)
  {
    if Processed(history[i], m) {
      var r, k := ProcessedWasReceived(history[i], m);
      NoStatisticsBlocksQueue(history, i, x);
      HistoryKeepsInv(history, i);
      SameId(history[i], x, m);
    }
  }

  /** A queued message can still be processed and acknowledged, in some future,
      if and only if no queued message up to it lacks statistics. */
  lemma DeliverableIffUnblocked(history: seq<World>, m: Message)
    requires History(AckLast, history)
    requires m in Now(history).published && m.messageId in Now(history).queued
    ensures (exists longer :: Delivered(history, longer, m)) <==> Unblocked(Now(history), m)
  {
    if Unblocked(Now(history), m) {
      var longer := OneRunDelivers(history, m);
    } else {
      var x :| x in Now(history).published && x.messageId <= m.messageId && x.statistics.None?;
      forall longer | History(AckLast, longer) && history <= longer
        ensures !Delivered(history, longer, m)
      {
        PublishedStays(longer, |history| - 1, |longer| - 1);
        NotProcessedAfter(longer, |longer| - 1, x, m);
      }
    }
  }
}
