/** How soon a queued message is processed: every run whose calls succeed and whose
    polls bring messages gets to it within a number of events known beforehand. */
module DeliveryProgress {
  import opened Wrappers
  import opened Messages
  import opened Protocol
  import opened RunTraces
  import opened Delivery

  // ----- The backlog -----

  /** The events that handle a message: its poll, its work and its DELETE. */
  function Cost(m: Message): nat {
    if m.statistics.Some? then |Work(m)| + 2 else 0
  }

  /** The events that handle the queued messages up to `id`. */
  function Backlog(published: seq<Message>, queued: set<int>, id: int): nat {
    if published == [] then 0
    else
      var m := published[|published| - 1];
      Backlog(published[..|published| - 1], queued, id)
      + (if m.messageId in queued && m.messageId <= id then Cost(m) else 0)
  }

  lemma {:induction false} BacklogMonotone(published: seq<Message>, fewer: set<int>, queued: set<int>, id: int)
    requires forall x <- published :: x.messageId <= id && x.messageId in fewer ==> x.messageId in queued
    ensures Backlog(published, fewer, id) <= Backlog(published, queued, id)
  {
    if published != [] {
      BacklogMonotone(published[..|published| - 1], fewer, queued, id);
    }
  }

  /** A message that leaves the queue takes its cost off the backlog. */
  lemma {:induction false} BacklogWithout(published: seq<Message>, queued: set<int>, m: Message, id: int)
    requires forall i, j :: 0 <= i < j < |published| ==> published[i].messageId < published[j].messageId
    requires m in published && m.messageId in queued && m.messageId <= id
    ensures Backlog(published, queued, id) == Backlog(published, queued - {m.messageId}, id) + Cost(m)
  {
    var before, last := published[..|published| - 1], published[|published| - 1];
    if m == last {
      BacklogMonotone(before, queued, queued - {m.messageId}, id);
      BacklogMonotone(before, queued - {m.messageId}, queued, id);
    } else {
      BacklogWithout(before, queued, m, id);
    }
  }

  // ----- What is ahead of the current run -----

  ghost predicate HasRun(w: World) {
    w.runs != [] && StateOf(AckLast, w.runs[|w.runs| - 1]).Some?
  }

  ghost function Current(w: World): State
    requires HasRun(w)
  {
    StateOf(AckLast, w.runs[|w.runs| - 1]).value
  }

  ghost function Events(w: World): seq<Event>
    requires w.runs != []
  {
    w.runs[|w.runs| - 1].events
  }

  /** The queued messages whose handling has not begun. */
  function Waiting(queued: set<int>, c: Control): set<int> {
    if Handling(c) then queued - {c.message.messageId} else queued
  }

  /** The events that the current turn and the queued messages up to `id` take. */
  function Ahead(published: seq<Message>, queued: set<int>, s: State, id: int): nat {
    |Rest(s)| + Backlog(published, Waiting(queued, s.control), id)
  }

  ghost function AheadOf(w: World, id: int): nat
    requires HasRun(w)
  {
    Ahead(w.published, w.queued, Current(w), id)
  }

  /** A successful call, or a poll that brings a message. */
  predicate Productive(e: Event) {
    Succeeded(e) && !e.StopSeen? && (e.Polled? ==> e.outcome.Got?)
  }

  /** The part of the invariant that is needed here. */
  ghost predicate Sound(w: World) {
    IdsIncrease(w) && RunsAccepted(w) && CursorBelowQueue(w)
  }

  lemma SoundAt(history: seq<World>, i: nat)
    requires History(AckLast, history) && i < |history|
    ensures Sound(history[i])
  {
    HistoryKeepsInv(history, i);
  }

  /** Something is ahead as long as the message is queued. */
  lemma QueuedIsAhead(w: World, m: Message)
    requires Sound(w) && HasRun(w) && StatsOk(Current(w).control)
    requires m in w.published && m.messageId in w.queued && Unblocked(w, m)
    ensures AheadOf(w, m.messageId) > 0
  {
    if !Handling(Current(w).control) {
      BacklogWithout(w.published, w.queued, m, m.messageId);
    }
  }

  lemma PollStarts(w: World, s: State, e: Event, s': State)
    requires Advance(AckLast, s, e) == Some(s') && e.Polled? && e.outcome.Got?
    requires e.outcome.message.statistics.Some?
    ensures !Handling(s.control) && Rest(s) == []
    ensures Handling(s'.control) && s'.control.message == e.outcome.message
    ensures |Rest(s')| + 1 == Cost(e.outcome.message)
  {
  }

  /** A productive poll takes its message off the backlog. */
  lemma PollSpends(w: World, s: State, e: Event, s': State, m: Message)
    requires IdsIncrease(w) && CursorOk(w.published, w.queued, s.control)
    requires Advance(AckLast, s, e) == Some(s') && e.Polled? && e.outcome.Got?
    requires Delivers(w, e.cursor, e.outcome.message)
    requires m in w.published && m.messageId in w.queued && Unblocked(w, m)
    ensures Ahead(w.published, w.queued, s', m.messageId) + 1 == Ahead(w.published, w.queued, s, m.messageId)
  {
    NotPast(w, s, e, m.messageId);
    PollStarts(w, s, e, s');
    BacklogWithout(w.published, w.queued, e.outcome.message, m.messageId);
  }

  lemma CallWaits(queued: set<int>, s: State, e: Event, s': State)
    requires StatsOk(s.control) && Advance(AckLast, s, e) == Some(s')
    requires !e.Polled? && !e.StopSeen? && Succeeded(e)
    ensures Waiting(if e.Deleted? then queued - {e.messageId} else queued, s'.control) == Waiting(queued, s.control)
  {
    if Handling(s.control) && !s.control.Acking? {
      WorkLeftShrinks(s, e);
    }
  }

  /** A successful call takes itself off the rest of the turn. */
  lemma CallSpends(published: seq<Message>, queued: set<int>, s: State, e: Event, s': State, id: int)
    requires StatsOk(s.control) && Advance(AckLast, s, e) == Some(s')
    requires !e.Polled? && !e.StopSeen? && Succeeded(e)
    ensures
      var left := if e.Deleted? then queued - {e.messageId} else queued;
      Ahead(published, left, s', id) + 1 == Ahead(published, queued, s, id)
  {
    RestShrinks(s, e);
    CallWaits(queued, s, e, s');
  }

  // ----- Along a run -----

  lemma StatsAlong(w: World)
    requires HasRun(w)
    ensures StatsOk(Current(w).control)
  {
    var run := w.runs[|w.runs| - 1];
    HandlingIsUnderway(run.initial, run.latest, run.events, Current(w));
  }

  /** A productive step of the current run comes one event closer. */
  lemma ActSpends(w: World, w': World, e: Event, m: Message)
    requires Sound(w) && Act(AckLast, w, w', e) && Productive(e)
    requires m in w.published && m.messageId in w.queued && Unblocked(w, m)
    ensures HasRun(w) && HasRun(w')
    ensures AheadOf(w', m.messageId) + 1 == AheadOf(w, m.messageId)
  {
    ActKeepsRuns(w, w', e);
    StatsAlong(w);
    if e.Polled? {
      PollSpends(w, Current(w), e, Current(w'), m);
    } else {
      CallSpends(w.published, w.queued, Current(w), e, Current(w'), m.messageId);
    }
  }

  /** A later message is not ahead. */
  lemma PublishSpends(w: World, w': World, p: Message, m: Message)
    requires HasRun(w) && HasRun(w') && Publish(w, w', p) && m in w.published
    ensures AheadOf(w', m.messageId) <= AheadOf(w, m.messageId)
  {
    var c := Current(w).control;
    assert w'.published[..|w.published|] == w.published;
    BacklogMonotone(w.published, Waiting(w'.queued, c), Waiting(w.queued, c), m.messageId);
  }

  /** A DELETE that takes effect late puts nothing ahead. */
  lemma LateDeleteSpends(w: World, w': World, id: int, m: Message)
    requires HasRun(w) && HasRun(w') && LateDelete(w, w', id)
    ensures AheadOf(w', m.messageId) <= AheadOf(w, m.messageId)
  {
    var c := Current(w).control;
    BacklogMonotone(w.published, Waiting(w'.queued, c), Waiting(w.queued, c), m.messageId);
  }

  lemma StaysUnblocked(w: World, w': World, m: Message)
    requires Next(AckLast, w, w') && m in w.published && Unblocked(w, m)
    ensures m in w'.published && Unblocked(w', m)
  {
  }

  /** One step of a history in which no run begins: either it is a step of the
      current run, or it adds nothing to that run. */
  lemma RunGoesOn(w: World, w': World)
    requires Sound(w) && Next(AckLast, w, w') && w.runs != []
    ensures |w.runs| <= |w'.runs|
    ensures |w'.runs| == |w.runs| ==>
              || (w'.runs == w.runs && ((exists p :: Publish(w, w', p)) || (exists id :: LateDelete(w, w', id))))
              || exists e :: Act(AckLast, w, w', e) && Events(w') == Events(w) + [e]
  {
    if e :| Act(AckLast, w, w', e) {
      ActKeepsRuns(w, w', e);
    }
  }

  lemma {:induction false} RunGrows(history: seq<World>, i: nat, j: nat)
    requires History(AckLast, history) && i <= j < |history| && history[i].runs != []
    ensures |history[i].runs| <= |history[j].runs|
    ensures |history[j].runs| == |history[i].runs| ==> Events(history[i]) <= Events(history[j])
    decreases j
  {
    if i < j {
      RunGrows(history, i, j - 1);
      SoundAt(history, j - 1);
      assert NextAt(AckLast, history, j);
      RunGoesOn(history[j - 1], history[j]);
    }
  }

  /** From `v` to `w` no run begins, and every event is productive. */
  ghost predicate ProductiveSince(v: World, w: World) {
    && v.runs != [] && |w.runs| == |v.runs| && Events(v) <= Events(w)
    && forall k :: |Events(v)| <= k < |Events(w)| ==> Productive(Events(w)[k])
  }

  lemma ProductiveBefore(history: seq<World>, i: nat, j: nat)
    requires History(AckLast, history) && i < j < |history| && ProductiveSince(history[i], history[j])
    ensures ProductiveSince(history[i], history[j - 1]) && ProductiveSince(history[j - 1], history[j])
  {
    RunGrows(history, i, j - 1);
    RunGrows(history, j - 1, j);
  }

  lemma QueuedBefore(w: World, w': World, m: Message)
    requires Next(AckLast, w, w') && m in w.published && m.messageId in w'.queued
    ensures m.messageId in w.queued
  {
  }

  /** The next world is at least as much closer as it has more events. */
  lemma EventCounts(w: World, w': World, m: Message)
    requires Sound(w) && Next(AckLast, w, w') && ProductiveSince(w, w')
    requires m in w.published && m.messageId in w.queued && Unblocked(w, m)
    ensures HasRun(w) && HasRun(w')
    ensures |Events(w')| + AheadOf(w', m.messageId) <= |Events(w)| + AheadOf(w, m.messageId)
  {
    RunGoesOn(w, w');
    if e :| Act(AckLast, w, w', e) && Events(w') == Events(w) + [e] {
      assert Events(w')[|Events(w)|] == e;
      ActSpends(w, w', e, m);
    } else if p :| Publish(w, w', p) {
      PublishSpends(w, w', p, m);
    } else {
      var id :| LateDelete(w, w', id);
      LateDeleteSpends(w, w', id, m);
    }
  }

  lemma EventCountsAt(history: seq<World>, j: nat, m: Message)
    requires History(AckLast, history) && 0 < j < |history| && ProductiveSince(history[j - 1], history[j])
    requires m in history[j - 1].published && m.messageId in history[j - 1].queued && Unblocked(history[j - 1], m)
    ensures HasRun(history[j - 1]) && HasRun(history[j])
    ensures |Events(history[j])| + AheadOf(history[j], m.messageId)
         <= |Events(history[j - 1])| + AheadOf(history[j - 1], m.messageId)
  {
    assert NextAt(AckLast, history, j);
    SoundAt(history, j - 1);
    EventCounts(history[j - 1], history[j], m);
  }

  lemma UnblockedAt(history: seq<World>, j: nat, m: Message)
    requires History(AckLast, history) && 0 < j < |history|
    requires m in history[j - 1].published && Unblocked(history[j - 1], m)
    ensures m in history[j].published && Unblocked(history[j], m)
  {
    assert NextAt(AckLast, history, j);
    StaysUnblocked(history[j - 1], history[j], m);
  }

  lemma QueuedAt(history: seq<World>, i: nat, j: nat, m: Message)
    requires History(AckLast, history) && i < j < |history|
    requires m in history[i].published && m.messageId in history[j].queued
    ensures m.messageId in history[j - 1].queued
  {
    assert NextAt(AckLast, history, j);
    PublishedStays(history, i, j - 1);
    QueuedBefore(history[j - 1], history[j], m);
  }

  /** In `w` the run is as much closer to `m` as it has made more events than in `v`. */
  ghost predicate Nearer(v: World, w: World, m: Message) {
    && HasRun(v) && HasRun(w) && m in w.published && m.messageId in w.queued && Unblocked(w, m)
    && |Events(w)| + AheadOf(w, m.messageId) <= |Events(v)| + AheadOf(v, m.messageId)
  }

  lemma NextNearer(v: World, history: seq<World>, j: nat, m: Message)
    requires History(AckLast, history) && 0 < j < |history| && ProductiveSince(history[j - 1], history[j])
    requires Nearer(v, history[j - 1], m) && m.messageId in history[j].queued
    ensures Nearer(v, history[j], m)
  {
    UnblockedAt(history, j, m);
    EventCountsAt(history, j, m);
  }

  /** As long as the message is queued, every event came one closer to it. */
  lemma {:induction false} EventsCount(history: seq<World>, i: nat, j: nat, m: Message)
    requires History(AckLast, history) && i <= j < |history| && ProductiveSince(history[i], history[j])
    requires m in history[i].published && m.messageId in history[j].queued && Unblocked(history[i], m)
    ensures Nearer(history[i], history[j], m)
    decreases j
  {
    if i < j {
      ProductiveBefore(history, i, j);
      QueuedAt(history, i, j, m);
      EventsCount(history, i, j - 1, m);
      NextNearer(history[i], history, j, m);
    } else {
      SoundAt(history, i);
    }
  }

  /** A message with nothing before it that lacks statistics is processed and
      acknowledged by every run that makes as many productive events as were
      ahead of it, whatever else is published or takes effect in between. */
  lemma DeliveredInTime(history: seq<World>, i: nat, j: nat, m: Message)
    requires History(AckLast, history) && i <= j < |history| && ProductiveSince(history[i], history[j])
    requires m in history[i].published && m.messageId in history[i].queued && Unblocked(history[i], m)
    requires HasRun(history[i]) && |Events(history[j])| >= |Events(history[i])| + AheadOf(history[i], m.messageId)
    ensures m.messageId !in history[j].queued && Processed(history[j], m)
  {
    PublishedStays(history, i, j);
    if m.messageId in history[j].queued {
      EventsCount(history, i, j, m);
      SoundAt(history, j);
      StatsAlong(history[j]);
      QueuedIsAhead(history[j], m);
      assert false;
    }
    NoMessageLost(history, j);
  }
}
