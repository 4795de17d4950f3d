/** Properties that join the parts: from a batch to the calls it causes, from the
    answers on the wire to a session refresh, and from an admin token to its expiry. */
module Composition {
  import opened Wrappers
  import opened Messages
  import opened Protocol
  import opened RunTraces
  import Auth
  import Text
  import Http
  import Errors
  import R = TokenRefresh
  import RefreshSafety

  // ----- From a batch to the calls -----

  function StartedEvents(jobs: seq<Job>): seq<Event> {
    seq(|jobs|, i requires 0 <= i < |jobs| => Started(jobs[i], Ok))
  }

  function CompletedEvents(jobs: seq<Job>): seq<Event> {
    seq(|jobs|, i requires 0 <= i < |jobs| => Completed(jobs[i], Ok))
  }

  lemma {:induction false} CompletedPart(m: Message, i: nat)
    requires m.statistics.Some? && i <= |m.completedJobs|
    ensures WorkFromComplete(m, i)
         == CompletedEvents(m.completedJobs[i..]) + [Desired(m.statistics.value.totalAssignedJobs, Ok)]
    decreases |m.completedJobs| - i
  {
    if i < |m.completedJobs| {
      CompletedPart(m, i + 1);
      assert CompletedEvents(m.completedJobs[i..])
          == [Completed(m.completedJobs[i], Ok)] + CompletedEvents(m.completedJobs[i + 1..]);
    }
  }

  lemma {:induction false} StartedPart(m: Message, i: nat)
    requires m.statistics.Some? && i <= |m.startedJobs|
    ensures WorkFromStart(m, i) == StartedEvents(m.startedJobs[i..]) + WorkFromComplete(m, 0)
    decreases |m.startedJobs| - i
  {
    if i < |m.startedJobs| {
      StartedPart(m, i + 1);
      assert StartedEvents(m.startedJobs[i..])
          == [Started(m.startedJobs[i], Ok)] + StartedEvents(m.startedJobs[i + 1..]);
    }
  }

  /** `work` stores `stats`, asks with one acquire for the ids of the available
      jobs if there are any, reports every started and then every completed job,
      and asks for the assigned total; each call succeeds. */
  ghost predicate IsWork(
      work: seq<Event>, stats: Statistic, available: seq<Job>, started: seq<Job>, completed: seq<Job>)
  {
    var a := if available == [] then 1 else 2;
    && |work| == a + |started| + |completed| + 1 && work[0] == Stored(stats)
    && (available != [] ==>
          && work[1].Acquired? && work[1].answer == Ok && |work[1].ids| == |available|
          && forall k :: 0 <= k < |available| ==> work[1].ids[k] == available[k].runnerRequestId)
    && (forall k :: 0 <= k < |started| ==> work[a + k] == Started(started[k], Ok))
    && (forall k :: 0 <= k < |completed| ==> work[a + |started| + k] == Completed(completed[k], Ok))
    && work[a + |started| + |completed|] == Desired(stats.totalAssignedJobs, Ok)
  }

  lemma WorkParts(m: Message)
    requires m.statistics.Some?
    ensures IsWork(Work(m), m.statistics.value, m.availableJobs, m.startedJobs, m.completedJobs)
  {
    var stats := m.statistics.value;
    var head := if m.availableJobs == [] then [Stored(stats)]
                else [Stored(stats), Acquired(RequestIds(m.availableJobs), Ok)];
    WorkIsConcat(m, head);
    Layout(head, m.startedJobs, m.completedJobs, stats);
    AcquireCovers(m.availableJobs);
  }

  lemma WorkIsConcat(m: Message, head: seq<Event>)
    requires m.statistics.Some?
    requires
      head == [Stored(m.statistics.value)]
              + (if m.availableJobs == [] then [] else [Acquired(RequestIds(m.availableJobs), Ok)])
    ensures
      var tail := CompletedEvents(m.completedJobs) + [Desired(m.statistics.value.totalAssignedJobs, Ok)];
      Work(m) == head + (StartedEvents(m.startedJobs) + tail)
  {
    StartedPart(m, 0);
    CompletedPart(m, 0);
    assert m.startedJobs[0..] == m.startedJobs && m.completedJobs[0..] == m.completedJobs;
  }

  lemma AcquireCovers(jobs: seq<Job>)
    ensures |RequestIds(jobs)| == |jobs|
    ensures forall k :: 0 <= k < |jobs| ==> RequestIds(jobs)[k] == jobs[k].runnerRequestId
  {
  }

  /** Where the parts of the work are. */
  lemma Layout(head: seq<Event>, started: seq<Job>, completed: seq<Job>, stats: Statistic)
    ensures
      var tail := CompletedEvents(completed) + [Desired(stats.totalAssignedJobs, Ok)];
      var work := head + (StartedEvents(started) + tail);
      var a := |head|;
      && |work| == a + |started| + |completed| + 1 && head <= work
      && (forall k :: 0 <= k < |started| ==> work[a + k] == Started(started[k], Ok))
      && (forall k :: 0 <= k < |completed| ==> work[a + |started| + k] == Completed(completed[k], Ok))
      && work[a + |started| + |completed|] == Desired(stats.totalAssignedJobs, Ok)
  {
  }

  /** `jobs` are the payloads of the entries of type `k` that read as a job, in batch order. */
  ghost predicate PayloadsOf(jobs: seq<Job>, entries: seq<Entry>, k: MessageType) {
    exists at: seq<nat> ::
      && |at| == |jobs|
      && (forall i :: 0 <= i < |at| ==>
            && at[i] < |entries| && entries[at[i]].Entry?
            && entries[at[i]].kind == Some(k) && entries[at[i]].payload == Some(jobs[i]))
      && (forall i, j :: 0 <= i < j < |at| ==> at[i] < at[j])
      && (forall p :: 0 <= p < |entries| && entries[p].Entry? && entries[p].kind == Some(k) && entries[p].payload.Some?
                      ==> p in at)
  }

  lemma FilteredPayloads(entries: seq<Entry>, k: MessageType)
    ensures PayloadsOf(JobsOf(entries, k), entries, k)
  {
    FilterIsStable(entries, k);
  }

  /** The calls for the message of a batch are those for the payloads of its entries. */
  lemma BatchBecomesWork(response: Response, entries: seq<Entry>)
    returns (available: seq<Job>, started: seq<Job>, completed: seq<Job>)
    requires response.statistics.Some?
    ensures PayloadsOf(available, entries, JobAvailable)
    ensures PayloadsOf(started, entries, JobStarted) && PayloadsOf(completed, entries, JobCompleted)
    ensures IsWork(Work(SplitOf(response, entries)), response.statistics.value, available, started, completed)
  {
    var m := SplitOf(response, entries);
    available, started, completed := m.availableJobs, m.startedJobs, m.completedJobs;
    FilteredPayloads(entries, JobAvailable);
    FilteredPayloads(entries, JobStarted);
    FilteredPayloads(entries, JobCompleted);
    WorkParts(m);
  }

  /** The DELETE that follows a parsed batch in a run carries the id of its response. */
  lemma ParsedIsDeleted(
      response: Response, entries: seq<Entry>,
      initial: Initial, latest: Option<Statistic>, trace: seq<Event>, s: State, i: nat, j: nat)
    requires Accepted(initial, latest, trace, s) && j < i < |trace|
    requires trace[j].Polled? && trace[j].outcome == Got(SplitOf(response, entries))
    requires trace[i].Deleted? && forall k :: j < k < i ==> !trace[k].Polled?
    ensures trace[i].messageId == response.messageId && response.statistics.Some?
    ensures i - j - 1 == |Work(SplitOf(response, entries))| && trace[j + 1..i] == Work(SplitOf(response, entries))
  {
    var k, m := CallsFollowPoll(initial, latest, trace, s, i);
    assert k == j;
    var m' := DeleteAfterWork(initial, latest, trace, s, i);
    WorkStartsAfterPoll(trace, i, m', j);
  }

  lemma WorkStartsAfterPoll(trace: seq<Event>, i: nat, m: Message, j: nat)
    requires WorkedThrough(trace, i, m) && j < i <= |trace| && trace[j].Polled?
    requires forall k :: j < k < i ==> !trace[k].Polled?
    ensures i - j - 1 == |Work(m)| && trace[j + 1..i] == Work(m) && trace[j].outcome == Got(m)
  {
    var poll := i - |Work(m)| - 1;
    NoPollInWork(m);
    forall k | poll < k < i
      ensures !trace[k].Polled?
    {
      assert trace[k] == trace[poll + 1..i][k - poll - 1];
    }
    assert j == poll;
  }

  // ----- From the wire to a refresh -----

  /** What a queue call makes of the result of the transport. */
  function AttemptOf(
      r: Result<Http.Response, Http.SendError>, read: Option<Errors.ReadFailure>, body: Errors.Body, text: string
    ): Errors.Attempt
  {
    match r
    case Success(response) => Errors.Answered(response.status, read, body, text)
    case Failure(_) => Errors.NotSent
  }

  ghost predicate Unauthorized(a: Http.Attempt) {
    a.Answered? && a.response.status == 401
  }

  /** Through retries and error mapping: a queue call refreshes its session
      exactly when some send of its request was answered 401. */
  lemma RefreshIffSomeSendUnauthorized(
      call: Errors.QueueCall, wire: nat -> Http.Attempt, retryMax: nat, sent: nat,
      read: Option<Errors.ReadFailure>, body: Errors.Body, text: string)
    requires Http.StopsAt(wire, [], Http.Attempts(retryMax), sent)
    ensures Errors.CausesRefresh(call, AttemptOf(Http.ResultOf(wire(sent - 1)), read, body, text))
            <==> exists k :: 0 <= k < sent && Unauthorized(wire(k))
  {
    var a := AttemptOf(Http.ResultOf(wire(sent - 1)), read, body, text);
    Errors.RefreshIffUnauthorized(call, a);
    assert (a.Answered? && a.status == 401) <==> Unauthorized(wire(sent - 1));
    forall k | 0 <= k < sent && Unauthorized(wire(k))
      ensures k == sent - 1
    {
      assert !Http.Retryable(wire(k), []);
    }
  }

  // ----- From the wire to a step of the refresh protocol -----

  /** What the refresh protocol sees of an attempt. */
  function ReplyOf(call: Errors.QueueCall, a: Errors.Attempt): R.Reply {
    if Errors.AttemptOnce(call, a).None? then R.Accepted
    else if Errors.CausesRefresh(call, a) then R.Unauthorized
    else R.Rejected
  }

  /** Where a queue request takes its task, whatever happens on the wire: a first
      attempt goes to the refresh exactly when one of its sends was answered 401,
      a second one never does, and either succeeds exactly when the last send was
      answered 204 to a DELETE, 200 with a readable body to a poll or an acquire,
      or 202 to a poll. Every send is counted. A queue URL that does not parse ends
      the operation without a send. */
  lemma WireDecidesStep(
      cfg: R.Config, now: int, t: nat, v: R.View, call: Errors.QueueCall, wire: nat -> Http.Attempt, sent: nat,
      read: Option<Errors.ReadFailure>, body: Errors.Body, text: string)
    requires v.slot.Valid() && (v.task.stage.FirstRequest? || v.task.stage.SecondRequest?)
    requires Http.StopsAt(wire, [], Http.Attempts(v.slot.retryMax), sent)
    ensures
      var a := AttemptOf(Http.ResultOf(wire(sent - 1)), read, body, text);
      var w := R.LocalStep(cfg, now, t, v, R.Answer(sent, ReplyOf(call, a)));
      && w.Some? && w.value.task.queueSends == v.task.queueSends + sent
      && (w.value.task.stage == R.Done(R.Completed) <==>
            wire(sent - 1).Answered? &&
            var status := wire(sent - 1).response.status;
            match call
            case GetMessage => status == 202 || (status == 200 && read.None?)
            case DeleteMessage => status == 204
            case AcquireJobs => status == 200 && read.None?)
      && (w.value.task.stage.WaitSlot? <==>
            v.task.stage.FirstRequest? && exists k :: 0 <= k < sent && Unauthorized(wire(k)))
      && (w.value.task.stage.WaitSlot? || w.value.task.stage.Done?)
    ensures R.LocalStep(cfg, now, t, v, R.Answer(0, ReplyOf(call, Errors.QueueUrlInvalid)))
         == Some(v.At(R.Done(R.Failed)))
  {
    RefreshIffSomeSendUnauthorized(call, wire, v.slot.retryMax, sent, read, body, text);
    Errors.CompletesIff(call, AttemptOf(Http.ResultOf(wire(sent - 1)), read, body, text));
  }

  // ----- From an admin token to its expiry -----

  /** When the expiry of an admin token is read by `jwt_expires_at`, then in every
      run the expiry that the cache is checked by is the `exp` of exactly the
      claims that were encoded into the cached token. */
  lemma CachedExpiryIsClaim(
      cfg: R.Config, novel: bool, run: seq<R.System>, i: nat, utf8: string -> Text.text,
      readExp: Text.text -> Result<int, Auth.JwtError>, header: Text.text, claims: Text.text, signature: Text.text)
    requires R.Run(cfg, novel, run) && i < |run| && run[i].admin != R.EMPTY_ADMIN
    requires forall s :: cfg.expiry(s) == ToOption(Auth.ExpiryOf(utf8(s), readExp))
    requires utf8(run[i].admin.token)
          == Auth.Encode(header) + [0x2E] + Auth.Encode(claims) + [0x2E] + Auth.Encode(signature)
    ensures run[i].admin.expiresAt.Some? && readExp(claims) == Success(run[i].admin.expiresAt.value)
  {
    RefreshSafety.RunKeepsInv(cfg, novel, run, i);
    Auth.ReadsEncodedClaims(header, claims, signature, readExp);
    assert cfg.expiry(run[i].admin.token) == ToOption(readExp(claims));
  }

  function ToOption<E>(r: Result<int, E>): Option<int> {
    match r
    case Success(value) => Some(value)
    case Failure(_) => None
  }
}
