/** The message types of `src/types.rs` and the splitter of a batched message. */
module Messages {
  import opened Wrappers

  datatype Statistic = Statistic(
    totalAvailableJobs: int,
    totalAcquiredJobs: int,
    totalAssignedJobs: int,
    totalRunningJobs: int,
    totalRegisteredRunners: int,
    totalBusyRunners: int,
    totalIdleRunners: int)

  /** The payload of one job message. All four kinds share these fields. */
  datatype Job = Job(runnerRequestId: int, jobId: string)

  datatype Message = Message(
    messageId: int,
    statistics: Option<Statistic>,
    availableJobs: seq<Job>,
    assignedJobs: seq<Job>,
    startedJobs: seq<Job>,
    completedJobs: seq<Job>)

  // ----- Splitting a batch -----

  datatype MessageType = JobAvailable | JobAssigned | JobStarted | JobCompleted | Unknown

  /** One element of the batch as the JSON library sees it: its envelope is bad,
      or it has an optional type, and its payload reads as a job or does not. */
  datatype Entry = BadEnvelope | Entry(kind: Option<MessageType>, payload: Option<Job>)

  /** The body of a response: empty, not a JSON array, or an array of entries. */
  datatype Body = Empty | Malformed | Batch(entries: seq<Entry>)

  datatype Response = Response(messageId: int, messageType: string, body: Body, statistics: Option<Statistic>)

  datatype ParseError = UnsupportedType(messageType: string) | BadJson

  const JOB_MESSAGES := "RunnerScaleSetJobMessages"

  /** An entry of a known type. */
  predicate Known(e: Entry) {
    e.Entry? && e.kind.Some? && !e.kind.value.Unknown?
  }

  /** An entry that makes the parser fail. */
  predicate Bad(e: Entry) {
    e.BadEnvelope? || (Known(e) && e.payload.None?)
  }

  /** A known entry of type `k` that reads as a job. */
  predicate IsKind(e: Entry, k: MessageType) {
    e.Entry? && e.kind == Some(k) && e.payload.Some?
  }

  /** The jobs of type `k`, in batch order. */
  function JobsOf(entries: seq<Entry>, k: MessageType): seq<Job> {
    if entries == [] then []
    else
      var last := entries[|entries| - 1];
      JobsOf(entries[..|entries| - 1], k) + (if IsKind(last, k) then [last.payload.value] else [])
  }

  /** How many entries are skipped: no type, or an unknown one. */
  function Ignored(entries: seq<Entry>): nat {
    if entries == [] then 0
    else
      var last := entries[|entries| - 1];
      Ignored(entries[..|entries| - 1]) + (if last.Entry? && !Known(last) then 1 else 0)
  }

  function SplitOf(response: Response, entries: seq<Entry>): Message {
    Message(
      response.messageId, response.statistics,
      JobsOf(entries, JobAvailable), JobsOf(entries, JobAssigned),
      JobsOf(entries, JobStarted), JobsOf(entries, JobCompleted))
  }

  /** `parse_runner_scale_set_message`: the id and the statistics of the response,
      and its batch split by type. Any entry with a bad envelope, and any of a
      known type whose payload is no job, rejects the whole message. */
  method ParseMessage(response: Response) returns (r: Result<Message, ParseError>)
    ensures response.messageType != "RunnerScaleSetJobMessages" ==>
              r == Failure(UnsupportedType(response.messageType))
    ensures response.messageType == "RunnerScaleSetJobMessages" ==>
              (r.Failure? <==>
               || response.body.Malformed?
               || (response.body.Batch? &&
                   exists e <- response.body.entries ::
                     || e.BadEnvelope?
                     || (e.payload.None?
                         && e.kind in {Some(JobAvailable), Some(JobAssigned), Some(JobStarted), Some(JobCompleted)})))
    ensures r.Failure? && response.messageType == "RunnerScaleSetJobMessages" ==> r.error == BadJson
    ensures r.Success? ==> r.value.messageId == response.messageId && r.value.statistics == response.statistics
    ensures r.Success? ==>
              var entries := if response.body.Batch? then response.body.entries else [];
              && r.value.availableJobs == JobsOf(entries, JobAvailable)
              && r.value.assignedJobs == JobsOf(entries, JobAssigned)
              && r.value.startedJobs == JobsOf(entries, JobStarted)
              && r.value.completedJobs == JobsOf(entries, JobCompleted)
  {
    r := Parse(response);
    if response.body.Batch? {
      BadEntries(response.body.entries);
    }
  }

  lemma BadEntries(entries: seq<Entry>)
    ensures (exists e <- entries :: Bad(e)) <==>
            exists e <- entries ::
              || e.BadEnvelope?
              || (e.payload.None?
                  && e.kind in {Some(JobAvailable), Some(JobAssigned), Some(JobStarted), Some(JobCompleted)})
  {
    forall e | e in entries
      ensures Bad(e) <==>
              || e.BadEnvelope?
              || (e.payload.None?
                  && e.kind in {Some(JobAvailable), Some(JobAssigned), Some(JobStarted), Some(JobCompleted)})
    {
    }
  }

  /** The statements of the parser. */
  method Parse(response: Response) returns (r: Result<Message, ParseError>)
    ensures response.messageType != JOB_MESSAGES ==> r == Failure(UnsupportedType(response.messageType))
    ensures response.messageType == JOB_MESSAGES ==>
              match response.body
              case Empty => r == Success(Message(response.messageId, response.statistics, [], [], [], []))
              case Malformed => r == Failure(BadJson)
              case Batch(entries) =>
                r == if exists e <- entries :: Bad(e) then Failure(BadJson) else Success(SplitOf(response, entries))
  {
    if response.messageType != JOB_MESSAGES {
      return Failure(UnsupportedType(response.messageType));
    }
    var message := Message(response.messageId, response.statistics, [], [], [], []);
    if response.body.Empty? {
      return Success(message);
    }
    if response.body.Malformed? {
      return Failure(BadJson);
    }
    var batched := response.body.entries;
    for n := 0 to |batched|
      invariant message == SplitOf(response, batched[..n])
      invariant forall e <- batched[..n] :: !Bad(e)
    {
      var msg := batched[n];
      assert batched[..n + 1] == batched[..n] + [msg];
      if msg.BadEnvelope? {
        assert Bad(msg);
        return Failure(BadJson);
      }
      match msg.kind {
        case Some(JobAvailable) =>
          if msg.payload.None? { assert Bad(msg); return Failure(BadJson); }
          message := message.(availableJobs := message.availableJobs + [msg.payload.value]);
        case Some(JobAssigned) =>
          if msg.payload.None? { assert Bad(msg); return Failure(BadJson); }
          message := message.(assignedJobs := message.assignedJobs + [msg.payload.value]);
        case Some(JobStarted) =>
          if msg.payload.None? { assert Bad(msg); return Failure(BadJson); }
          message := message.(startedJobs := message.startedJobs + [msg.payload.value]);
        case Some(JobCompleted) =>
          if msg.payload.None? { assert Bad(msg); return Failure(BadJson); }
          message := message.(completedJobs := message.completedJobs + [msg.payload.value]);
        case Some(Unknown) =>
        case None =>
      }
      assert message == SplitOf(response, batched[..n + 1]);
    }
    assert batched[..|batched|] == batched;
    return Success(message);
  }

  /** No entry of an accepted batch is lost or counted twice. */
  lemma {:induction false} SplitConservesCount(entries: seq<Entry>)
    requires forall e <- entries :: !Bad(e)
    ensures |JobsOf(entries, JobAvailable)| + |JobsOf(entries, JobAssigned)| + |JobsOf(entries, JobStarted)|
            + |JobsOf(entries, JobCompleted)| + Ignored(entries) == |entries|
  {
    if entries != [] {
      var last := entries[|entries| - 1];
      assert last in entries;
      forall e | e in entries[..|entries| - 1]
        ensures !Bad(e)
      {
        assert e in entries;
      }
      SplitConservesCount(entries[..|entries| - 1]);
    }
  }

  /** The positions of the entries of type `k`, in order. */
  function Positions(entries: seq<Entry>, k: MessageType): seq<nat> {
    if entries == [] then []
    else
      var n := |entries| - 1;
      Positions(entries[..n], k) + (if IsKind(entries[n], k) then [n] else [])
  }

  /** The filter is stable and complete: its jobs are the payloads found at
      strictly increasing positions, and these are all the positions at which an
      entry of type `k` reads as a job. */
  lemma {:induction false} FilterIsStable(entries: seq<Entry>, k: MessageType)
    ensures
      var at := Positions(entries, k);
      && |at| == |JobsOf(entries, k)|
      && (forall i :: 0 <= i < |at| ==>
            && at[i] < |entries| && entries[at[i]].Entry? && entries[at[i]].kind == Some(k)
            && entries[at[i]].payload == Some(JobsOf(entries, k)[i]))
      && (forall i, j :: 0 <= i < j < |at| ==> at[i] < at[j])
      && (forall p :: 0 <= p < |entries| && entries[p].Entry? && entries[p].kind == Some(k) && entries[p].payload.Some?
                      ==> p in at)
  {
    if entries != [] {
      FilterIsStable(entries[..|entries| - 1], k);
    }
  }

  /** Batches split piecewise: the filters distribute over concatenation. */
  lemma {:induction false} JobsOfConcat(a: seq<Entry>, b: seq<Entry>, k: MessageType)
    ensures JobsOf(a + b, k) == JobsOf(a, k) + JobsOf(b, k)
  {
    if b == [] {
      assert a + b == a;
    } else {
      JobsOfConcat(a, b[..|b| - 1], k);
      assert (a + b)[..|a + b| - 1] == a + b[..|b| - 1];
    }
  }
}
