/** The two-level token refresh of `src/session.rs` and `src/client.rs` as an
    interleaved transition system.

    Any number of tasks run one queue operation each. A task works on one of
    many message sessions ("slots"), and all slots share one client with one
    admin-token cache. Every `.await` of the source is a boundary between two
    steps, so between two steps of a task all the others may run. */
module TokenRefresh {
  import opened Wrappers
  import opened Http

  // ----- Stored values -----

  /** The parts of a stored message session that the protocol reads. */
  datatype Session = Session(sessionId: string, queueUrl: string, accessToken: string)

  /** The cached admin token; the client starts with `EMPTY_ADMIN`. */
  datatype AdminToken = AdminToken(token: string, header: string, expiresAt: Option<int>, url: string)

  const EMPTY_ADMIN := AdminToken("", "", None, "")

  /** What one client is configured with. `expiry` reads the expiry of an admin token. */
  datatype Config = Config(usesApp: bool, retryMax: nat, expiry: string -> Option<int>)

  /** One message session. `history` lists every value the session lock ever
      stored, oldest first; `sent[g]` and `failed[g]` count the PATCH requests
      sent, and those that failed or were dropped, while value `g` was stored. */
  datatype Slot = Slot(
    retryMax: nat,
    history: seq<Session>,
    lock: Option<nat>,
    sent: seq<nat>,
    failed: seq<nat>)
  {
    ghost predicate Valid() {
      history != [] && |sent| == |history| == |failed|
    }

    function Last(): nat
      requires history != []
    {
      |history| - 1
    }

    function Current(): Session
      requires history != []
    {
      history[|history| - 1]
    }
  }

  // ----- Tasks -----

  datatype Op = GetMessage | DeleteMessage | AcquireJobs

  /** A session value together with its position in the history of its slot.
      The position is bookkeeping: no guard below reads it. */
  datatype Snap = Snap(session: Session, generation: nat)

  /** Where a task is inside `update_token_if_needed`. `Fetch(n)` has n requests to go. */
  datatype Admin = Look | WaitClient | LookAgain | Fetch(left: nat)

  datatype Outcome = Completed | Failed | Cancelled

  datatype Stage =
    | Start
    | FirstUrl(snap: Snap, admin: Admin)
    | FirstRequest(snap: Snap)
    | WaitSlot(snap: Snap)
    | Recheck(snap: Snap)
    | PatchUrl(snap: Snap, admin: Admin)
    | PatchAuth(snap: Snap, url: string, admin: Admin)
    | PatchReady(snap: Snap, url: string, header: string)
    | PatchInFlight(snap: Snap, url: string, header: string)
    | Reread(snap: Snap)
    | SecondUrl(rejected: Snap, snap: Snap, admin: Admin)
    | SecondRequest(rejected: Snap, snap: Snap)
    | Done(outcome: Outcome)

  /** `queueSends` and `adminSends` count the requests put on the wire for this
      operation by the session transport and by the client transport. */
  datatype Task = Task(op: Op, slot: nat, stage: Stage, queueSends: nat, adminSends: nat)

  /** `fetches`, `fetchFailures` and `installs` count the admin-token fetches
      that were started, that failed or were dropped, and that were stored. */
  datatype System = System(
    slots: seq<Slot>,
    admin: AdminToken,
    clientLock: Option<nat>,
    tasks: seq<Task>,
    now: int,
    fetches: nat,
    fetchFailures: nat,
    installs: nat)

  // ----- Choices of the environment -----

  datatype Reply = Accepted | Unauthorized | Rejected

  /** What the environment decides in a step; `sends` is how often the transport
      sent the request before it gave its final answer. */
  datatype Choice =
    | Go
    | Answer(sends: nat, reply: Reply)
    | Connected(sends: nat, url: string, token: string)
    | Refreshed(sends: nat, session: Session)
    | Cancel(sends: nat)

  /** The answer ends a request that was sent at most `limit` times; a request
      that was never sent, for instance because its URL does not parse, fails. */
  predicate Ends(c: Choice, limit: nat)
    requires !c.Go?
  {
    c.sends <= limit && (c.sends == 0 ==> c == Answer(0, Rejected))
  }

  // ----- Classification of stages -----

  predicate HoldsSlot(stage: Stage) {
    stage.Recheck? || stage.PatchUrl? || stage.PatchAuth? || stage.PatchReady? || stage.PatchInFlight?
  }

  predicate InAdmin(stage: Stage) {
    stage.FirstUrl? || stage.PatchUrl? || stage.PatchAuth? || stage.SecondUrl?
  }

  predicate HoldsClient(stage: Stage) {
    InAdmin(stage) && (stage.admin.LookAgain? || stage.admin.Fetch?)
  }

  predicate Fetching(stage: Stage) {
    InAdmin(stage) && stage.admin.Fetch?
  }

  /** A stage at which a queue request or the PATCH may be on the wire. */
  predicate OnQueueWire(stage: Stage) {
    stage.FirstRequest? || stage.SecondRequest? || stage.PatchInFlight?
  }

  // ----- The admin cache -----

  /** `snapshot_token` returns the token: at least 60 s are left, exclusively. */
  predicate Usable(admin: AdminToken, now: int) {
    admin.expiresAt.Some? && now + 60 < admin.expiresAt.value && admin.token != ""
  }

  predicate WellFormed(cfg: Config, admin: AdminToken) {
    && admin.token != "" && admin.url != ""
    && admin.header == "Bearer " + admin.token
    && admin.expiresAt.Some?
    && cfg.expiry(admin.token) == admin.expiresAt
  }

  // ----- Steps -----

  /** What one task can see and change: itself, its slot, and the client. */
  datatype View = View(
    task: Task,
    slot: Slot,
    admin: AdminToken,
    clientLock: Option<nat>,
    fetches: nat,
    fetchFailures: nat,
    installs: nat)
  {
    function At(stage: Stage): View {
      this.(task := task.(stage := stage))
    }

    function CountQueue(n: nat): View {
      this.(task := task.(queueSends := task.queueSends + n))
    }

    function CountAdmin(n: nat): View {
      this.(task := task.(adminSends := task.adminSends + n))
    }

    /** The operation ends: every guard it holds is dropped. */
    function Finish(outcome: Outcome): View
      requires slot.Valid()
    {
      var stage := task.stage;
      var slot1 := if HoldsSlot(stage) then slot.(lock := None) else slot;
      var slot2 :=
        if stage.PatchInFlight? then slot1.(failed := slot.failed[slot.Last() := slot.failed[slot.Last()] + 1])
        else slot1;
      At(Done(outcome)).(
        slot := slot2,
        clientLock := if HoldsClient(stage) then None else clientLock,
        fetchFailures := if Fetching(stage) then fetchFailures + 1 else fetchFailures)
    }

    /** `current_session` */
    function Snapshot(): Snap
      requires slot.Valid()
    {
      Snap(slot.Current(), slot.Last())
    }
  }

  /** The stage after `update_token_if_needed` returned `token` to its call site. */
  function AfterAdmin(stage: Stage, token: AdminToken): Stage
    requires InAdmin(stage)
  {
    match stage
    case FirstUrl(snap, _) => FirstRequest(snap)
    case PatchUrl(snap, _) => PatchAuth(snap, token.url, Look)
    case PatchAuth(snap, url, _) => PatchReady(snap, url, token.header)
    case SecondUrl(rejected, snap, _) => SecondRequest(rejected, snap)
  }

  /** One step of task `t` inside `update_token_if_needed`. */
  function AdminStep(cfg: Config, now: int, t: nat, v: View, c: Choice): Option<View>
    requires v.slot.Valid() && InAdmin(v.task.stage)
  {
    var stage := v.task.stage;
    match stage.admin
    case Look =>
      if !c.Go? then None
      else if Usable(v.admin, now) then Some(v.At(AfterAdmin(stage, v.admin)))
      else Some(v.At(stage.(admin := WaitClient)))
    case WaitClient =>
      if !c.Go? || v.clientLock.Some? then None
      else Some(v.At(stage.(admin := LookAgain)).(clientLock := Some(t)))
    case LookAgain =>
      if !c.Go? then None
      else if Usable(v.admin, now) then Some(v.At(AfterAdmin(stage, v.admin)).(clientLock := None))
      else Some(v.At(stage.(admin := Fetch(if cfg.usesApp then 3 else 2))).(fetches := v.fetches + 1))
    case Fetch(left) =>
      if !(c.Answer? || c.Connected?) || !Ends(c, Attempts(cfg.retryMax)) then None
      else FetchStep(cfg, v.CountAdmin(c.sends), c)
  }

  /** The answer to one of the requests that fetch an admin token. Only the last
      one, to the runner-registration endpoint, carries the token. */
  function FetchStep(cfg: Config, v: View, c: Choice): Option<View>
    requires v.slot.Valid() && Fetching(v.task.stage) && (c.Answer? || c.Connected?)
  {
    var stage := v.task.stage;
    var left := stage.admin.left;
    if c.Answer? then
      if !c.reply.Accepted? then Some(v.Finish(Failed))
      else if left > 1 then Some(v.At(stage.(admin := Fetch(left - 1))))
      else None
    else if left != 1 then None
    else if c.url == "" || c.token == "" || cfg.expiry(c.token).None? then Some(v.Finish(Failed))
    else
      var token := AdminToken(c.token, "Bearer " + c.token, cfg.expiry(c.token), c.url);
      Some(v.At(AfterAdmin(stage, token)).(admin := token, clientLock := None, installs := v.installs + 1))
  }

  /** One step of task `t` in `refresh_session`, outside the admin calls. */
  function RefreshStep(t: nat, v: View, c: Choice): Option<View>
    requires v.slot.Valid()
  {
    var slot := v.slot;
    match v.task.stage
    case WaitSlot(snap) =>
      if !c.Go? || slot.lock.Some? then None
      else Some(v.At(Recheck(snap)).(slot := slot.(lock := Some(t))))
    case Recheck(snap) =>
      if !c.Go? then None
      else if slot.Current().sessionId != snap.session.sessionId
           || slot.Current().accessToken != snap.session.accessToken then
        Some(v.At(Reread(snap)).(slot := slot.(lock := None)))
      else Some(v.At(PatchUrl(snap, Look)))
    case PatchReady(snap, url, header) =>
      if !c.Go? then None
      else
        var counted := slot.(sent := slot.sent[slot.Last() := slot.sent[slot.Last()] + 1]);
        Some(v.At(PatchInFlight(snap, url, header)).(slot := counted))
    case PatchInFlight(snap, _, _) =>
      if !(c.Answer? || c.Refreshed?) || !Ends(c, Attempts(slot.retryMax)) then None
      else if c.Refreshed? then
        var stored := slot.(
          history := slot.history + [c.session], sent := slot.sent + [0],
          failed := slot.failed + [0], lock := None);
        Some(v.CountQueue(c.sends).At(Reread(snap)).(slot := stored))
      else if c.reply.Accepted? then None
      else Some(v.CountQueue(c.sends).Finish(Failed))
    case _ => None
  }

  /** One step of a queue operation outside `refresh_session` and the admin calls. */
  function QueueStep(v: View, c: Choice): Option<View>
    requires v.slot.Valid()
  {
    var acquires := v.task.op.AcquireJobs?;
    match v.task.stage
    case Start =>
      if !c.Go? then None
      else Some(v.At(if acquires then FirstUrl(v.Snapshot(), Look) else FirstRequest(v.Snapshot())))
    case FirstRequest(snap) =>
      if !c.Answer? || !Ends(c, Attempts(v.slot.retryMax)) then None
      else
        var next := match c.reply
                    case Accepted => Done(Completed)
                    case Unauthorized => WaitSlot(snap)
                    case Rejected => Done(Failed);
        Some(v.CountQueue(c.sends).At(next))
    case Reread(rejected) =>
      if !c.Go? then None
      else
        var snap := v.Snapshot();
        Some(v.At(if acquires then SecondUrl(rejected, snap, Look) else SecondRequest(rejected, snap)))
    case SecondRequest(_, _) =>
      if !c.Answer? || !Ends(c, Attempts(v.slot.retryMax)) then None
      else Some(v.CountQueue(c.sends).At(Done(if c.reply.Accepted? then Completed else Failed)))
    case _ => None
  }

  /** The future of the task is dropped. A request on the wire may already have
      been sent any number of times up to its limit. */
  function CancelStep(cfg: Config, v: View, n: nat): Option<View>
    requires v.slot.Valid()
  {
    var stage := v.task.stage;
    if stage.Done? then None
    else if OnQueueWire(stage) then
      if n <= Attempts(v.slot.retryMax) then Some(v.CountQueue(n).Finish(Cancelled)) else None
    else if Fetching(stage) then
      if n <= Attempts(cfg.retryMax) then Some(v.CountAdmin(n).Finish(Cancelled)) else None
    else if n == 0 then Some(v.Finish(Cancelled))
    else None
  }

  /** One step of task `t` on what it can see. */
  function LocalStep(cfg: Config, now: int, t: nat, v: View, c: Choice): Option<View>
    requires v.slot.Valid()
  {
    var stage := v.task.stage;
    if c.Cancel? then CancelStep(cfg, v, c.sends)
    else if InAdmin(stage) then AdminStep(cfg, now, t, v, c)
    else if HoldsSlot(stage) || stage.WaitSlot? then RefreshStep(t, v, c)
    else QueueStep(v, c)
  }

  function ViewOf(s: System, t: nat): View
    requires t < |s.tasks| && s.tasks[t].slot < |s.slots|
  {
    View(s.tasks[t], s.slots[s.tasks[t].slot], s.admin, s.clientLock, s.fetches, s.fetchFailures, s.installs)
  }

  function Put(s: System, t: nat, v: View): System
    requires t < |s.tasks| && s.tasks[t].slot < |s.slots|
  {
    System(s.slots[s.tasks[t].slot := v.slot], v.admin, v.clientLock, s.tasks[t := v.task],
           s.now, v.fetches, v.fetchFailures, v.installs)
  }

  /** One step of task `t`; `None` when the task cannot take it. */
  function Step(cfg: Config, s: System, t: nat, c: Choice): Option<System>
    requires WellShaped(s) && t < |s.tasks|
  {
    match LocalStep(cfg, s.now, t, ViewOf(s, t), c)
    case Some(v) => Some(Put(s, t, v))
    case None => None
  }

  /** Every index in the state is in range. */
  ghost predicate WellShaped(s: System) {
    && (forall i :: 0 <= i < |s.slots| ==> s.slots[i].Valid())
    && (forall t :: 0 <= t < |s.tasks| ==> s.tasks[t].slot < |s.slots|)
  }

  // ----- Runs -----

  /** The environment assumption on PATCH: the token it returns was never stored before. */
  predicate FreshToken(s: System, t: nat, c: Choice)
    requires WellShaped(s) && t < |s.tasks|
  {
    c.Refreshed? ==>
      forall x <- s.slots[s.tasks[t].slot].history :: x.accessToken != c.session.accessToken
  }

  ghost predicate TaskStep(cfg: Config, novel: bool, s: System, s': System, t: nat, c: Choice) {
    && WellShaped(s) && t < |s.tasks|
    && (novel ==> FreshToken(s, t, c))
    && Step(cfg, s, t, c) == Some(s')
  }

  /** Time passes. */
  ghost predicate Tick(s: System, s': System) {
    s.now <= s'.now && s' == s.(now := s'.now)
  }

  ghost predicate Next(cfg: Config, novel: bool, s: System, s': System) {
    Tick(s, s') || exists t, c :: TaskStep(cfg, novel, s, s', t, c)
  }

  /** No operation has started, every session was just created, and the cache is
      empty or holds a token stored by an earlier call. */
  ghost predicate Init(cfg: Config, s: System) {
    && WellShaped(s)
    && (forall i :: 0 <= i < |s.slots| ==>
          |s.slots[i].history| == 1 && s.slots[i].lock.None? && s.slots[i].sent == [0] && s.slots[i].failed == [0])
    && (forall t :: 0 <= t < |s.tasks| ==>
          s.tasks[t].stage.Start? && s.tasks[t].queueSends == 0 && s.tasks[t].adminSends == 0)
    && s.clientLock.None?
    && (s.admin == EMPTY_ADMIN || WellFormed(cfg, s.admin))
    && s.fetches == 0 && s.fetchFailures == 0 && s.installs == 0
  }

  ghost predicate NextAt(cfg: Config, novel: bool, run: seq<System>, i: nat)
    requires 0 < i < |run|
  {
    Next(cfg, novel, run[i - 1], run[i])
  }

  ghost predicate Run(cfg: Config, novel: bool, run: seq<System>) {
    && run != [] && Init(cfg, run[0])
    && forall i :: 0 < i < |run| ==> NextAt(cfg, novel, run, i)
  }
}
