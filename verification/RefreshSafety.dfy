/** What every step of the token-refresh system keeps, and what follows for
    every run: mutual exclusion, single flight, newer-token retries, the
    admin-cache invariant and the request budget. */
module RefreshSafety {
  import opened Wrappers
  import opened Http
  import opened TokenRefresh

  // ----- Mutual exclusion -----

  ghost predicate SlotMutex(s: System)
    requires WellShaped(s)
  {
    && (forall t :: 0 <= t < |s.tasks| && HoldsSlot(s.tasks[t].stage) ==>
          s.slots[s.tasks[t].slot].lock == Some(t))
    && (forall i :: 0 <= i < |s.slots| && s.slots[i].lock.Some? ==>
          var t := s.slots[i].lock.value;
          t < |s.tasks| && s.tasks[t].slot == i && HoldsSlot(s.tasks[t].stage))
  }

  ghost predicate ClientMutex(s: System) {
    && (forall t :: 0 <= t < |s.tasks| && HoldsClient(s.tasks[t].stage) ==> s.clientLock == Some(t))
    && (s.clientLock.Some? ==>
          s.clientLock.value < |s.tasks| && HoldsClient(s.tasks[s.clientLock.value].stage))
  }

  // ----- Generations -----

  ghost predicate SnapIn(slot: Slot, snap: Snap) {
    snap.generation < |slot.history| && slot.history[snap.generation] == snap.session
  }

  /** The snapshots a task carries were stored once; a task that is refreshing
      carries the stored one; a task that retries carries a newer one. */
  ghost predicate StageOk(slot: Slot, stage: Stage)
    requires slot.Valid()
  {
    match stage
    case Start => true
    case Done(_) => true
    case FirstUrl(snap, _) => SnapIn(slot, snap)
    case FirstRequest(snap) => SnapIn(slot, snap)
    case WaitSlot(snap) => SnapIn(slot, snap)
    case Recheck(snap) => SnapIn(slot, snap)
    case PatchUrl(snap, _) => SnapIn(slot, snap) && snap.generation == slot.Last()
    case PatchAuth(snap, _, _) => SnapIn(slot, snap) && snap.generation == slot.Last()
    case PatchReady(snap, _, _) => SnapIn(slot, snap) && snap.generation == slot.Last()
    case PatchInFlight(snap, _, _) => SnapIn(slot, snap) && snap.generation == slot.Last()
    case Reread(snap) => SnapIn(slot, snap) && snap.generation < slot.Last()
    case SecondUrl(rejected, snap, _) =>
      SnapIn(slot, rejected) && SnapIn(slot, snap) && rejected.generation < snap.generation
    case SecondRequest(rejected, snap) =>
      SnapIn(slot, rejected) && SnapIn(slot, snap) && rejected.generation < snap.generation
  }

  ghost predicate Generations(s: System)
    requires WellShaped(s)
  {
    forall t :: 0 <= t < |s.tasks| ==> StageOk(s.slots[s.tasks[t].slot], s.tasks[t].stage)
  }

  ghost predicate TokensDistinct(slot: Slot) {
    forall g, h :: 0 <= g < h < |slot.history| ==> slot.history[g].accessToken != slot.history[h].accessToken
  }

  ghost predicate AllDistinct(s: System) {
    forall i :: 0 <= i < |s.slots| ==> TokensDistinct(s.slots[i])
  }

  // ----- Conservation of PATCH requests -----

  ghost predicate InFlight(s: System, i: nat)
    requires i < |s.slots|
  {
    && s.slots[i].lock.Some? && s.slots[i].lock.value < |s.tasks|
    && s.tasks[s.slots[i].lock.value].stage.PatchInFlight?
  }

  /** PATCHes sent for a generation: the failed ones, the one that replaced it,
      and the one on the wire. */
  ghost predicate PatchesConserved(s: System)
    requires WellShaped(s)
  {
    forall i, g :: 0 <= i < |s.slots| && 0 <= g < |s.slots[i].history| ==>
      s.slots[i].sent[g] == s.slots[i].failed[g] + (if g < s.slots[i].Last() || InFlight(s, i) then 1 else 0)
  }

  // ----- Admin cache -----

  ghost predicate IsBearer(header: string) {
    exists token: string :: token != "" && header == "Bearer " + token
  }

  /** A PATCH is addressed to a non-empty URL and authorised by a bearer token. */
  ghost predicate AdminStageOk(cfg: Config, stage: Stage) {
    && (stage.PatchAuth? ==> stage.url != "")
    && (stage.PatchReady? || stage.PatchInFlight? ==> stage.url != "" && IsBearer(stage.header))
    && (Fetching(stage) ==> 1 <= stage.admin.left <= 3 && (stage.admin.left == 3 ==> cfg.usesApp))
  }

  ghost predicate AdminOk(cfg: Config, s: System) {
    && CacheOk(cfg, s.admin)
    && (forall t :: 0 <= t < |s.tasks| ==> AdminStageOk(cfg, s.tasks[t].stage))
  }

  ghost predicate FetchesConserved(s: System) {
    s.fetches == s.fetchFailures + s.installs +
                 (if s.clientLock.Some? && s.clientLock.value < |s.tasks|
                     && Fetching(s.tasks[s.clientLock.value].stage) then 1 else 0)
  }

  // ----- Request budget -----

  /** Sends still possible on the session transport, `limit` per request. */
  function QueueBudget(stage: Stage, limit: nat): nat {
    match stage
    case Start => 3 * limit
    case FirstUrl(_, _) => 3 * limit
    case FirstRequest(_) => 3 * limit
    case Reread(_) => limit
    case SecondUrl(_, _, _) => limit
    case SecondRequest(_, _) => limit
    case Done(_) => 0
    case _ => 2 * limit
  }

  /** Sends one admin-token refresh may take: two requests, three for an app. */
  function FetchCost(cfg: Config): nat {
    if cfg.usesApp then 3 * Attempts(cfg.retryMax) else 2 * Attempts(cfg.retryMax)
  }

  /** Sends still possible inside the current `update_token_if_needed`. */
  function PhaseBudget(cfg: Config, admin: Admin): nat {
    if admin.Fetch? then
      if admin.left == 1 then Attempts(cfg.retryMax)
      else if admin.left == 2 then 2 * Attempts(cfg.retryMax)
      else 3 * Attempts(cfg.retryMax)
    else FetchCost(cfg)
  }

  /** Sends still possible on the client transport after the current admin call. */
  function LaterAdminBudget(cfg: Config, op: Op, stage: Stage): nat {
    var cost := FetchCost(cfg);
    var retry := if op.AcquireJobs? then cost else 0;
    match stage
    case Start => retry + 2 * cost + retry
    case FirstUrl(_, _) => 2 * cost + retry
    case FirstRequest(_) => 2 * cost + retry
    case WaitSlot(_) => 2 * cost + retry
    case Recheck(_) => 2 * cost + retry
    case PatchUrl(_, _) => cost + retry
    case SecondUrl(_, _, _) => 0
    case SecondRequest(_, _) => 0
    case Done(_) => 0
    case _ => retry
  }

  /** Sends still possible on the client transport. */
  function AdminBudget(cfg: Config, op: Op, stage: Stage): nat {
    (if InAdmin(stage) then PhaseBudget(cfg, stage.admin) else 0) + LaterAdminBudget(cfg, op, stage)
  }

  ghost predicate TaskWithinBudget(cfg: Config, slot: Slot, task: Task) {
    var limit := Attempts(slot.retryMax);
    && task.queueSends + QueueBudget(task.stage, limit) <= 3 * limit
    && task.adminSends + AdminBudget(cfg, task.op, task.stage) <= AdminBudget(cfg, task.op, Start)
    // only `acquire_jobs` asks for the service address outside a refresh
    && (task.stage.FirstUrl? || task.stage.SecondUrl? ==> task.op.AcquireJobs?)
  }

  ghost predicate WithinBudget(cfg: Config, s: System)
    requires WellShaped(s)
  {
    forall t :: 0 <= t < |s.tasks| ==> TaskWithinBudget(cfg, s.slots[s.tasks[t].slot], s.tasks[t])
  }

  // ----- What one step does -----

  /** A task keeps its operation and its slot, and the slot stays well shaped. */
  lemma LocalFrame(cfg: Config, now: int, t: nat, v: View, c: Choice)
    requires v.slot.Valid() && LocalStep(cfg, now, t, v, c).Some?
    ensures
      var w := LocalStep(cfg, now, t, v, c).value;
      && w.task.op == v.task.op && w.task.slot == v.task.slot
      && w.slot.Valid() && w.slot.retryMax == v.slot.retryMax
  {
  }

  /** Each lock changes hands exactly as the stage says. */
  ghost predicate LocksMove(t: nat, v: View, w: View) {
    var before, after := v.task.stage, w.task.stage;
    && (HoldsSlot(before) == HoldsSlot(after) ==> w.slot.lock == v.slot.lock)
    && (HoldsSlot(before) && !HoldsSlot(after) ==> w.slot.lock == None)
    && (!HoldsSlot(before) && HoldsSlot(after) ==> v.slot.lock == None && w.slot.lock == Some(t))
    && (HoldsClient(before) == HoldsClient(after) ==> w.clientLock == v.clientLock)
    && (HoldsClient(before) && !HoldsClient(after) ==> w.clientLock == None)
    && (!HoldsClient(before) && HoldsClient(after) ==> v.clientLock == None && w.clientLock == Some(t))
  }

  lemma AdminLocks(cfg: Config, now: int, t: nat, v: View, c: Choice)
    requires v.slot.Valid() && InAdmin(v.task.stage) && AdminStep(cfg, now, t, v, c).Some?
    ensures LocksMove(t, v, AdminStep(cfg, now, t, v, c).value)
  {
  }

  lemma RefreshLocks(t: nat, v: View, c: Choice)
    requires v.slot.Valid() && !InAdmin(v.task.stage) && RefreshStep(t, v, c).Some?
    ensures LocksMove(t, v, RefreshStep(t, v, c).value)
  {
  }

  lemma QueueLocks(t: nat, v: View, c: Choice)
    requires v.slot.Valid() && QueueStep(v, c).Some?
    ensures LocksMove(t, v, QueueStep(v, c).value)
  {
  }

  lemma CancelLocks(cfg: Config, t: nat, v: View, n: nat)
    requires v.slot.Valid() && CancelStep(cfg, v, n).Some?
    ensures LocksMove(t, v, CancelStep(cfg, v, n).value)
  {
  }

  lemma LocalLocks(cfg: Config, now: int, t: nat, v: View, c: Choice)
    requires v.slot.Valid() && LocalStep(cfg, now, t, v, c).Some?
    ensures LocksMove(t, v, LocalStep(cfg, now, t, v, c).value)
  {
    if c.Cancel? {
      CancelLocks(cfg, t, v, c.sends);
    } else if InAdmin(v.task.stage) {
      AdminLocks(cfg, now, t, v, c);
    } else if HoldsSlot(v.task.stage) || v.task.stage.WaitSlot? {
      RefreshLocks(t, v, c);
    } else {
      QueueLocks(t, v, c);
    }
  }

  /** The history of a slot grows only by the answer to a PATCH. */
  lemma LocalHistory(cfg: Config, now: int, t: nat, v: View, c: Choice)
    requires v.slot.Valid() && LocalStep(cfg, now, t, v, c).Some?
    ensures
      var w := LocalStep(cfg, now, t, v, c).value;
      if v.task.stage.PatchInFlight? && c.Refreshed? then w.slot.history == v.slot.history + [c.session]
      else w.slot.history == v.slot.history
  {
  }

  lemma AdminGeneration(cfg: Config, now: int, t: nat, v: View, c: Choice)
    requires v.slot.Valid() && InAdmin(v.task.stage) && AdminStep(cfg, now, t, v, c).Some?
    requires StageOk(v.slot, v.task.stage)
    ensures
      var w := AdminStep(cfg, now, t, v, c).value;
      w.slot.Valid() && StageOk(w.slot, w.task.stage)
  {
    var w := AdminStep(cfg, now, t, v, c).value;
    assert w.slot.Valid() && w.slot.history == v.slot.history;
  }

  lemma RefreshGeneration(t: nat, v: View, c: Choice)
    requires v.slot.Valid() && RefreshStep(t, v, c).Some?
    requires StageOk(v.slot, v.task.stage) && TokensDistinct(v.slot)
    ensures
      var w := RefreshStep(t, v, c).value;
      w.slot.Valid() && StageOk(w.slot, w.task.stage)
  {
    var w := RefreshStep(t, v, c).value;
    assert v.slot.history <= w.slot.history;
  }

  lemma LocalGeneration(cfg: Config, now: int, t: nat, v: View, c: Choice)
    requires v.slot.Valid() && LocalStep(cfg, now, t, v, c).Some?
    requires StageOk(v.slot, v.task.stage) && TokensDistinct(v.slot)
    ensures
      var w := LocalStep(cfg, now, t, v, c).value;
      w.slot.Valid() && StageOk(w.slot, w.task.stage)
  {
    if c.Cancel? {
      assert LocalStep(cfg, now, t, v, c).value.task.stage.Done?;
    } else if InAdmin(v.task.stage) {
      AdminGeneration(cfg, now, t, v, c);
    } else if HoldsSlot(v.task.stage) || v.task.stage.WaitSlot? {
      RefreshGeneration(t, v, c);
    } else {
      assert LocalStep(cfg, now, t, v, c) == QueueStep(v, c);
    }
  }

  lemma LocalPatches(cfg: Config, now: int, t: nat, v: View, c: Choice)
    requires v.slot.Valid() && LocalStep(cfg, now, t, v, c).Some?
    requires forall g :: 0 <= g < |v.slot.history| ==>
      v.slot.sent[g] == v.slot.failed[g] + (if g < v.slot.Last() || v.task.stage.PatchInFlight? then 1 else 0)
    ensures
      var w := LocalStep(cfg, now, t, v, c).value;
      && w.slot.Valid()
      && forall g :: 0 <= g < |w.slot.history| ==>
        w.slot.sent[g] == w.slot.failed[g] + (if g < w.slot.Last() || w.task.stage.PatchInFlight? then 1 else 0)
  {
  }

  ghost predicate CacheOk(cfg: Config, admin: AdminToken) {
    admin == EMPTY_ADMIN || WellFormed(cfg, admin)
  }

  /** A call site that is handed a well-formed token goes on well. */
  lemma AfterAdminOk(cfg: Config, stage: Stage, token: AdminToken)
    requires InAdmin(stage) && WellFormed(cfg, token) && AdminStageOk(cfg, stage)
    ensures AdminStageOk(cfg, AfterAdmin(stage, token))
  {
  }

  lemma FetchAdmin(cfg: Config, v: View, c: Choice)
    requires v.slot.Valid() && Fetching(v.task.stage) && (c.Answer? || c.Connected?)
    requires FetchStep(cfg, v, c).Some?
    requires AdminStageOk(cfg, v.task.stage) && CacheOk(cfg, v.admin)
    ensures
      var w := FetchStep(cfg, v, c).value;
      AdminStageOk(cfg, w.task.stage) && CacheOk(cfg, w.admin)
  {
    var w := FetchStep(cfg, v, c).value;
    if w.task.stage == Done(Failed) {
    } else if c.Connected? {
      AfterAdminOk(cfg, v.task.stage, w.admin);
    }
  }

  lemma AdminAdmin(cfg: Config, now: int, t: nat, v: View, c: Choice)
    requires v.slot.Valid() && InAdmin(v.task.stage) && AdminStep(cfg, now, t, v, c).Some?
    requires AdminStageOk(cfg, v.task.stage) && CacheOk(cfg, v.admin)
    ensures
      var w := AdminStep(cfg, now, t, v, c).value;
      AdminStageOk(cfg, w.task.stage) && CacheOk(cfg, w.admin)
  {
    if v.task.stage.admin.Fetch? {
      FetchAdmin(cfg, v.CountAdmin(c.sends), c);
    } else if Usable(v.admin, now) {
      AfterAdminOk(cfg, v.task.stage, v.admin);
    }
  }

  lemma LocalAdmin(cfg: Config, now: int, t: nat, v: View, c: Choice)
    requires v.slot.Valid() && LocalStep(cfg, now, t, v, c).Some?
    requires AdminStageOk(cfg, v.task.stage) && CacheOk(cfg, v.admin)
    ensures
      var w := LocalStep(cfg, now, t, v, c).value;
      AdminStageOk(cfg, w.task.stage) && CacheOk(cfg, w.admin)
  {
    if c.Cancel? {
      assert LocalStep(cfg, now, t, v, c).value.task.stage.Done?;
    } else if InAdmin(v.task.stage) {
      AdminAdmin(cfg, now, t, v, c);
    } else if HoldsSlot(v.task.stage) || v.task.stage.WaitSlot? {
      assert RefreshStep(t, v, c).value.admin == v.admin;
    } else {
      assert QueueStep(v, c).value.admin == v.admin;
    }
  }

  lemma LocalFetches(cfg: Config, now: int, t: nat, v: View, c: Choice)
    requires v.slot.Valid() && LocalStep(cfg, now, t, v, c).Some?
    ensures
      var w := LocalStep(cfg, now, t, v, c).value;
      w.fetches - w.fetchFailures - w.installs - (if Fetching(w.task.stage) then 1 else 0)
      == v.fetches - v.fetchFailures - v.installs - (if Fetching(v.task.stage) then 1 else 0)
  {
  }

  /** Returning to the call site costs nothing. */
  lemma AfterAdminBudget(cfg: Config, op: Op, stage: Stage, token: AdminToken)
    requires InAdmin(stage)
    ensures AdminBudget(cfg, op, AfterAdmin(stage, token)) == LaterAdminBudget(cfg, op, stage)
    ensures forall limit: nat :: QueueBudget(AfterAdmin(stage, token), limit) == QueueBudget(stage, limit)
  {
  }

  /** Having spent `n` sends on one request, the rest of the budget suffices. */
  lemma FetchStepBudget(cfg: Config, v: View, c: Choice, n: nat)
    requires v.slot.Valid() && Fetching(v.task.stage) && (c.Answer? || c.Connected?)
    requires FetchStep(cfg, v, c).Some? && AdminStageOk(cfg, v.task.stage)
    requires n <= Attempts(cfg.retryMax) && n <= v.task.adminSends
    requires TaskWithinBudget(cfg, v.slot, v.task.(adminSends := v.task.adminSends - n))
    ensures TaskWithinBudget(cfg, v.slot, FetchStep(cfg, v, c).value.task)
  {
    var w := FetchStep(cfg, v, c).value;
    var left := v.task.stage.admin.left;
    SameSite(cfg, v.task.op, v.task.stage, v.task.stage.admin);
    if w.task.stage == Done(Failed) {
    } else if c.Connected? {
      assert w.task.stage == AfterAdmin(v.task.stage, w.admin);
      AfterAdminBudget(cfg, v.task.op, v.task.stage, w.admin);
    } else {
      SameSite(cfg, v.task.op, v.task.stage, Fetch(left - 1));
      assert PhaseBudget(cfg, Fetch(left)) == PhaseBudget(cfg, Fetch(left - 1)) + Attempts(cfg.retryMax);
    }
  }

  lemma AdminStepBudget(cfg: Config, now: int, t: nat, v: View, c: Choice)
    requires v.slot.Valid() && InAdmin(v.task.stage) && AdminStep(cfg, now, t, v, c).Some?
    requires AdminStageOk(cfg, v.task.stage) && TaskWithinBudget(cfg, v.slot, v.task)
    ensures TaskWithinBudget(cfg, v.slot, AdminStep(cfg, now, t, v, c).value.task)
  {
    var w := AdminStep(cfg, now, t, v, c).value;
    if v.task.stage.admin.Fetch? {
      FetchStepBudget(cfg, v.CountAdmin(c.sends), c, c.sends);
    } else if !v.task.stage.admin.WaitClient? && Usable(v.admin, now) {
      AfterAdminBudget(cfg, v.task.op, v.task.stage, v.admin);
      assert PhaseBudget(cfg, v.task.stage.admin) >= 0;
    } else {
      SameSite(cfg, v.task.op, v.task.stage, w.task.stage.admin);
    }
  }

  /** Within one call only the phase budget changes. */
  lemma SameSite(cfg: Config, op: Op, stage: Stage, admin: Admin)
    requires InAdmin(stage)
    ensures AdminBudget(cfg, op, stage.(admin := admin)) == PhaseBudget(cfg, admin) + LaterAdminBudget(cfg, op, stage)
    ensures forall limit: nat :: QueueBudget(stage.(admin := admin), limit) == QueueBudget(stage, limit)
  {
  }

  lemma RefreshStepBudget(cfg: Config, t: nat, v: View, c: Choice)
    requires v.slot.Valid() && RefreshStep(t, v, c).Some?
    requires TaskWithinBudget(cfg, v.slot, v.task)
    ensures TaskWithinBudget(cfg, v.slot, RefreshStep(t, v, c).value.task)
  {
  }

  lemma QueueStepBudget(cfg: Config, v: View, c: Choice)
    requires v.slot.Valid() && QueueStep(v, c).Some?
    requires TaskWithinBudget(cfg, v.slot, v.task)
    ensures TaskWithinBudget(cfg, v.slot, QueueStep(v, c).value.task)
  {
  }

  lemma CancelBudget(cfg: Config, v: View, n: nat)
    requires v.slot.Valid() && CancelStep(cfg, v, n).Some?
    requires AdminStageOk(cfg, v.task.stage) && TaskWithinBudget(cfg, v.slot, v.task)
    ensures TaskWithinBudget(cfg, v.slot, CancelStep(cfg, v, n).value.task)
  {
  }

  lemma LocalBudget(cfg: Config, now: int, t: nat, v: View, c: Choice)
    requires v.slot.Valid() && LocalStep(cfg, now, t, v, c).Some?
    requires AdminStageOk(cfg, v.task.stage)
    requires TaskWithinBudget(cfg, v.slot, v.task)
    ensures
      var w := LocalStep(cfg, now, t, v, c).value;
      TaskWithinBudget(cfg, w.slot, w.task)
  {
    LocalFrame(cfg, now, t, v, c);
    if c.Cancel? {
      CancelBudget(cfg, v, c.sends);
    } else if InAdmin(v.task.stage) {
      AdminStepBudget(cfg, now, t, v, c);
    } else if HoldsSlot(v.task.stage) || v.task.stage.WaitSlot? {
      RefreshStepBudget(cfg, t, v, c);
    } else {
      QueueStepBudget(cfg, v, c);
    }
  }

  // ----- What every step of the whole system keeps -----

  /** Holds in every run, whatever PATCH returns. */
  ghost predicate Inv(cfg: Config, s: System) {
    && WellShaped(s) && SlotMutex(s) && ClientMutex(s)
    && PatchesConserved(s) && AdminOk(cfg, s) && FetchesConserved(s) && WithinBudget(cfg, s)
  }

  /** Holds in every run in which PATCH never returns a token it returned before. */
  ghost predicate FreshInv(s: System) {
    WellShaped(s) && SlotMutex(s) && Generations(s) && AllDistinct(s)
  }

  lemma StepKeepsShape(cfg: Config, s: System, t: nat, c: Choice)
    requires WellShaped(s) && t < |s.tasks| && Step(cfg, s, t, c).Some?
    ensures
      var s' := Step(cfg, s, t, c).value;
      && WellShaped(s') && |s'.tasks| == |s.tasks| && |s'.slots| == |s.slots|
      && s'.tasks[t].slot == s.tasks[t].slot && s'.tasks[t].op == s.tasks[t].op
  {
    LocalFrame(cfg, s.now, t, ViewOf(s, t), c);
  }

  lemma StepKeepsSlotMutex(cfg: Config, s: System, t: nat, c: Choice)
    requires WellShaped(s) && t < |s.tasks| && Step(cfg, s, t, c).Some?
    requires SlotMutex(s)
    ensures WellShaped(Step(cfg, s, t, c).value) && SlotMutex(Step(cfg, s, t, c).value)
  {
    LocalLocks(cfg, s.now, t, ViewOf(s, t), c);
    StepKeepsShape(cfg, s, t, c);
    var s' := Step(cfg, s, t, c).value;
    forall i | 0 <= i < |s'.slots| && s'.slots[i].lock.Some?
      ensures
        var u := s'.slots[i].lock.value;
        u < |s'.tasks| && s'.tasks[u].slot == i && HoldsSlot(s'.tasks[u].stage)
    {
      assert s.slots[i].lock.Some? || i == s.tasks[t].slot;
    }
  }

  lemma StepKeepsClientMutex(cfg: Config, s: System, t: nat, c: Choice)
    requires WellShaped(s) && t < |s.tasks| && Step(cfg, s, t, c).Some?
    requires ClientMutex(s)
    ensures ClientMutex(Step(cfg, s, t, c).value)
  {
    LocalLocks(cfg, s.now, t, ViewOf(s, t), c);
    StepKeepsShape(cfg, s, t, c);
  }

  lemma StepKeepsPatches(cfg: Config, s: System, t: nat, c: Choice)
    requires WellShaped(s) && t < |s.tasks| && Step(cfg, s, t, c).Some?
    requires SlotMutex(s) && PatchesConserved(s)
    ensures WellShaped(Step(cfg, s, t, c).value) && PatchesConserved(Step(cfg, s, t, c).value)
  {
    StepKeepsShape(cfg, s, t, c);
    StepKeepsSlotMutex(cfg, s, t, c);
    var v := ViewOf(s, t);
    var i := s.tasks[t].slot;
    var s' := Step(cfg, s, t, c).value;
    forall j, g | 0 <= j < |s'.slots| && 0 <= g < |s'.slots[j].history|
      ensures s'.slots[j].sent[g]
           == s'.slots[j].failed[g] + (if g < s'.slots[j].Last() || InFlight(s', j) then 1 else 0)
    {
      if j != i {
        assert s'.slots[j] == s.slots[j];
        assert InFlight(s', j) == InFlight(s, j);
      } else if HoldsSlot(v.task.stage) || HoldsSlot(s'.tasks[t].stage) {
        LocalLocks(cfg, s.now, t, v, c);
        assert HoldsSlot(v.task.stage) ==> InFlight(s, i) == v.task.stage.PatchInFlight?;
        assert InFlight(s', i) == s'.tasks[t].stage.PatchInFlight?;
        LocalPatches(cfg, s.now, t, v, c);
      } else {
        LocalIdle(cfg, s.now, t, v, c);
        assert InFlight(s', i) == InFlight(s, i);
      }
    }
  }

  /** A task that does not hold the lock of its slot leaves the slot alone. */
  lemma LocalIdle(cfg: Config, now: int, t: nat, v: View, c: Choice)
    requires v.slot.Valid() && LocalStep(cfg, now, t, v, c).Some?
    requires !HoldsSlot(v.task.stage) && !HoldsSlot(LocalStep(cfg, now, t, v, c).value.task.stage)
    ensures LocalStep(cfg, now, t, v, c).value.slot == v.slot
  {
  }

  lemma StepKeepsAdmin(cfg: Config, s: System, t: nat, c: Choice)
    requires WellShaped(s) && t < |s.tasks| && Step(cfg, s, t, c).Some?
    requires AdminOk(cfg, s)
    ensures AdminOk(cfg, Step(cfg, s, t, c).value)
  {
    LocalAdmin(cfg, s.now, t, ViewOf(s, t), c);
  }

  lemma StepKeepsFetches(cfg: Config, s: System, t: nat, c: Choice)
    requires WellShaped(s) && t < |s.tasks| && Step(cfg, s, t, c).Some?
    requires ClientMutex(s) && FetchesConserved(s)
    ensures FetchesConserved(Step(cfg, s, t, c).value)
  {
    LocalFetches(cfg, s.now, t, ViewOf(s, t), c);
    LocalLocks(cfg, s.now, t, ViewOf(s, t), c);
    StepKeepsClientMutex(cfg, s, t, c);
  }

  lemma StepKeepsBudget(cfg: Config, s: System, t: nat, c: Choice)
    requires WellShaped(s) && t < |s.tasks| && Step(cfg, s, t, c).Some?
    requires AdminOk(cfg, s) && WithinBudget(cfg, s)
    ensures WellShaped(Step(cfg, s, t, c).value) && WithinBudget(cfg, Step(cfg, s, t, c).value)
  {
    StepKeepsShape(cfg, s, t, c);
    LocalFrame(cfg, s.now, t, ViewOf(s, t), c);
    var s' := Step(cfg, s, t, c).value;
    forall u | 0 <= u < |s'.tasks|
      ensures TaskWithinBudget(cfg, s'.slots[s'.tasks[u].slot], s'.tasks[u])
    {
      assert TaskWithinBudget(cfg, s.slots[s.tasks[u].slot], s.tasks[u]);
      if u == t {
        LocalBudget(cfg, s.now, t, ViewOf(s, t), c);
      }
    }
  }

  lemma StepKeepsInv(cfg: Config, s: System, t: nat, c: Choice)
    requires Inv(cfg, s) && t < |s.tasks| && Step(cfg, s, t, c).Some?
    ensures Inv(cfg, Step(cfg, s, t, c).value)
  {
    StepKeepsSlotMutex(cfg, s, t, c);
    StepKeepsClientMutex(cfg, s, t, c);
    StepKeepsPatches(cfg, s, t, c);
    StepKeepsAdmin(cfg, s, t, c);
    StepKeepsFetches(cfg, s, t, c);
    StepKeepsBudget(cfg, s, t, c);
  }

  lemma StepKeepsFreshInv(cfg: Config, s: System, t: nat, c: Choice)
    requires FreshInv(s) && t < |s.tasks| && FreshToken(s, t, c) && Step(cfg, s, t, c).Some?
    ensures FreshInv(Step(cfg, s, t, c).value)
  {
    StepKeepsSlotMutex(cfg, s, t, c);
    StepKeepsShape(cfg, s, t, c);
    var v := ViewOf(s, t);
    LocalHistory(cfg, s.now, t, v, c);
    var s' := Step(cfg, s, t, c).value;
    assert TokensDistinct(v.slot) && StageOk(v.slot, v.task.stage);
    forall u | 0 <= u < |s'.tasks|
      ensures StageOk(s'.slots[s'.tasks[u].slot], s'.tasks[u].stage)
    {
      assert StageOk(s.slots[s.tasks[u].slot], s.tasks[u].stage);
      if u == t {
        LocalGeneration(cfg, s.now, t, v, c);
      } else if s.tasks[u].slot == s.tasks[t].slot && s'.slots[s.tasks[t].slot].history != v.slot.history {
        assert !HoldsSlot(s.tasks[u].stage);
      }
    }
    forall i | 0 <= i < |s'.slots|
      ensures TokensDistinct(s'.slots[i])
    {
      assert TokensDistinct(s.slots[i]);
    }
  }

  // ----- Every run -----

  lemma TickKeepsInv(cfg: Config, s: System, s': System)
    requires Inv(cfg, s) && Tick(s, s')
    ensures Inv(cfg, s')
  {
    assert forall i :: 0 <= i < |s.slots| ==> InFlight(s, i) == InFlight(s', i);
  }

  lemma NextKeepsInv(cfg: Config, novel: bool, s: System, s': System)
    requires Inv(cfg, s) && Next(cfg, novel, s, s')
    ensures Inv(cfg, s')
  {
    if Tick(s, s') {
      TickKeepsInv(cfg, s, s');
    } else {
      var t, c :| TaskStep(cfg, novel, s, s', t, c);
      StepKeepsInv(cfg, s, t, c);
    }
  }

  lemma TickKeepsFreshInv(s: System, s': System)
    requires FreshInv(s) && Tick(s, s')
    ensures FreshInv(s')
  {
    assert forall t :: 0 <= t < |s.tasks| ==> StageOk(s.slots[s.tasks[t].slot], s.tasks[t].stage);
  }

  lemma NextKeepsFreshInv(cfg: Config, s: System, s': System)
    requires FreshInv(s) && Next(cfg, true, s, s')
    ensures FreshInv(s')
  {
    if Tick(s, s') {
      TickKeepsFreshInv(s, s');
    } else {
      var t, c :| TaskStep(cfg, true, s, s', t, c);
      StepKeepsFreshInv(cfg, s, t, c);
    }
  }

  lemma InitInv(cfg: Config, s: System)
    requires Init(cfg, s)
    ensures Inv(cfg, s) && FreshInv(s)
  {
  }

  lemma {:induction false} RunKeepsInv(cfg: Config, novel: bool, run: seq<System>, i: nat)
    requires Run(cfg, novel, run) && i < |run|
    ensures Inv(cfg, run[i])
  {
    if i == 0 {
      InitInv(cfg, run[0]);
    } else {
      RunKeepsInv(cfg, novel, run, i - 1);
      assert NextAt(cfg, novel, run, i);
      NextKeepsInv(cfg, novel, run[i - 1], run[i]);
    }
  }

  lemma {:induction false} RunKeepsFreshInv(cfg: Config, run: seq<System>, i: nat)
    requires Run(cfg, true, run) && i < |run|
    ensures FreshInv(run[i])
  {
    if i == 0 {
      InitInv(cfg, run[0]);
    } else {
      RunKeepsFreshInv(cfg, run, i - 1);
      assert NextAt(cfg, true, run, i);
      NextKeepsFreshInv(cfg, run[i - 1], run[i]);
    }
  }
}
