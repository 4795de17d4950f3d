/** The request budget of one operation cannot be lowered: an operation that is
    told 401, finds no usable admin token at any of its checks, and needs every
    retry, puts exactly the maximal number of requests on each transport. */
module BudgetTight {
  import opened Wrappers
  import opened Http
  import opened TokenRefresh
  import opened RefreshReach

  /** An admin token whose expiry can be read. */
  predicate Readable(cfg: Config, token: string) {
    token != "" && cfg.expiry(token).Some?
  }

  /** The cached form of `token`; it is looked at when no time is left. */
  function Stale(cfg: Config, token: string): AdminToken
    requires Readable(cfg, token)
  {
    AdminToken(token, "Bearer " + token, cfg.expiry(token), "https://svc")
  }

  /** One task, whose view of the state is `v`, at the time when `token` expires. */
  ghost predicate Solo(cfg: Config, token: string, s: System, v: View)
    requires Readable(cfg, token)
  {
    && |s.tasks| == 1 && |s.slots| == 1 && s.now == cfg.expiry(token).value
    && v.task.slot == 0 && s.tasks[0].slot == 0 && ViewOf(s, 0) == v && v.slot.Valid()
    && Reachable(cfg, true, s)
  }

  lemma Move(cfg: Config, token: string, s: System, v: View, c: Choice, w: View) returns (s': System)
    requires Readable(cfg, token) && Solo(cfg, token, s, v)
    requires LocalStep(cfg, s.now, 0, v, c) == Some(w) && w.slot.Valid() && w.task.slot == 0
    requires c.Refreshed? ==> forall x <- v.slot.history :: x.accessToken != c.session.accessToken
    ensures Solo(cfg, token, s', w)
  {
    Extend(cfg, true, s, 0, c);
    s' := Step(cfg, s, 0, c).value;
  }

  /** The requests of one admin-token refresh with every retry needed. */
  function RoundSends(cfg: Config): nat {
    (if cfg.usesApp then 3 else 2) * Attempts(cfg.retryMax)
  }

  /** What one such refresh does to the view of the task. */
  function AfterRound(cfg: Config, token: string, v: View): View
    requires Readable(cfg, token) && InAdmin(v.task.stage)
  {
    v.(task := v.task.(stage := AfterAdmin(v.task.stage, Stale(cfg, token)),
                       adminSends := v.task.adminSends + RoundSends(cfg)),
       admin := Stale(cfg, token), fetches := v.fetches + 1, installs := v.installs + 1)
  }

  lemma AdminRound(cfg: Config, token: string, s: System, v: View) returns (s': System)
    requires Readable(cfg, token) && Solo(cfg, token, s, v)
    requires InAdmin(v.task.stage) && v.task.stage.admin == Look
    requires !Usable(v.admin, s.now) && v.clientLock.None?
    ensures Solo(cfg, token, s', AfterRound(cfg, token, v))
  {
    var site := v.task.stage;
    var fetch := site.(admin := Fetch(if cfg.usesApp then 3 else 2));
    var v1 := v.At(fetch).(clientLock := Some(0), fetches := v.fetches + 1);
    s' := FetchBegins(cfg, token, s, v, v1);
    if cfg.usesApp {
      var v2 := v1.CountAdmin(Attempts(cfg.retryMax)).At(site.(admin := Fetch(2)));
      s' := Move(cfg, token, s', v1, Answer(Attempts(cfg.retryMax), Accepted), v2);
      v1 := v2;
    }
    s' := FetchLast(cfg, token, s', v1);
  }

  /** The cached token is not usable, so a fetch begins. */
  lemma FetchBegins(cfg: Config, token: string, s: System, v: View, w: View) returns (s': System)
    requires Readable(cfg, token) && Solo(cfg, token, s, v)
    requires InAdmin(v.task.stage) && v.task.stage.admin == Look
    requires !Usable(v.admin, s.now) && v.clientLock.None?
    requires
      var fetch := v.task.stage.(admin := Fetch(if cfg.usesApp then 3 else 2));
      w == v.At(fetch).(clientLock := Some(0), fetches := v.fetches + 1)
    ensures Solo(cfg, token, s', w)
  {
    var site := v.task.stage;
    var v1 := v.At(site.(admin := WaitClient));
    var v2 := v.At(site.(admin := LookAgain)).(clientLock := Some(0));
    s' := Move(cfg, token, s, v, Go, v1);
    s' := Move(cfg, token, s', v1, Go, v2);
    s' := Move(cfg, token, s', v2, Go, w);
  }

  /** The last two requests of a fetch. */
  lemma FetchLast(cfg: Config, token: string, s: System, v: View) returns (s': System)
    requires Readable(cfg, token) && Solo(cfg, token, s, v)
    requires InAdmin(v.task.stage) && v.task.stage.admin == Fetch(2) && v.clientLock == Some(0)
    ensures
      var sends := v.task.adminSends + 2 * Attempts(cfg.retryMax);
      var w := v.At(AfterAdmin(v.task.stage, Stale(cfg, token)));
      Solo(cfg, token, s', w.(task := w.task.(adminSends := sends), admin := Stale(cfg, token),
                              clientLock := None, installs := v.installs + 1))
  {
    var n := Attempts(cfg.retryMax);
    var stage := v.task.stage;
    var v1 := v.CountAdmin(n).At(stage.(admin := Fetch(1)));
    var w := v.CountAdmin(2 * n).At(AfterAdmin(stage, Stale(cfg, token)));
    s' := Move(cfg, token, s, v, Answer(n, Accepted), v1);
    s' := Move(cfg, token, s', v1, Connected(n, "https://svc", token),
               w.(admin := Stale(cfg, token), clientLock := None, installs := v.installs + 1));
  }

  const OLD := Session("id", "https://queue", "old")
  const NEW := Session("id", "https://queue", "new")

  /** The admin-token refreshes of one attempt of `op`. */
  function RoundsOf(op: Op): nat {
    if op.AcquireJobs? then 1 else 0
  }

  /** Before the first step. */
  lemma Begun(cfg: Config, token: string, op: Op, retryMax: nat) returns (s: System, v: View)
    requires Readable(cfg, token)
    ensures Solo(cfg, token, s, v)
    ensures v.slot == Slot(retryMax, [OLD], None, [0], [0]) && v.clientLock == None && v.admin == EMPTY_ADMIN
    ensures v.task == Task(op, 0, Start, 0, 0)
  {
    var slot := Slot(retryMax, [OLD], None, [0], [0]);
    s := System([slot], EMPTY_ADMIN, None, [Task(op, 0, Start, 0, 0)], cfg.expiry(token).value, 0, 0, 0);
    Initially(cfg, true, s);
    v := ViewOf(s, 0);
  }

  /** Up to the first request. */
  lemma Ready(cfg: Config, token: string, op: Op, retryMax: nat) returns (s: System, v: View)
    requires Readable(cfg, token)
    ensures Solo(cfg, token, s, v)
    ensures v.slot == Slot(retryMax, [OLD], None, [0], [0]) && v.clientLock == None && !Usable(v.admin, s.now)
    ensures v.task == Task(op, 0, FirstRequest(Snap(OLD, 0)), 0, RoundsOf(op) * RoundSends(cfg))
  {
    s, v := Begun(cfg, token, op, retryMax);
    var v1 := v.At(if op.AcquireJobs? then FirstUrl(Snap(OLD, 0), Look) else FirstRequest(Snap(OLD, 0)));
    s := Move(cfg, token, s, v, Go, v1);
    v := v1;
    if op.AcquireJobs? {
      s := AdminRound(cfg, token, s, v1);
      v := AfterRound(cfg, token, v1);
    }
  }

  /** Up to the 401. */
  lemma FirstHalf(cfg: Config, token: string, op: Op, retryMax: nat) returns (s: System, v: View)
    requires Readable(cfg, token)
    ensures Solo(cfg, token, s, v)
    ensures v.slot == Slot(retryMax, [OLD], None, [0], [0]) && v.clientLock == None && !Usable(v.admin, s.now)
    ensures v.task == Task(op, 0, WaitSlot(Snap(OLD, 0)), Attempts(retryMax), RoundsOf(op) * RoundSends(cfg))
  {
    var v0;
    s, v0 := Ready(cfg, token, op, retryMax);
    v := v0.CountQueue(Attempts(retryMax)).At(WaitSlot(Snap(OLD, 0)));
    s := Move(cfg, token, s, v0, Answer(Attempts(retryMax), Unauthorized), v);
  }

  /** Up to the PATCH. */
  lemma Refresh(cfg: Config, token: string, op: Op, retryMax: nat) returns (s: System, v: View)
    requires Readable(cfg, token)
    ensures Solo(cfg, token, s, v)
    ensures v.slot == Slot(retryMax, [OLD], Some(0), [0], [0]) && v.clientLock == None && !Usable(v.admin, s.now)
    ensures v.task == Task(op, 0, PatchReady(Snap(OLD, 0), "https://svc", "Bearer " + token),
                           Attempts(retryMax), RoundsOf(op) * RoundSends(cfg) + 2 * RoundSends(cfg))
  {
    s, v := FirstHalf(cfg, token, op, retryMax);
    var v1 := v.At(Recheck(Snap(OLD, 0))).(slot := v.slot.(lock := Some(0)));
    s := Move(cfg, token, s, v, Go, v1);
    var v2 := v1.At(PatchUrl(Snap(OLD, 0), Look));
    s := Move(cfg, token, s, v1, Go, v2);
    s := AdminRound(cfg, token, s, v2);
    var v3 := AfterRound(cfg, token, v2);
    s := AdminRound(cfg, token, s, v3);
    v := AfterRound(cfg, token, v3);
  }

  /** Through the PATCH to the second look at the session. */
  lemma Patched(cfg: Config, token: string, op: Op, retryMax: nat) returns (s: System, v: View)
    requires Readable(cfg, token)
    ensures Solo(cfg, token, s, v)
    ensures v.slot == Slot(retryMax, [OLD, NEW], None, [1, 0], [0, 0])
    ensures v.clientLock == None && !Usable(v.admin, s.now)
    ensures v.task == Task(op, 0, Reread(Snap(OLD, 0)), 2 * Attempts(retryMax),
                           RoundsOf(op) * RoundSends(cfg) + 2 * RoundSends(cfg))
  {
    s, v := Refresh(cfg, token, op, retryMax);
    var n := Attempts(retryMax);
    assert [0][0 := 1] == [1] && [OLD] + [NEW] == [OLD, NEW] && [1] + [0] == [1, 0] && [0] + [0] == [0, 0];
    assert OLD.accessToken != NEW.accessToken by {
      assert "old"[0] != "new"[0];
    }
    var v1 := v.At(PatchInFlight(Snap(OLD, 0), "https://svc", "Bearer " + token)).(slot := v.slot.(sent := [1]));
    s := Move(cfg, token, s, v, Go, v1);
    v := v1.CountQueue(n).At(Reread(Snap(OLD, 0))).(slot := Slot(retryMax, [OLD, NEW], None, [1, 0], [0, 0]));
    s := Move(cfg, token, s, v1, Refreshed(n, NEW), v);
  }

  /** Up to the second request. */
  lemma Retried(cfg: Config, token: string, op: Op, retryMax: nat) returns (s: System, v: View)
    requires Readable(cfg, token)
    ensures Solo(cfg, token, s, v)
    ensures v.slot.retryMax == retryMax
    ensures v.task == Task(op, 0, SecondRequest(Snap(OLD, 0), Snap(NEW, 1)), 2 * Attempts(retryMax),
                           2 * RoundsOf(op) * RoundSends(cfg) + 2 * RoundSends(cfg))
  {
    s, v := Patched(cfg, token, op, retryMax);
    var rejected, snap := Snap(OLD, 0), Snap(NEW, 1);
    var v1 := v.At(if op.AcquireJobs? then SecondUrl(rejected, snap, Look) else SecondRequest(rejected, snap));
    s := Move(cfg, token, s, v, Go, v1);
    v := v1;
    if op.AcquireJobs? {
      s := AdminRound(cfg, token, s, v1);
      v := AfterRound(cfg, token, v1);
    }
  }

  /** The whole operation, at the exact bound of both transports: for each of the
      three operations, with or without a GitHub App, and for all retry limits. */
  lemma BudgetAttained(cfg: Config, token: string, op: Op, retryMax: nat) returns (s: System)
    requires Readable(cfg, token)
    ensures Reachable(cfg, true, s) && |s.tasks| == 1 && |s.slots| == 1 && s.slots[0].retryMax == retryMax
    ensures s.tasks[0].op == op && s.tasks[0].stage == Done(Completed)
    ensures s.tasks[0].queueSends == 3 * Attempts(retryMax)
    ensures
      var perRefresh := if cfg.usesApp then 3 else 2;
      var refreshes := if op.AcquireJobs? then 4 else 2;
      s.tasks[0].adminSends == refreshes * (perRefresh * Attempts(cfg.retryMax))
  {
    var v;
    s, v := Retried(cfg, token, op, retryMax);
    var n := Attempts(retryMax);
    s := Move(cfg, token, s, v, Answer(n, Accepted), v.CountQueue(n).At(Done(Completed)));
  }
}
