/** The promises of the token refresh, for every run of any number of tasks on
    any number of sessions over one client, with cancellation at every await. */
module RefreshTheorems {
  import opened Wrappers
  import opened Http
  import opened TokenRefresh
  import opened RefreshSafety

  /** At most one task is inside the refresh of a session, and at most one is
      fetching an admin token. */
  lemma MutualExclusion(cfg: Config, novel: bool, run: seq<System>, i: nat, t: nat, u: nat)
    requires Run(cfg, novel, run) && i < |run| && t < |run[i].tasks| && u < |run[i].tasks| && t != u
    ensures run[i].tasks[t].slot == run[i].tasks[u].slot ==>
              !(HoldsSlot(run[i].tasks[t].stage) && HoldsSlot(run[i].tasks[u].stage))
    ensures !(HoldsClient(run[i].tasks[t].stage) && HoldsClient(run[i].tasks[u].stage))
  {
    RunKeepsInv(cfg, novel, run, i);
  }

  /** The second attempt of a queue operation carries a session value that was
      stored strictly later than the rejected one, and a different token. */
  lemma RetryUsesNewerToken(cfg: Config, run: seq<System>, i: nat, t: nat)
    requires Run(cfg, true, run) && i < |run| && t < |run[i].tasks|
    requires run[i].tasks[t].stage.SecondUrl? || run[i].tasks[t].stage.SecondRequest?
    ensures
      var stage := run[i].tasks[t].stage;
      && run[i].tasks[t].slot < |run[i].slots|
      && var history := run[i].slots[run[i].tasks[t].slot].history;
      && stage.rejected.generation < stage.snap.generation < |history|
      && history[stage.rejected.generation] == stage.rejected.session
      && history[stage.snap.generation] == stage.snap.session
      && stage.snap.session.accessToken != stage.rejected.session.accessToken
  {
    RunKeepsFreshInv(cfg, run, i);
    var task := run[i].tasks[t];
    assert StageOk(run[i].slots[task.slot], task.stage) && TokensDistinct(run[i].slots[task.slot]);
  }

  /** A stored session changes only by the answer to a PATCH of the lock holder,
      and that answer replaces exactly the value the holder saw rejected. Every
      failed or dropped refresh leaves every stored session as it was. */
  lemma OnlyPatchReplaces(cfg: Config, run: seq<System>, i: nat, t: nat, c: Choice, k: nat)
    requires Run(cfg, true, run) && 0 < i < |run| && t < |run[i - 1].tasks|
    requires TaskStep(cfg, true, run[i - 1], run[i], t, c)
    requires k < |run[i - 1].slots|
    ensures k < |run[i].slots|
    ensures run[i].slots[k].history != run[i - 1].slots[k].history ==>
              var before, after := run[i - 1].slots[k], run[i].slots[k];
              var stage := run[i - 1].tasks[t].stage;
              && c.Refreshed? && stage.PatchInFlight? && before.lock == Some(t)
              && before.history != [] && before.Current() == stage.snap.session
              && after.history == before.history + [c.session]
  {
    RunKeepsFreshInv(cfg, run, i - 1);
    StepReplaces(cfg, run[i - 1], t, c, k);
  }

  lemma StepReplaces(cfg: Config, s: System, t: nat, c: Choice, k: nat)
    requires FreshInv(s) && t < |s.tasks| && Step(cfg, s, t, c).Some? && k < |s.slots|
    ensures
      var s' := Step(cfg, s, t, c).value;
      && k < |s'.slots|
      && (s'.slots[k].history != s.slots[k].history ==>
            var stage := s.tasks[t].stage;
            && c.Refreshed? && stage.PatchInFlight? && s.slots[k].lock == Some(t)
            && s.slots[k].Current() == stage.snap.session
            && s'.slots[k].history == s.slots[k].history + [c.session])
  {
    LocalHistory(cfg, s.now, t, ViewOf(s, t), c);
    assert StageOk(s.slots[s.tasks[t].slot], s.tasks[t].stage);
    assert s.slots[k].Valid();
  }

  lemma {:induction false} HistoryGrows(cfg: Config, novel: bool, run: seq<System>, i: nat, j: nat, k: nat)
    requires Run(cfg, novel, run) && i <= j < |run| && k < |run[i].slots|
    ensures k < |run[j].slots| && run[i].slots[k].history <= run[j].slots[k].history
  {
    if i < j {
      HistoryGrows(cfg, novel, run, i, j - 1, k);
      var s, s' := run[j - 1], run[j];
      assert NextAt(cfg, novel, run, j);
      if !Tick(s, s') {
        var t, c :| TaskStep(cfg, novel, s, s', t, c);
        StepKeepsShape(cfg, s, t, c);
        LocalHistory(cfg, s.now, t, ViewOf(s, t), c);
      }
    }
  }

  /** Single flight: two different installations on one session never replace
      the same (session id, token) pair, however many tasks saw 401 with it. */
  lemma OneInstallPerToken(cfg: Config, run: seq<System>, i: nat, j: nat, k: nat)
    requires Run(cfg, true, run) && 0 < i < j < |run|
    requires k < |run[i - 1].slots| && k < |run[i].slots| && k < |run[j - 1].slots| && k < |run[j].slots|
    requires run[i - 1].slots[k].history < run[i].slots[k].history
    requires run[j - 1].slots[k].history < run[j].slots[k].history
    ensures run[i - 1].slots[k].history != [] && run[j - 1].slots[k].history != []
    ensures run[i - 1].slots[k].Current().accessToken != run[j - 1].slots[k].Current().accessToken
  {
    RunKeepsFreshInv(cfg, run, i - 1);
    RunKeepsFreshInv(cfg, run, j - 1);
    HistoryGrows(cfg, true, run, i, j - 1, k);
    assert run[i - 1].slots[k].Valid() && run[j - 1].slots[k].Valid();
    assert TokensDistinct(run[j - 1].slots[k]);
  }

  /** Every replaced value cost one PATCH plus the failed and the dropped ones;
      with none of those, exactly one, in every run and whatever PATCH returns. */
  lemma OnePatchPerGeneration(cfg: Config, novel: bool, run: seq<System>, i: nat, k: nat, g: nat)
    requires Run(cfg, novel, run) && i < |run| && k < |run[i].slots| && g + 1 < |run[i].slots[k].history|
    ensures |run[i].slots[k].sent| == |run[i].slots[k].failed| == |run[i].slots[k].history|
    ensures run[i].slots[k].sent[g] == run[i].slots[k].failed[g] + 1
  {
    RunKeepsInv(cfg, novel, run, i);
  }

  // ----- The admin token -----

  /** The cache is empty or well formed. Only the holder of the client lock
      writes it, with the answer to its last request, so a failed or dropped
      fetch leaves it as it was. */
  lemma AdminCacheSound(cfg: Config, novel: bool, run: seq<System>, i: nat, t: nat, c: Choice)
    requires Run(cfg, novel, run) && 0 < i < |run| && TaskStep(cfg, novel, run[i - 1], run[i], t, c)
    ensures run[i].admin == EMPTY_ADMIN || WellFormed(cfg, run[i].admin)
    ensures run[i].admin == AdminToken("", "", None, "")
            || (var admin := run[i].admin;
                && admin.token != "" && admin.url != "" && admin.header == "Bearer " + admin.token
                && admin.expiresAt.Some? && admin.expiresAt == cfg.expiry(admin.token))
    ensures run[i].admin != run[i - 1].admin ==>
              && run[i - 1].clientLock == Some(t) && c.Connected?
              && run[i].admin == AdminToken(c.token, "Bearer " + c.token, cfg.expiry(c.token), c.url)
  {
    RunKeepsInv(cfg, novel, run, i);
    RunKeepsInv(cfg, novel, run, i - 1);
    AdminWrite(cfg, run[i - 1].now, t, ViewOf(run[i - 1], t), c);
  }

  lemma AdminWrite(cfg: Config, now: int, t: nat, v: View, c: Choice)
    requires v.slot.Valid() && LocalStep(cfg, now, t, v, c).Some?
    ensures
      var w := LocalStep(cfg, now, t, v, c).value;
      w.admin != v.admin ==>
        && Fetching(v.task.stage) && c.Connected?
        && w.admin == AdminToken(c.token, "Bearer " + c.token, cfg.expiry(c.token), c.url)
  {
  }

  /** `update_token_if_needed` returns either a cached token with more than 60
      seconds left at the check, or one that this very step stored. In both
      cases it is well formed, and it is the token the caller goes on with. */
  lemma HandedOutToken(cfg: Config, novel: bool, run: seq<System>, i: nat, t: nat, c: Choice)
    requires Run(cfg, novel, run) && 0 < i < |run| && TaskStep(cfg, novel, run[i - 1], run[i], t, c)
    requires InAdmin(run[i - 1].tasks[t].stage) && t < |run[i].tasks|
    requires
      var stage := run[i].tasks[t].stage;
      stage.FirstRequest? || stage.PatchReady? || stage.SecondRequest?
      || (stage.PatchAuth? && !run[i - 1].tasks[t].stage.PatchAuth?)
    ensures WellFormed(cfg, run[i].admin)
    ensures run[i].admin.token != "" && run[i].admin.header == "Bearer " + run[i].admin.token
    ensures
      || (run[i].admin == run[i - 1].admin && run[i].admin.expiresAt.value - run[i - 1].now > 60)
      || run[i].installs == run[i - 1].installs + 1
    ensures
      match run[i - 1].tasks[t].stage
      case FirstUrl(snap, _) => run[i].tasks[t].stage == FirstRequest(snap)
      case PatchUrl(snap, _) => run[i].tasks[t].stage == PatchAuth(snap, run[i].admin.url, Look)
      case PatchAuth(snap, url, _) => run[i].tasks[t].stage == PatchReady(snap, url, run[i].admin.header)
      case SecondUrl(rejected, snap, _) => run[i].tasks[t].stage == SecondRequest(rejected, snap)
      case _ => false
  {
    RunKeepsInv(cfg, novel, run, i - 1);
    LocalHandOut(cfg, run[i - 1].now, t, ViewOf(run[i - 1], t), c);
    RunKeepsInv(cfg, novel, run, i);
  }

  lemma LocalHandOut(cfg: Config, now: int, t: nat, v: View, c: Choice)
    requires v.slot.Valid() && LocalStep(cfg, now, t, v, c).Some? && InAdmin(v.task.stage)
    requires
      var stage := LocalStep(cfg, now, t, v, c).value.task.stage;
      stage.FirstRequest? || stage.PatchReady? || stage.SecondRequest? || (stage.PatchAuth? && !v.task.stage.PatchAuth?)
    ensures
      var w := LocalStep(cfg, now, t, v, c).value;
      && w.admin.token != ""
      && ((w.admin == v.admin && v.admin.expiresAt.Some? && v.admin.expiresAt.value - now > 60)
          || w.installs == v.installs + 1)
      && w.task.stage == AfterAdmin(v.task.stage, w.admin)
  {
  }

  /** A fetch starts only under the client lock, and only when the cache holds no
      token, or one without an expiry or with at most 60 seconds left. */
  lemma FetchOnlyWhenStale(cfg: Config, novel: bool, run: seq<System>, i: nat)
    requires Run(cfg, novel, run) && 0 < i < |run| && run[i].fetches != run[i - 1].fetches
    ensures run[i].fetches == run[i - 1].fetches + 1 && run[i - 1].clientLock.Some?
    ensures
      var admin := run[i - 1].admin;
      admin.token == "" || admin.expiresAt.None? || admin.expiresAt.value - run[i - 1].now <= 60
  {
    assert NextAt(cfg, novel, run, i);
    RunKeepsInv(cfg, novel, run, i - 1);
    var t, c :| TaskStep(cfg, novel, run[i - 1], run[i], t, c);
    LocalFetchStart(cfg, run[i - 1].now, t, ViewOf(run[i - 1], t), c);
  }

  /** The answer of the runner-registration endpoint ends a fetch: with an address,
      a token and a readable expiry it is stored and handed out, and otherwise the
      operation fails and the cache is as before. Either way the lock is free. */
  lemma ConnectionDecides(cfg: Config, now: int, t: nat, v: View, sends: nat, url: string, token: string)
    requires v.slot.Valid() && InAdmin(v.task.stage) && v.task.stage.admin == Fetch(1)
    requires 0 < sends <= Attempts(cfg.retryMax)
    ensures
      var w := LocalStep(cfg, now, t, v, Connected(sends, url, token));
      && w.Some? && w.value.clientLock.None?
      && if url != "" && token != "" && cfg.expiry(token).Some? then
           && w.value.admin == AdminToken(token, "Bearer " + token, cfg.expiry(token), url)
           && w.value.task.stage == AfterAdmin(v.task.stage, w.value.admin)
         else w.value.admin == v.admin && w.value.task.stage == Done(Failed)
  {
  }

  /** The cached token, if there is one, has more than 60 seconds left. */
  ghost predicate LongLived(s: System) {
    s.admin == EMPTY_ADMIN
    || (s.admin.token != "" && s.admin.expiresAt.Some? && s.admin.expiresAt.value - s.now > 60)
  }

  /** A fetch starts only when the cached token is not usable. */
  lemma LocalFetchStart(cfg: Config, now: int, t: nat, v: View, c: Choice)
    requires v.slot.Valid() && LocalStep(cfg, now, t, v, c).Some?
    ensures
      var w := LocalStep(cfg, now, t, v, c).value;
      && (w.fetches == v.fetches || w.fetches == v.fetches + 1)
      && v.installs <= w.installs && v.fetchFailures <= w.fetchFailures
      && (w.fetches == v.fetches + 1 ==>
            && HoldsClient(v.task.stage) && !Fetching(v.task.stage)
            && (v.admin.token == "" || v.admin.expiresAt.None? || v.admin.expiresAt.value - now <= 60))
      && (w.admin != EMPTY_ADMIN && w.admin != v.admin ==> w.installs > v.installs)
      && (v.admin != EMPTY_ADMIN ==> w.admin != EMPTY_ADMIN)
      && (w.installs > v.installs ==> w.admin != EMPTY_ADMIN)
  {
  }

  /** From a cold cache, and as long as every stored token stays usable, all
      tasks together start at most one fetch more than failed or were dropped. */
  lemma {:induction false} ColdStartFetchesOnce(cfg: Config, novel: bool, run: seq<System>, i: nat)
    requires Run(cfg, novel, run) && i < |run| && run[0].admin == EMPTY_ADMIN
    requires forall j :: 0 <= j <= i ==> LongLived(run[j])
    ensures run[i].fetches <= run[i].fetchFailures + 1
    ensures run[i].installs > 0 <==> run[i].admin != EMPTY_ADMIN
  {
    if i > 0 {
      ColdStartFetchesOnce(cfg, novel, run, i - 1);
      RunKeepsInv(cfg, novel, run, i - 1);
      RunKeepsInv(cfg, novel, run, i);
      var s, s' := run[i - 1], run[i];
      assert LongLived(s);
      assert NextAt(cfg, novel, run, i);
      if !Tick(s, s') {
        var t, c :| TaskStep(cfg, novel, s, s', t, c);
        LocalFetchStart(cfg, s.now, t, ViewOf(s, t), c);
      }
    }
  }

  // ----- The request budget -----

  /** One queue operation puts at most three requests on the session transport,
      and on the client transport at most two admin-token refreshes, or four for
      `acquire_jobs`; each refresh is two requests, or three for a GitHub App.
      Each request is sent at most `retry_max + 1` times, saturated. */
  lemma OperationBudget(cfg: Config, novel: bool, run: seq<System>, i: nat, t: nat)
    requires Run(cfg, novel, run) && i < |run| && t < |run[i].tasks|
    ensures run[i].tasks[t].slot < |run[i].slots|
    ensures
      var task := run[i].tasks[t];
      var rs, rc := run[i].slots[task.slot].retryMax, cfg.retryMax;
      var perRefresh := if cfg.usesApp then 3 else 2;
      var refreshes := if task.op.AcquireJobs? then 4 else 2;
      && task.queueSends <= 3 * Attempts(rs) <= 3 * (rs + 1)
      && task.adminSends <= refreshes * (perRefresh * Attempts(rc)) <= refreshes * (perRefresh * (rc + 1))
  {
    RunKeepsInv(cfg, novel, run, i);
    var task := run[i].tasks[t];
    assert TaskWithinBudget(cfg, run[i].slots[task.slot], task);
    assert Attempts(run[i].slots[task.slot].retryMax) <= run[i].slots[task.slot].retryMax + 1;
    assert Attempts(cfg.retryMax) <= cfg.retryMax + 1;
  }
}
