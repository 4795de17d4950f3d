/** The freshness of refreshed tokens is needed, against all earlier tokens: if
    PATCH may repeat a token, however long ago it was stored, the re-check under
    the lock is fooled. */
module StaleToken {
  import opened Wrappers
  import opened TokenRefresh
  import opened RefreshReach

  const ADMIN := AdminToken("a", "Bearer a", Some(3600), "https://svc")

  /** Tokens of different lengths, and after `n` of them the first one again. */
  function Value(n: nat, g: nat): Session {
    Session("id", "https://queue", seq(if g > n then 0 else g, _ => 'x'))
  }

  /** Every token differs from the `n` tokens stored before it. */
  ghost predicate Spaced(history: seq<Session>, n: nat) {
    forall g, h :: 0 <= g < h < |history| && h - g <= n ==> history[g].accessToken != history[h].accessToken
  }

  function Get(stage: Stage, sends: nat): Task {
    Task(GetMessage, 0, stage, sends, 0)
  }

  function Expired(n: nat, g: nat): Snap {
    Snap(Value(n, g), g)
  }

  /** The session after `i` refreshes. */
  function SlotAfter(n: nat, i: nat): (s: Slot)
    ensures s.Valid()
  {
    Slot(0, seq(i + 1, g requires 0 <= g <= i => Value(n, g)), None,
         seq(i + 1, g => if g < i then 1 else 0), seq(i + 1, _ => 0))
  }

  /** The first task was told 401 for the first token and waits for the lock ever
      since; task `g + 1` has replaced value `g`, for each `g < i`. */
  function TaskAfter(n: nat, i: nat, t: nat): Task {
    if t == 0 then Get(WaitSlot(Expired(n, 0)), 1)
    else if t <= i then Get(Reread(Expired(n, t - 1)), 2)
    else Get(Start, 0)
  }

  function After(n: nat, i: nat): (s: System)
    ensures WellShaped(s)
  {
    System([SlotAfter(n, i)], ADMIN, None, seq(n + 2, t requires 0 <= t < n + 2 => TaskAfter(n, i, t)), 0, 0, 0, 0)
  }

  /** Before any task has started. */
  function Before(n: nat): (s: System)
    ensures WellShaped(s)
  {
    System([SlotAfter(n, 0)], ADMIN, None, seq(n + 2, _ => Get(Start, 0)), 0, 0, 0, 0)
  }

  lemma FirstRejected(cfg: Config, n: nat)
    requires cfg.expiry("a") == Some(3600)
    ensures Reachable(cfg, false, After(n, 0))
  {
    var s := Before(n);
    NothingStarted(cfg, n);
    var v := ViewOf(s, 0);
    var v1 := v.At(FirstRequest(Expired(n, 0)));
    var v2 := v.CountQueue(1).At(WaitSlot(Expired(n, 0)));
    Move(cfg, false, s, 0, v, Go, v1);
    Move(cfg, false, s, 0, v1, Answer(1, Unauthorized), v2);
    assert Put(s, 0, v2) == After(n, 0);
  }

  lemma NothingStarted(cfg: Config, n: nat)
    requires cfg.expiry("a") == Some(3600)
    ensures Reachable(cfg, false, Before(n)) && Put(Before(n), 0, ViewOf(Before(n), 0)) == Before(n)
  {
    assert SlotAfter(n, 0).sent == [0] && SlotAfter(n, 0).failed == [0];
    assert Init(cfg, Before(n));
    Initially(cfg, false, Before(n));
  }

  /** Task `i + 1` reads value `i` and is told 401 for it. */
  lemma NextRejected(cfg: Config, n: nat, i: nat) returns (v: View)
    requires i <= n && Reachable(cfg, false, After(n, i))
    ensures v == ViewOf(After(n, i), i + 1).CountQueue(1).At(WaitSlot(Expired(n, i)))
    ensures Reachable(cfg, false, Put(After(n, i), i + 1, v))
  {
    var s, t := After(n, i), i + 1;
    var v0 := ViewOf(s, t);
    assert Put(s, t, v0) == s;
    var v1 := v0.At(FirstRequest(Expired(n, i)));
    v := v0.CountQueue(1).At(WaitSlot(Expired(n, i)));
    Move(cfg, false, s, t, v0, Go, v1);
    Move(cfg, false, s, t, v1, Answer(1, Unauthorized), v);
  }

  /** It takes the lock, passes the re-check and has a PATCH ready. */
  lemma NextReady(cfg: Config, n: nat, i: nat) returns (v: View)
    requires i <= n && Reachable(cfg, false, After(n, i))
    ensures
      var v0 := ViewOf(After(n, i), i + 1);
      v == v0.CountQueue(1).At(PatchReady(Expired(n, i), ADMIN.url, ADMIN.header))
             .(slot := v0.slot.(lock := Some(i + 1)))
    ensures Reachable(cfg, false, Put(After(n, i), i + 1, v))
  {
    var s, t, snap := After(n, i), i + 1, Expired(n, i);
    var v0 := NextRejected(cfg, n, i);
    var v1 := v0.At(Recheck(snap)).(slot := v0.slot.(lock := Some(t)));
    var v2 := v1.At(PatchUrl(snap, Look));
    var v3 := v1.At(PatchAuth(snap, ADMIN.url, Look));
    v := v1.At(PatchReady(snap, ADMIN.url, ADMIN.header));
    Move(cfg, false, s, t, v0, Go, v1);
    Move(cfg, false, s, t, v1, Go, v2);
    Move(cfg, false, s, t, v2, Go, v3);
    Move(cfg, false, s, t, v3, Go, v);
  }

  lemma SlotGrows(n: nat, i: nat)
    ensures
      var before, after := SlotAfter(n, i), SlotAfter(n, i + 1);
      && before.history + [Value(n, i + 1)] == after.history
      && before.sent[i := 1] + [0] == after.sent && before.failed + [0] == after.failed
  {
  }

  /** The PATCH is answered with value `i + 1`. */
  lemma NextRefreshed(cfg: Config, n: nat, i: nat)
    requires i <= n && Reachable(cfg, false, After(n, i))
    ensures Reachable(cfg, false, After(n, i + 1))
  {
    var s, t, snap := After(n, i), i + 1, Expired(n, i);
    var v := NextReady(cfg, n, i);
    var v1 := v.At(PatchInFlight(snap, ADMIN.url, ADMIN.header))
               .(slot := v.slot.(sent := v.slot.sent[i := 1]));
    var v2 := v1.CountQueue(1).At(Reread(snap)).(slot := SlotAfter(n, i + 1));
    SlotGrows(n, i);
    Move(cfg, false, s, t, v, Go, v1);
    Move(cfg, false, s, t, v1, Refreshed(1, Value(n, i + 1)), v2);
    assert Put(s, t, v2) == After(n, i + 1);
  }

  lemma {:induction false} Refreshes(cfg: Config, n: nat, i: nat)
    requires cfg.expiry("a") == Some(3600) && i <= n + 1
    ensures Reachable(cfg, false, After(n, i))
  {
    if i == 0 {
      FirstRejected(cfg, n);
    } else {
      Refreshes(cfg, n, i - 1);
      NextRefreshed(cfg, n, i - 1);
    }
  }

  /** For every `n`: even when each answer to a PATCH differs from the last `n`
      tokens of the session, some run has a task that retries with the very token
      that was rejected, and another that passes the re-check and is on its way
      to PATCH a session that was replaced `n + 1` times since its 401. */
  lemma StaleTokenFoolsRecheck(cfg: Config, n: nat) returns (s: System)
    requires cfg.expiry("a") == Some(3600)
    ensures Reachable(cfg, false, s) && |s.slots| == 1 && |s.tasks| == n + 2
    ensures s.tasks[0].slot == s.tasks[1].slot == 0 && Spaced(s.slots[0].history, n)
    ensures s.tasks[1].stage.SecondRequest?
    ensures s.tasks[1].stage.snap.session.accessToken == s.tasks[1].stage.rejected.session.accessToken
    ensures s.tasks[0].stage.PatchUrl? && s.slots[0].lock == Some(0)
    ensures s.tasks[0].stage.snap.generation + n + 2 == |s.slots[0].history|
  {
    Refreshes(cfg, n, n + 1);
    var s0 := After(n, n + 1);
    var v := ViewOf(s0, 1);
    assert Put(s0, 1, v) == s0;
    var v1 := v.At(SecondRequest(Expired(n, 0), Expired(n, n + 1)));
    Move(cfg, false, s0, 1, v, Go, v1);
    s := PassRecheck(cfg, n, Put(s0, 1, v1));
    var history := s.slots[0].history;
    assert history == SlotAfter(n, n + 1).history;
    forall g, h | 0 <= g < h < |history| && h - g <= n
      ensures history[g].accessToken != history[h].accessToken
    {
      assert |history[g].accessToken| != |history[h].accessToken|;
    }
  }

  lemma PassRecheck(cfg: Config, n: nat, s: System) returns (s': System)
    requires Reachable(cfg, false, s) && WellShaped(s) && |s.tasks| == n + 2 && s.slots == [SlotAfter(n, n + 1)]
    requires s.tasks[0] == Get(WaitSlot(Expired(n, 0)), 1)
    ensures Reachable(cfg, false, s') && |s'.slots| == 1 && s'.slots[0].lock == Some(0)
    ensures s'.tasks == s.tasks[0 := Get(PatchUrl(Expired(n, 0), Look), 1)]
    ensures s'.slots[0].history == s.slots[0].history
  {
    var v := ViewOf(s, 0);
    assert Put(s, 0, v) == s;
    var v1 := v.At(Recheck(Expired(n, 0))).(slot := v.slot.(lock := Some(0)));
    var v2 := v1.At(PatchUrl(Expired(n, 0), Look));
    assert Value(n, n + 1) == Value(n, 0);
    Move(cfg, false, s, 0, v, Go, v1);
    Move(cfg, false, s, 0, v1, Go, v2);
    s' := Put(s, 0, v2);
  }
}
