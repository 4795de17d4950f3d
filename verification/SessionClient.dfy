/** `MessageSessionClient` of `src/session.rs` and `update_token_if_needed` of
    `src/client.rs`, statement by statement, as task `me` executes them.

    The stored sessions, the mutexes and the admin cache are fields that the
    statements read and write. The ghost `run` is the run of the transition
    system of `TokenRefresh.dfy` that the statements take: `Valid` ties every
    field to its last state. `Await` is an await point: time passes, the other
    tasks take any number of steps, and the future may be dropped. A method that
    finds a mutex taken returns `Blocked`: it is still waiting when the
    observation ends. */
module SessionClient {
  import opened Wrappers
  import opened Http
  import opened TokenRefresh
  import opened RefreshSafety
  import opened RefreshTheorems
  import opened RefreshReach

  /** How a call came back: normally; with the whole operation over; or not yet,
      because a mutex is taken. */
  datatype Flow = Continue | Ended(outcome: Outcome) | Blocked

  /** The views agree on all that a step reads: everything but the counters. */
  ghost predicate Alike(v: View, w: View) {
    && v.task == w.task && v.admin == w.admin && v.clientLock == w.clientLock
    && v.slot.Valid() && w.slot.Valid() && v.slot.retryMax == w.slot.retryMax
    && v.slot.history == w.slot.history && v.slot.lock == w.slot.lock
  }

  ghost predicate BothAlike(v: Option<View>, w: Option<View>) {
    v.Some? == w.Some? && (v.Some? ==> Alike(v.value, w.value))
  }

  lemma AdminAlike(cfg: Config, now: int, t: nat, v: View, w: View, c: Choice)
    requires Alike(v, w) && InAdmin(v.task.stage)
    ensures BothAlike(AdminStep(cfg, now, t, v, c), AdminStep(cfg, now, t, w, c))
  {
  }

  lemma RefreshAlike(t: nat, v: View, w: View, c: Choice)
    requires Alike(v, w) && !InAdmin(v.task.stage)
    ensures BothAlike(RefreshStep(t, v, c), RefreshStep(t, w, c))
  {
  }

  lemma QueueAlike(v: View, w: View, c: Choice)
    requires Alike(v, w)
    ensures BothAlike(QueueStep(v, c), QueueStep(w, c))
  {
  }

  lemma CancelAlike(cfg: Config, v: View, w: View, n: nat)
    requires Alike(v, w)
    ensures BothAlike(CancelStep(cfg, v, n), CancelStep(cfg, w, n))
  {
  }

  /** A step reads and writes no more of a slot than the fields that are tied to it. */
  lemma LocalAlike(cfg: Config, now: int, t: nat, v: View, w: View, c: Choice)
    requires Alike(v, w)
    ensures BothAlike(LocalStep(cfg, now, t, v, c), LocalStep(cfg, now, t, w, c))
  {
    if c.Cancel? {
      CancelAlike(cfg, v, w, c.sends);
    } else if InAdmin(v.task.stage) {
      AdminAlike(cfg, now, t, v, w, c);
    } else if HoldsSlot(v.task.stage) || v.task.stage.WaitSlot? {
      RefreshAlike(t, v, w, c);
    } else {
      QueueAlike(v, w, c);
    }
  }

  /** How often the transport sent the request that `c` answers. */
  function SendsOf(c: Choice, limit: nat): (n: nat)
    ensures n <= limit
  {
    if c.Go? || c.sends > limit then 0 else c.sends
  }

  predicate Fresh(stored: seq<Session>, session: Session) {
    forall x <- stored :: x.accessToken != session.accessToken
  }

  /** The fields of one message session are what its slot says. */
  ghost predicate Tied(s: Slot, session: Session, lock: Option<nat>, stored: seq<Session>, limit: nat) {
    && s.Valid() && s.history == stored && s.Current() == session && s.lock == lock && s.retryMax == limit
  }

  class Runtime {
    const cfg: Config
    const me: nat
    const op: Op
    const slot: nat
    const retryMax: seq<nat>

    // The message sessions, and the client they share.
    var sessions: seq<Session>
    var refreshLocks: seq<Option<nat>>
    var admin: AdminToken
    var clientLock: Option<nat>

    // The environment: the clock, the futures of the other tasks, every value
    // the server ever returned for a session, what the network answers and where
    // futures are dropped, and at the n-th await point how much time passes and
    // which tasks try to step.
    var now: int
    var peers: seq<Task>
    var log: seq<seq<Session>>
    var asked: nat
    const oracle: nat -> Choice
    const delay: nat -> nat
    const others: nat -> seq<(nat, Choice)>

    ghost var state: System
    ghost var run: seq<System>

    ghost predicate Running()
      reads this
    {
      && Run(cfg, true, run) && run[|run| - 1] == state && WellShaped(state)
      && me < |state.tasks| && state.tasks[me].op == op && state.tasks[me].slot == slot
    }

    /** Every field is what the last state of the run says. */
    ghost predicate Valid()
      reads this
    {
      Running() && ValidFor(state)
    }

    /** The fields are what `s` says, except for this task itself. */
    ghost predicate ValidFor(s: System)
      reads this
    {
      && |s.slots| == |sessions| == |refreshLocks| == |log| == |retryMax|
      && (forall k :: 0 <= k < |sessions| ==>
            Tied(s.slots[k], sessions[k], refreshLocks[k], log[k], retryMax[k]))
      && s.admin == admin && s.clientLock == clientLock && s.now == now
      && |peers| == |s.tasks| && (forall u :: 0 <= u < |peers| && u != me ==> peers[u] == s.tasks[u])
    }

    ghost function Stage(): Stage
      requires me < |state.tasks|
      reads this
    {
      state.tasks[me].stage
    }

    /** This task holds none of its mutexes. */
    ghost predicate Free()
      requires slot < |refreshLocks|
      reads this
    {
      refreshLocks[slot] != Some(me) && clientLock != Some(me)
    }

    /** The operation is over, and its guards are dropped. */
    ghost predicate Over(outcome: Outcome)
      reads this
    {
      Valid() && Stage() == Done(outcome) && Free()
    }

    /** The operation waits for a mutex that another task holds. */
    ghost predicate Waiting()
      reads this
    {
      && Valid()
      && ((Stage().WaitSlot? && refreshLocks[slot].Some? && refreshLocks[slot] != Some(me))
          || (InAdmin(Stage()) && Stage().admin.WaitClient? && clientLock.Some? && clientLock != Some(me)))
    }

    /** The operation is over, or it waits for a mutex that another task holds. */
    ghost predicate Halted(r: Flow)
      reads this
    {
      match r
      case Continue => false
      case Ended(outcome) => Over(outcome)
      case Blocked => Waiting()
    }

    /** What a call inside the operation leaves behind when it does not come back
        normally: the operation is over without success, or it waits. */
    ghost predicate Broken(r: Flow)
      reads this
    {
      Halted(r) && r != Ended(Completed)
    }

    twostate predicate Continues()
      reads this
    {
      old(run) <= run
    }

    constructor (
        cfg: Config, oracle: nat -> Choice, delay: nat -> nat, others: nat -> seq<(nat, Choice)>,
        me: nat, initial: System)
      requires Init(cfg, initial) && me < |initial.tasks|
      ensures Valid() && state == initial && run == [initial] && Stage() == Start
      ensures this.cfg == cfg && this.me == me && op == initial.tasks[me].op && slot == initial.tasks[me].slot
    {
      var n := |initial.slots|;
      this.cfg, this.oracle, this.delay, this.others, this.me := cfg, oracle, delay, others, me;
      op, slot := initial.tasks[me].op, initial.tasks[me].slot;
      retryMax := seq(n, k requires 0 <= k < n => initial.slots[k].retryMax);
      sessions := seq(n, k requires 0 <= k < n => initial.slots[k].history[0]);
      refreshLocks := seq(n, k requires 0 <= k < n => None);
      log := seq(n, k requires 0 <= k < n => initial.slots[k].history);
      admin, clientLock, now, peers, asked := initial.admin, None, initial.now, initial.tasks, 0;
      state, run := initial, [initial];
    }

    // ----- The run -----

    /** Task `t` takes one step of the transition system. */
    ghost method Note(t: nat, c: Choice)
      requires Running() && t < |state.tasks| && FreshToken(state, t, c) && Step(cfg, state, t, c).Some?
      modifies this`state, this`run
      ensures Running() && Continues() && run == old(run) + [state]
      ensures state == Put(old(state), t, LocalStep(cfg, old(state.now), t, ViewOf(old(state), t), c).value)
    {
      StepKeepsShape(cfg, state, t, c);
      var s := state;
      state := Step(cfg, state, t, c).value;
      assert TaskStep(cfg, true, s, state, t, c);
      RunSnoc(cfg, true, run, state);
      run := run + [state];
    }

    /** The mutexes are held exactly where the source holds their guards. */
    lemma Guards()
      requires Valid()
      ensures refreshLocks[slot] == Some(me) <==> HoldsSlot(Stage())
      ensures clientLock == Some(me) <==> HoldsClient(Stage())
    {
      RunKeepsInv(cfg, true, run, |run| - 1);
    }

    /** What the snapshots of this task are, in terms of the server's answers. */
    lemma Snapshots()
      requires Valid()
      ensures StageOk(state.slots[slot], Stage()) && TokensDistinct(state.slots[slot])
    {
      RunKeepsFreshInv(cfg, run, |run| - 1);
    }

    // ----- The environment -----

    method Elapse(seconds: nat)
      requires Valid()
      modifies this`now, this`state, this`run
      ensures Valid() && Continues() && state.tasks == old(state.tasks)
    {
      now := now + seconds;
      ghost var later := state.(now := now);
      assert Tick(state, later);
      RunSnoc(cfg, true, run, later);
      state := later;
      run := run + [later];
    }

    /** Task `u` takes a step, if it can. */
    method PeerStep(u: nat, c: Choice)
      requires Valid() && u != me
      modifies this`sessions, this`refreshLocks, this`admin, this`clientLock, this`peers, this`log
      modifies this`state, this`run
      ensures Valid() && Continues() && |state.tasks| == old(|state.tasks|)
      ensures state.tasks[me] == old(state.tasks[me])
    {
      if u >= |peers| {
        return;
      }
      var seen := ViewOfPeer(u);
      var next := LocalStep(cfg, now, u, seen, c);
      if next.None? || (c.Refreshed? && !Fresh(seen.slot.history, c.session)) {
        return;
      }
      LocalAlike(cfg, now, u, seen, ViewOf(state, u), c);
      LocalFrame(cfg, now, u, ViewOf(state, u), c);
      ghost var before := state;
      ghost var after := LocalStep(cfg, now, u, ViewOf(state, u), c).value;
      Note(u, c);
      StorePeer(u, next.value, before, after);
    }

    /** What task `u` sees. */
    function ViewOfPeer(u: nat): (v: View)
      requires Valid() && u != me && u < |peers|
      reads this
      ensures Alike(v, ViewOf(state, u))
    {
      var k := peers[u].slot;
      var zeros := seq(|log[k]|, _ => 0);
      View(peers[u], Slot(retryMax[k], log[k], refreshLocks[k], zeros, zeros), admin, clientLock, 0, 0, 0)
    }

    /** The fields follow the step of task `u` from `before` to the view `w`. */
    method StorePeer(u: nat, v: View, ghost before: System, ghost w: View)
      requires u < |before.tasks| && before.tasks[u].slot < |before.slots|
      requires Running() && Alike(v, w) && w.task.slot == before.tasks[u].slot && state == Put(before, u, w)
      requires u != me && ValidFor(before) && w.slot.retryMax == before.slots[w.task.slot].retryMax
      modifies this`sessions, this`refreshLocks, this`admin, this`clientLock, this`peers, this`log
      ensures Valid()
    {
      var k := v.task.slot;
      peers, log := peers[u := v.task], log[k := v.slot.history];
      sessions, refreshLocks := sessions[k := v.slot.Current()], refreshLocks[k := v.slot.lock];
      admin, clientLock := v.admin, v.clientLock;
    }

    /** This operation ends here, by an error or because it is dropped: every
        guard on its stack is dropped. */
    method Unwind(ghost c: Choice)
      requires Valid() && FreshToken(state, me, c) && Step(cfg, state, me, c).Some? && !c.Refreshed?
      requires
        var w := LocalStep(cfg, state.now, me, ViewOf(state, me), c).value;
        w.task.stage.Done? && w.admin == admin
      modifies this`refreshLocks, this`clientLock, this`state, this`run
      ensures
        var w := LocalStep(cfg, old(state.now), me, ViewOf(old(state), me), c).value;
        Over(w.task.stage.outcome)
      ensures Continues() && state == Step(cfg, old(state), me, c).value
    {
      Guards();
      LocalLocks(cfg, state.now, me, ViewOf(state, me), c);
      LocalHistory(cfg, state.now, me, ViewOf(state, me), c);
      LocalFrame(cfg, state.now, me, ViewOf(state, me), c);
      if refreshLocks[slot] == Some(me) {
        refreshLocks := refreshLocks[slot := None];
      }
      if clientLock == Some(me) {
        clientLock := None;
      }
      Note(me, c);
    }

    method Await() returns (dropped: bool)
      requires Valid() && !Stage().Done?
      modifies this
      ensures Valid() && Continues()
      ensures !dropped ==> state.tasks[me] == old(state.tasks[me])
      ensures dropped ==> Over(Cancelled)
    {
      var n := asked;
      asked := asked + 1;
      Elapse(delay(n));
      var moves := others(n);
      for i := 0 to |moves|
        invariant Valid() && Continues() && state.tasks[me] == old(state.tasks[me])
      {
        if moves[i].0 != me {
          PeerStep(moves[i].0, moves[i].1);
        }
      }
      dropped := oracle(n).Cancel?;
      if dropped {
        ghost var limit := if OnQueueWire(Stage()) then Attempts(state.slots[slot].retryMax)
                           else if Fetching(Stage()) then Attempts(cfg.retryMax) else 0;
        Unwind(Cancel(SendsOf(oracle(n), limit)));
      }
    }

    /** The answer to a request of a token fetch other than the last one. */
    method AskAdmin() returns (sends: nat, ok: bool)
      modifies this`asked
      ensures Ends(Answer(sends, if ok then Accepted else Rejected), Attempts(cfg.retryMax))
    {
      var c := oracle(asked);
      asked := asked + 1;
      sends := SendsOf(c, Attempts(cfg.retryMax));
      ok := sends > 0 && c.Answer? && c.reply.Accepted?;
    }

    /** The answer of the runner-registration endpoint: service address and token. */
    method AskConnection() returns (sends: nat, connection: Option<(string, string)>)
      modifies this`asked
      ensures sends <= Attempts(cfg.retryMax) && (connection.Some? ==> 0 < sends)
    {
      var c := oracle(asked);
      asked := asked + 1;
      sends := SendsOf(c, Attempts(cfg.retryMax));
      connection := if sends > 0 && c.Connected? then Some((c.url, c.token)) else None;
    }

    /** The answer to a PATCH. The server returns no token twice. */
    method AskPatch() returns (sends: nat, answer: Option<Session>)
      requires slot < |log| == |retryMax|
      modifies this`asked
      ensures sends <= Attempts(retryMax[slot])
      ensures answer.Some? ==> 0 < sends && Fresh(log[slot], answer.value)
    {
      var c := oracle(asked);
      asked := asked + 1;
      sends := SendsOf(c, Attempts(retryMax[slot]));
      answer := if sends > 0 && c.Refreshed? && Fresh(log[slot], c.session) then Some(c.session) else None;
    }

    /** The answer to a queue request. */
    method AskQueue() returns (sends: nat, reply: Reply)
      requires slot < |retryMax|
      modifies this`asked
      ensures Ends(Answer(sends, reply), Attempts(retryMax[slot]))
    {
      var c := oracle(asked);
      asked := asked + 1;
      sends := SendsOf(c, Attempts(retryMax[slot]));
      reply := if sends > 0 && c.Answer? then c.reply else Rejected;
    }

    // ----- The admin token -----

    /** `update_token_if_needed` handed out `token`: it is well formed, it is the
        cached one, and it has more than 60 seconds left or was stored just now. */
    ghost predicate HandedOut(site: Stage, token: AdminToken)
      requires InAdmin(site)
      reads this
    {
      && Valid() && Stage() == AfterAdmin(site, token) && clientLock != Some(me)
      && token == admin && WellFormed(cfg, token)
      && (token.expiresAt.value - now > 60 || (|run| > 1 && run[|run| - 1].installs == run[|run| - 2].installs + 1))
    }

    /** `snapshot_token` */
    method SnapshotToken() returns (token: Option<AdminToken>)
      requires Valid()
      ensures token.Some? <==> admin.token != "" && admin.expiresAt.Some? && admin.expiresAt.value - now > 60
      ensures token.Some? ==> token.value == admin
      ensures token.Some? ==> WellFormed(cfg, token.value)
    {
      RunKeepsInv(cfg, true, run, |run| - 1);
      var cached := admin;
      if cached.expiresAt.None? {
        return None;
      }
      if now + 60 >= cached.expiresAt.value {
        return None;
      }
      if cached.token == "" {
        return None;
      }
      return Some(cached);
    }

    method FirstLook() returns (token: Option<AdminToken>)
      requires Valid() && InAdmin(Stage()) && Stage().admin == Look
      modifies this`state, this`run
      ensures Valid() && Continues() && state.tasks[me].queueSends == old(state.tasks[me].queueSends)
      ensures if token.Some? then HandedOut(old(Stage()), token.value) && token.value == old(admin)
              else Stage() == old(Stage()).(admin := WaitClient)
      ensures token.Some? <==> admin.token != "" && admin.expiresAt.Some? && admin.expiresAt.value - now > 60
    {
      Guards();
      token := SnapshotToken();
      Note(me, Go);
    }

    /** `self.inner.refresh.lock()`, if it is free. */
    method LockClient() returns (locked: bool)
      requires Valid() && InAdmin(Stage()) && Stage().admin == WaitClient
      modifies this`clientLock, this`state, this`run
      ensures Valid() && Continues() && state.tasks[me].queueSends == old(state.tasks[me].queueSends)
      ensures if locked then Stage() == old(Stage()).(admin := LookAgain) && clientLock == Some(me)
              else Stage() == old(Stage()) && Waiting()
    {
      Guards();
      locked := clientLock.None?;
      if locked {
        clientLock := Some(me);
        Note(me, Go);
      }
    }

    /** The look under the lock; the guard is dropped when it finds a token. */
    method SecondLook() returns (token: Option<AdminToken>)
      requires Valid() && InAdmin(Stage()) && Stage().admin == LookAgain
      modifies this`clientLock, this`state, this`run
      ensures Valid() && Continues() && state.tasks[me].queueSends == old(state.tasks[me].queueSends)
      ensures if token.Some? then HandedOut(old(Stage()), token.value)
              else Stage() == old(Stage()).(admin := Fetch(if cfg.usesApp then 3 else 2))
      ensures token.Some? <==> admin.token != "" && admin.expiresAt.Some? && admin.expiresAt.value - now > 60
    {
      Guards();
      token := SnapshotToken();
      if token.Some? {
        clientLock := None;
      }
      Note(me, Go);
    }

    /** `update_token_if_needed` */
    method UpdateTokenIfNeeded() returns (r: Flow, token: AdminToken)
      requires Valid() && InAdmin(Stage()) && Stage().admin == Look
      modifies this
      ensures Valid() && Continues()
      ensures if r == Continue then HandedOut(old(Stage()), token) else Broken(r)
      ensures r == Continue ==> state.tasks[me].queueSends == old(state.tasks[me].queueSends)
    {
      var dropped := Await();
      if dropped {
        return Ended(Cancelled), EMPTY_ADMIN;
      }
      var snapshot := FirstLook();
      if snapshot.Some? {
        return Continue, snapshot.value;
      }
      r, token := LockAndUpdate();
    }

    /** `self.inner.refresh.lock()`, and what it guards. */
    method LockAndUpdate() returns (r: Flow, token: AdminToken)
      requires Valid() && InAdmin(Stage()) && Stage().admin == WaitClient
      modifies this
      ensures Valid() && Continues()
      ensures if r == Continue then HandedOut(old(Stage()), token) else Broken(r)
      ensures r == Continue ==> state.tasks[me].queueSends == old(state.tasks[me].queueSends)
    {
      var dropped := Await();
      if dropped {
        return Ended(Cancelled), EMPTY_ADMIN;
      }
      var locked := LockClient();
      if !locked {
        return Blocked, EMPTY_ADMIN;
      }
      r, token := UpdateUnderLock();
    }

    /** The second look, and the fetch. */
    method UpdateUnderLock() returns (r: Flow, token: AdminToken)
      requires Valid() && InAdmin(Stage()) && Stage().admin == LookAgain
      modifies this
      ensures Valid() && Continues()
      ensures if r == Continue then HandedOut(old(Stage()), token) else Broken(r)
      ensures r == Continue ==> state.tasks[me].queueSends == old(state.tasks[me].queueSends)
    {
      var dropped := Await();
      if dropped {
        return Ended(Cancelled), EMPTY_ADMIN;
      }
      var snapshot := SecondLook();
      if snapshot.Some? {
        return Continue, snapshot.value;
      }
      r, token := FetchToken();
    }

    /** The requests of a fetch: for a GitHub App `fetch_installation_token`, then
        `get_runner_registration_token` and `get_actions_service_admin_connection`. */
    method FetchToken() returns (r: Flow, token: AdminToken)
      requires Valid() && Fetching(Stage()) && Stage().admin.left == if cfg.usesApp then 3 else 2
      modifies this
      ensures Valid() && Continues()
      ensures if r == Continue then HandedOut(old(Stage()), token) else Broken(r)
      ensures r == Continue ==> state.tasks[me].queueSends == old(state.tasks[me].queueSends)
      ensures r != Blocked
    {
      token := EMPTY_ADMIN;
      if cfg.usesApp {
        r := AdminRequest();
        if r != Continue {
          return;
        }
      }
      r := AdminRequest();
      if r != Continue {
        return;
      }
      r, token := AdminConnection();
    }

    method AdminRequest() returns (r: Flow)
      requires Valid() && Fetching(Stage()) && 1 < Stage().admin.left
      modifies this
      ensures Valid() && Continues()
      ensures if r == Continue then Stage() == old(Stage()).(admin := Fetch(old(Stage()).admin.left - 1)) else Broken(r)
      ensures r == Continue ==> state.tasks[me].queueSends == old(state.tasks[me].queueSends)
      ensures r != Blocked
    {
      var dropped := Await();
      if dropped {
        return Ended(Cancelled);
      }
      var sends, ok := AskAdmin();
      if !ok {
        Unwind(Answer(sends, Rejected));
        return Ended(Failed);
      }
      Note(me, Answer(sends, Accepted));
      return Continue;
    }

    /** `get_actions_service_admin_connection`, and the storing of its token. */
    method AdminConnection() returns (r: Flow, token: AdminToken)
      requires Valid() && Fetching(Stage()) && Stage().admin.left == 1
      modifies this
      ensures Valid() && Continues()
      ensures if r == Continue then HandedOut(old(Stage()), token) else Broken(r)
      ensures r == Continue ==> state.tasks[me].queueSends == old(state.tasks[me].queueSends)
      ensures r != Blocked
    {
      var dropped := Await();
      if dropped {
        return Ended(Cancelled), EMPTY_ADMIN;
      }
      var sends, connection := AskConnection();
      if connection.None? {
        Unwind(Answer(sends, Rejected));
        return Ended(Failed), EMPTY_ADMIN;
      }
      var (url, text) := connection.value;
      if url == "" || text == "" {
        Unwind(Connected(sends, url, text));
        return Ended(Failed), EMPTY_ADMIN;
      }
      if cfg.expiry(text).None? {
        Unwind(Connected(sends, url, text));
        return Ended(Failed), EMPTY_ADMIN;
      }
      token := StoreToken(sends, url, text);
      return Continue, token;
    }

    /** `*self.inner.admin.write().await = token`, and the end of the guard. */
    method StoreToken(ghost sends: nat, url: string, text: string) returns (token: AdminToken)
      requires Valid() && Fetching(Stage()) && Stage().admin.left == 1
      requires 0 < sends <= Attempts(cfg.retryMax) && url != "" && text != "" && cfg.expiry(text).Some?
      modifies this`admin, this`clientLock, this`state, this`run
      ensures Valid() && Continues() && HandedOut(old(Stage()), token)
      ensures token == AdminToken(text, "Bearer " + text, cfg.expiry(text), url)
      ensures state.tasks[me].queueSends == old(state.tasks[me].queueSends)
    {
      token := AdminToken(text, "Bearer " + text, cfg.expiry(text), url);
      admin := token;
      clientLock := None;
      Note(me, Connected(sends, url, text));
    }

    /** `actions_url`, as far as it depends on the token: its service address. */
    method ServiceAddress() returns (r: Flow, url: string)
      requires Valid() && InAdmin(Stage()) && Stage().admin == Look
      modifies this
      ensures Valid() && Continues()
      ensures if r == Continue then HandedOut(old(Stage()), admin) && url == admin.url else Broken(r)
      ensures r == Continue ==> state.tasks[me].queueSends == old(state.tasks[me].queueSends)
    {
      var token;
      r, token := UpdateTokenIfNeeded();
      url := token.url;
    }

    /** `admin_authorization` */
    method AdminAuthorization() returns (r: Flow, header: string)
      requires Valid() && InAdmin(Stage()) && Stage().admin == Look
      modifies this
      ensures Valid() && Continues()
      ensures if r == Continue then HandedOut(old(Stage()), admin) && header == admin.header else Broken(r)
      ensures r == Continue ==> state.tasks[me].queueSends == old(state.tasks[me].queueSends)
    {
      var token;
      r, token := UpdateTokenIfNeeded();
      header := token.header;
    }

    // ----- The session -----

    /** `current_session` */
    method CurrentSession() returns (session: Session, ghost generation: nat)
      requires Valid() && (Stage().Start? || Stage().Reread?)
      modifies this`state, this`run
      ensures Valid() && Continues() && session == sessions[slot]
      ensures
        var snap := Snap(session, generation);
        match old(Stage())
        case Start => Stage() == if op.AcquireJobs? then FirstUrl(snap, Look) else FirstRequest(snap)
        case Reread(rejected) =>
          && rejected.generation < generation && rejected.session.accessToken != session.accessToken
          && Stage() == if op.AcquireJobs? then SecondUrl(rejected, snap, Look) else SecondRequest(rejected, snap)
        case _ => true
    {
      Snapshots();
      session := sessions[slot];
      generation := state.slots[slot].Last();
      Note(me, Go);
    }

    /** `refresh_session`. On a normal return the stored session is not the
        expired one: either it was found changed and nothing was sent, or it is
        the one that PATCH answered. */
    method RefreshSession(expired: Session, ghost generation: nat) returns (r: Flow, answer: Option<Session>)
      requires Valid() && Stage() == WaitSlot(Snap(expired, generation))
      modifies this
      ensures Valid() && Continues()
      ensures if r == Continue then Refreshed(expired, generation, answer, old(state.tasks[me].queueSends))
              else Broken(r)
    {
      var dropped := Await();
      if dropped {
        return Ended(Cancelled), None;
      }
      var locked := LockSession(expired, generation);
      if !locked {
        return Blocked, None;
      }
      r, answer := RefreshUnderLock(expired, generation);
    }

    /** `self.refresh.lock()`, if it is free. */
    method LockSession(expired: Session, ghost generation: nat) returns (locked: bool)
      requires Valid() && Stage() == WaitSlot(Snap(expired, generation))
      modifies this`refreshLocks, this`state, this`run
      ensures Valid() && Continues() && state.tasks[me].queueSends == old(state.tasks[me].queueSends)
      ensures if locked then Stage() == Recheck(Snap(expired, generation)) && refreshLocks[slot] == Some(me)
              else Stage() == old(Stage()) && Waiting()
    {
      Guards();
      locked := refreshLocks[slot].None?;
      if locked {
        refreshLocks := refreshLocks[slot := Some(me)];
        Note(me, Go);
      }
    }

    /** The comparison, and the PATCH if nobody else has refreshed. */
    method RefreshUnderLock(expired: Session, ghost generation: nat) returns (r: Flow, answer: Option<Session>)
      requires Valid() && Stage() == Recheck(Snap(expired, generation))
      modifies this
      ensures Valid() && Continues()
      ensures if r == Continue then Refreshed(expired, generation, answer, old(state.tasks[me].queueSends))
              else Broken(r)
    {
      var dropped := Await();
      if dropped {
        return Ended(Cancelled), None;
      }
      var changed := Compare(expired, generation);
      if changed {
        return Continue, None;
      }
      r, answer := Patch(expired, generation);
    }

    method Patch(expired: Session, ghost generation: nat) returns (r: Flow, answer: Option<Session>)
      requires Valid() && Stage() == PatchUrl(Snap(expired, generation), Look)
      modifies this
      ensures Valid() && Continues()
      ensures if r == Continue then Refreshed(expired, generation, answer, old(state.tasks[me].queueSends))
              else Broken(r)
      ensures r == Continue ==> answer.Some?
    {
      answer := None;
      var url, header;
      r, url := ServiceAddress();
      if r != Continue {
        return;
      }
      r, header := AdminAuthorization();
      if r != Continue {
        return;
      }
      r, answer := SendPatch(expired, generation, url, header);
    }

    /** What a finished refresh leaves behind. */
    ghost predicate Refreshed(expired: Session, generation: nat, answer: Option<Session>, sends: nat)
      reads this
    {
      && Valid() && Stage() == Reread(Snap(expired, generation)) && Free() && refreshLocks[slot].None?
      && (sessions[slot].sessionId, sessions[slot].accessToken) != (expired.sessionId, expired.accessToken)
      && match answer
         case None => state.tasks[me].queueSends == sends
         case Some(session) =>
           && sessions[slot] == session && sends < state.tasks[me].queueSends
           && |log[slot]| > 1 && log[slot][|log[slot]| - 2] == expired
    }

    /** The comparison with the stored session under the lock. */
    method Compare(expired: Session, ghost generation: nat) returns (changed: bool)
      requires Valid() && Stage() == Recheck(Snap(expired, generation))
      modifies this`refreshLocks, this`state, this`run
      ensures Valid() && Continues() && state.tasks[me].queueSends == old(state.tasks[me].queueSends)
      ensures changed <==>
              (sessions[slot].sessionId, sessions[slot].accessToken) != (expired.sessionId, expired.accessToken)
      ensures if changed then Stage() == Reread(Snap(expired, generation)) && Free() && refreshLocks[slot].None?
              else Stage() == PatchUrl(Snap(expired, generation), Look) && refreshLocks[slot] == Some(me)
    {
      Guards();
      var current := sessions[slot];
      changed := current.sessionId != expired.sessionId || current.accessToken != expired.accessToken;
      if changed {
        refreshLocks := refreshLocks[slot := None];
      }
      Note(me, Go);
    }

    /** The PATCH, and the storing of its answer. */
    method SendPatch(expired: Session, ghost generation: nat, url: string, header: string)
      returns (r: Flow, answer: Option<Session>)
      requires Valid() && Stage() == PatchReady(Snap(expired, generation), url, header)
      modifies this
      ensures Valid() && Continues()
      ensures if r == Continue then Refreshed(expired, generation, answer, old(state.tasks[me].queueSends))
              else Broken(r)
      ensures r != Blocked && (r == Continue ==> answer.Some?)
    {
      var dropped := Await();
      if dropped {
        return Ended(Cancelled), None;
      }
      Note(me, Go);
      r, answer := ReceivePatch(expired, generation);
    }

    method ReceivePatch(expired: Session, ghost generation: nat) returns (r: Flow, answer: Option<Session>)
      requires Valid() && Stage().PatchInFlight? && Stage().snap == Snap(expired, generation)
      modifies this
      ensures Valid() && Continues()
      ensures if r == Continue then Refreshed(expired, generation, answer, old(state.tasks[me].queueSends))
              else Broken(r)
      ensures r != Blocked && (r == Continue ==> answer.Some?)
    {
      var dropped := Await();
      if dropped {
        return Ended(Cancelled), None;
      }
      var sends;
      sends, answer := AskPatch();
      if answer.None? {
        Unwind(Answer(sends, Rejected));
        return Ended(Failed), None;
      }
      StorePatch(expired, generation, sends, answer.value);
      return Continue, answer;
    }

    /** `*self.session.write().await = ...`, and the end of the guard. */
    method StorePatch(expired: Session, ghost generation: nat, ghost sends: nat, session: Session)
      requires Valid() && Stage().PatchInFlight? && Stage().snap == Snap(expired, generation)
      requires 0 < sends <= Attempts(retryMax[slot]) && Fresh(log[slot], session)
      modifies this`sessions, this`log, this`refreshLocks, this`state, this`run
      ensures Valid() && Continues()
      ensures Refreshed(expired, generation, Some(session), old(state.tasks[me].queueSends))
    {
      Snapshots();
      Guards();
      sessions := sessions[slot := session];
      log := log[slot := log[slot] + [session]];
      refreshLocks := refreshLocks[slot := None];
      Note(me, TokenRefresh.Refreshed(sends, session));
    }

    // ----- The queue operations -----

    /** The stage before an attempt that will carry `session`. */
    ghost predicate BeforeAttempt(session: Session)
      requires me < |state.tasks|
      reads this
    {
      match Stage()
      case FirstUrl(snap, admin) => op.AcquireJobs? && admin == Look && snap.session == session
      case FirstRequest(snap) => !op.AcquireJobs? && snap.session == session
      case SecondUrl(_, snap, admin) => op.AcquireJobs? && admin == Look && snap.session == session
      case SecondRequest(_, snap) => !op.AcquireJobs? && snap.session == session
      case _ => false
    }

    /** `get_message_once`, `delete_message_once` and `acquire_jobs_once`. Only the
        last asks for the service address; the other two find it in the session. */
    method AttemptOnce(session: Session) returns (r: Flow, reply: Reply)
      requires Valid() && BeforeAttempt(session)
      modifies this
      ensures Valid() && Continues()
      ensures if r == Continue then Answered(old(Stage()), reply) else Broken(r)
    {
      reply := Rejected;
      if op.AcquireJobs? {
        var url;
        r, url := ServiceAddress();
        if r != Continue {
          return;
        }
      }
      var dropped := Await();
      if dropped {
        return Ended(Cancelled), reply;
      }
      reply := SendQueue(session);
      return Continue, reply;
    }

    /** The request of an attempt, with the access token of `session`. */
    method SendQueue(session: Session) returns (reply: Reply)
      requires Valid() && (Stage().FirstRequest? || Stage().SecondRequest?) && Stage().snap.session == session
      modifies this`asked, this`state, this`run
      ensures Valid() && Continues() && Answered(old(Stage()), reply)
    {
      Guards();
      var sends;
      sends, reply := AskQueue();
      Note(me, Answer(sends, reply));
    }

    /** A first attempt may go on to a refresh; a second one ends the operation. */
    ghost predicate Answered(site: Stage, reply: Reply)
      reads this
    {
      match reply
      case Accepted => Over(Completed)
      case Rejected => Over(Failed)
      case Unauthorized =>
        if site.FirstUrl? || site.FirstRequest? then Valid() && Stage() == WaitSlot(site.snap) else Over(Failed)
    }

    /** How the answers to the attempts decide an operation that came back. */
    ghost predicate Decided(r: Flow, carried: seq<Session>, replies: seq<Reply>) {
      && |carried| == |replies| <= 2
      && (|replies| == 2 ==> replies[0] == Unauthorized && carried[0].accessToken != carried[1].accessToken)
      && (replies != [] && (|replies| == 2 || replies[0] != Unauthorized) ==>
            r == Ended(if replies[|replies| - 1] == Accepted then Completed else Failed))
      && (r == Ended(Completed) ==> replies != [] && replies[|replies| - 1] == Accepted)
    }

    /** `get_message`, `delete_message` and `acquire_jobs`, which share their shape.
        `carried` lists the sessions of the answered attempts, and `replies` the
        answers: at most one, or a 401 and one for another token. The last answer
        decides the outcome, unless the operation was dropped or failed before it,
        or waits for a mutex. */
    method QueueOperation() returns (r: Flow, carried: seq<Session>, replies: seq<Reply>)
      requires Valid() && Stage() == Start
      modifies this
      ensures Valid() && Continues() && Halted(r) && Decided(r, carried, replies)
      ensures
        var perRefresh := if cfg.usesApp then 3 else 2;
        var refreshes := if op.AcquireJobs? then 4 else 2;
        && state.tasks[me].queueSends <= 3 * (retryMax[slot] + 1)
        && state.tasks[me].adminSends <= refreshes * (perRefresh * (cfg.retryMax + 1))
    {
      r, carried, replies := BothAttempts();
      OperationBudget(cfg, true, run, |run| - 1, me);
    }

    method BothAttempts() returns (r: Flow, carried: seq<Session>, replies: seq<Reply>)
      requires Valid() && Stage() == Start
      modifies this
      ensures Valid() && Continues() && Halted(r) && Decided(r, carried, replies)
    {
      var dropped := Await();
      if dropped {
        return Ended(Cancelled), [], [];
      }
      var session, reply;
      ghost var generation;
      r, session, generation, reply := FirstAttempt();
      if r != Continue {
        return r, [], [];
      }
      if reply != Unauthorized {
        return Ended(if reply == Accepted then Completed else Failed), [session], [reply];
      }
      var again;
      r, again := RefreshAndRetry(session, generation);
      if again.None? {
        return r, [session], [reply];
      }
      return r, [session, again.value.0], [reply, again.value.1];
    }

    method FirstAttempt() returns (r: Flow, session: Session, ghost generation: nat, reply: Reply)
      requires Valid() && Stage() == Start
      modifies this
      ensures Valid() && Continues()
      ensures if r == Continue then Answered(FirstRequest(Snap(session, generation)), reply) else Broken(r)
    {
      session, generation := CurrentSession();
      r, reply := AttemptOnce(session);
    }

    /** What follows a 401. */
    method RefreshAndRetry(expired: Session, ghost generation: nat)
      returns (r: Flow, again: Option<(Session, Reply)>)
      requires Valid() && Stage() == WaitSlot(Snap(expired, generation))
      modifies this
      ensures Valid() && Continues() && Halted(r)
      ensures if again.None? then r != Ended(Completed)
              else r == Ended(if again.value.1 == Accepted then Completed else Failed)
                   && again.value.0.accessToken != expired.accessToken
    {
      var answer;
      r, answer := RefreshSession(expired, generation);
      if r != Continue {
        return r, None;
      }
      r, again := Retry(expired, generation);
    }

    /** The second attempt, with the session read again. */
    method Retry(expired: Session, ghost generation: nat)
      returns (r: Flow, again: Option<(Session, Reply)>)
      requires Valid() && Stage() == Reread(Snap(expired, generation))
      modifies this
      ensures Valid() && Continues() && Halted(r)
      ensures if again.None? then r != Ended(Completed)
              else r == Ended(if again.value.1 == Accepted then Completed else Failed)
                   && again.value.0.accessToken != expired.accessToken
    {
      var dropped := Await();
      if dropped {
        return Ended(Cancelled), None;
      }
      var session, later := CurrentSession();
      var reply;
      r, reply := AttemptOnce(session);
      if r != Continue {
        return r, None;
      }
      return Ended(if reply == Accepted then Completed else Failed), Some((session, reply));
    }
  }
}
