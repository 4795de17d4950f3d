/** Reachable states of the token-refresh system, and how to extend a run. */
module RefreshReach {
  import opened Wrappers
  import opened TokenRefresh

  ghost predicate RunTo(cfg: Config, novel: bool, run: seq<System>, s: System) {
    Run(cfg, novel, run) && run[|run| - 1] == s
  }

  ghost predicate Reachable(cfg: Config, novel: bool, s: System) {
    exists run :: RunTo(cfg, novel, run, s)
  }

  lemma Initially(cfg: Config, novel: bool, s: System)
    requires Init(cfg, s)
    ensures Reachable(cfg, novel, s)
  {
    assert RunTo(cfg, novel, [s], s);
  }

  /** A run goes on with any next state. */
  lemma RunSnoc(cfg: Config, novel: bool, run: seq<System>, s: System)
    requires Run(cfg, novel, run) && Next(cfg, novel, run[|run| - 1], s)
    ensures Run(cfg, novel, run + [s])
  {
    var longer := run + [s];
    forall i | 0 < i < |longer|
      ensures NextAt(cfg, novel, longer, i)
    {
      if i < |run| {
        assert NextAt(cfg, novel, run, i);
      }
    }
  }

  lemma Extend(cfg: Config, novel: bool, s: System, t: nat, c: Choice)
    requires Reachable(cfg, novel, s)
    requires WellShaped(s) && t < |s.tasks| && (novel ==> FreshToken(s, t, c))
    requires Step(cfg, s, t, c).Some?
    ensures Reachable(cfg, novel, Step(cfg, s, t, c).value)
  {
    var run :| RunTo(cfg, novel, run, s);
    var s' := Step(cfg, s, t, c).value;
    assert TaskStep(cfg, novel, s, s', t, c);
    RunSnoc(cfg, novel, run, s');
    assert RunTo(cfg, novel, run + [s'], s');
  }

  /** The state in which task `t` sees `v` leads to the one in which it sees `w`. */
  lemma Move(cfg: Config, novel: bool, s: System, t: nat, v: View, c: Choice, w: View)
    requires WellShaped(s) && t < |s.tasks|
    requires v.task.slot == w.task.slot == s.tasks[t].slot && v.slot.Valid() && w.slot.Valid()
    requires Reachable(cfg, novel, Put(s, t, v)) && LocalStep(cfg, s.now, t, v, c) == Some(w)
    requires novel && c.Refreshed? ==> forall x <- v.slot.history :: x.accessToken != c.session.accessToken
    ensures Reachable(cfg, novel, Put(s, t, w))
  {
    var p := Put(s, t, v);
    assert ViewOf(p, t) == v;
    Extend(cfg, novel, p, t, c);
    assert Put(p, t, w) == Put(s, t, w);
  }
}
