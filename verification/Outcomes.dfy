/** What becomes of a command: it is in flight, or its callback has been invoked and its entry cleared, or it
    has been aged out, and never two of these. */
module Outcomes {
  import opened Common
  import opened Wire
  import opened IcmpState
  import opened IcmpNode
  import opened IcmpRuns
  import opened Ownership
  import opened Serials

  /** The commands whose callback has been invoked. */
  function Called(h: History): set<int> { set c | c in h.calls :: c.serial }

  ghost predicate OneOutcome(s: Node) { s.hist.cleared !! s.hist.expired && s.hist.cleared <= Called(s.hist) }

  lemma OwnerIsLive(cfg: Config, s: Node, m: nat)
    requires Serial(cfg, s) && m in s.core.inflight
    ensures Live(s, OwnerOf(s, m)) && OwnerOf(s, m) !in s.hist.cleared && OwnerOf(s, m) !in s.hist.expired
  {
    assert LatestOf(s.hist.allocs, m, s.hist.owner[m]);
    assert SettledOk(s, OwnerOf(s, m));
  }

  lemma TimeoutKeepsOutcomes(cfg: Config, s: Node, locked: bool)
    requires Serial(cfg, s) && OneOutcome(s)
    ensures OneOutcome(TimeoutStep(cfg, s, locked))
  {
    var n := TimeoutStep(cfg, s, locked);
    forall t | t in n.hist.expired ensures t !in n.hist.cleared {
      if t !in s.hist.expired {
        var m :| m in ExpiredIds(s.core, s.clock, cfg.maxAge) && t == OwnerOf(s, m);
        OwnerIsLive(cfg, s, m);
      }
    }
  }

  lemma ClearKeepsOutcomes(cfg: Config, s: Node)
    requires Sound(cfg, s) && Serial(cfg, s) && OneOutcome(s) && s.work.InCallback?
    ensures OneOutcome(HandlerClearStep(s))
  {
    ClearRemovesOnlyAnswered(cfg, s);
    OwnerIsLive(cfg, s, WindowId(s));
    assert s.hist.calls[|s.hist.calls| - 1] in s.hist.calls;
  }

  lemma CallKeepsOutcomes(s: Node)
    requires OneOutcome(s) && s.work.Checked?
    ensures OneOutcome(HandlerCallStep(s))
  {
    var n := HandlerCallStep(s);
    assert forall c :: c in s.hist.calls ==> c in n.hist.calls;
    assert Called(s.hist) <= Called(n.hist);
  }

  lemma OthersKeepOutcomes(cfg: Config, s: Node, a: Action)
    requires Enabled(cfg, s, a) && !a.Timeout? && !a.HandlerClear? && !a.HandlerCall?
    ensures SameOutcomes(s, Apply(cfg, s, a))
  {
    if CallerAction(a) {
      CallersKeepOutcomes(cfg, s, a);
    }
  }

  predicate SameOutcomes(s: Node, n: Node) {
    n.hist.cleared == s.hist.cleared && n.hist.expired == s.hist.expired && n.hist.calls == s.hist.calls
  }

  lemma CallersKeepOutcomes(cfg: Config, s: Node, a: Action)
    requires Enabled(cfg, s, a) && CallerAction(a)
    ensures SameOutcomes(s, Apply(cfg, s, a))
  {
  }

  lemma StepKeepsOneOutcome(cfg: Config, s: Node, a: Action)
    requires Sound(cfg, s) && Serial(cfg, s) && OneOutcome(s) && Enabled(cfg, s, a)
    ensures OneOutcome(Apply(cfg, s, a))
  {
    if a.Timeout? {
      TimeoutKeepsOutcomes(cfg, s, a.locked);
    } else if a.HandlerClear? {
      ClearKeepsOutcomes(cfg, s);
    } else if a.HandlerCall? {
      CallKeepsOutcomes(s);
    } else {
      OthersKeepOutcomes(cfg, s, a);
    }
  }

  lemma {:induction false} AlwaysOneOutcome(r: Rules, cfg: Config, s: Node, run: seq<Action>)
    requires Sound(cfg, s) && Serial(cfg, s) && OneOutcome(s) && Runs(r, cfg, s, run)
    ensures var t := Exec(r, cfg, s, run); Serial(cfg, t) && OneOutcome(t)
    decreases run
  {
    if run != [] {
      StepKeepsOneOutcome(cfg, s, run[0]);
      StepKeepsSound(cfg, s, run[0]);
      StepKeepsSerial(cfg, s, run[0]);
      AlwaysOneOutcome(r, cfg, Apply(cfg, s, run[0]), run[1..]);
    }
  }

  /** In every run, each allocation of an id is exactly one of: in flight, cleared after its callback, aged
      out; and no command is both called back and aged out, even while its callback is still running. */
  lemma ExactlyOneOutcome(r: Rules, cfg: Config, callers: nat, clock: nat, run: seq<Action>)
    requires Runs(r, cfg, Init(cfg, callers, clock), run)
    ensures var t := Exec(r, cfg, Init(cfg, callers, clock), run);
      && (forall g :: 0 <= g < |t.hist.allocs| ==> (Live(t, g) <==> g !in t.hist.cleared && g !in t.hist.expired))
      && t.hist.cleared !! t.hist.expired && t.hist.cleared <= Called(t.hist) && Called(t.hist) !! t.hist.expired
  {
    var init := Init(cfg, callers, clock);
    InitIsSound(cfg, callers, clock);
    InitIsSerial(cfg, callers, clock);
    AlwaysOneOutcome(r, cfg, init, run);
    AlwaysSerial(r, cfg, init, run);
    var t := Exec(r, cfg, init, run);
    forall g | 0 <= g < |t.hist.allocs| ensures Live(t, g) <==> g !in t.hist.cleared && g !in t.hist.expired {
      assert SettledOk(t, g);
    }
    forall g | g in Called(t.hist) ensures g !in t.hist.expired {
      var c :| c in t.hist.calls && c.serial == g;
      var i :| 0 <= i < |t.hist.calls| && t.hist.calls[i] == c;
      if g !in t.hist.cleared {
        assert Running(t, i);
        OwnerIsLive(cfg, t, WindowId(t));
      }
    }
  }
}
