/** The frames that no response callback takes: which target callback gets them. */
module Targets {
  import opened Common
  import opened Wire
  import opened IcmpState
  import opened IcmpNode
  import opened IcmpRuns
  import opened Ownership
  import opened Serials

  /** The frame in the context waits for its handler, which will offer it to `cb`. */
  predicate Awaits(s: Node, b: Block, it: Tagged, cb: Option<Callback>) {
    s.core.workPending && s.core.ctxFrame == Some(b) && b in s.core.slab && At(s, b) == it && s.core.ctxCb == cb
  }

  lemma CallersKeepContext(cfg: Config, s: Node, a: Action)
    requires Enabled(cfg, s, a) && CallerAction(a)
    ensures var t := Apply(cfg, s, a);
      t.core.workPending == s.core.workPending && t.core.ctxFrame == s.core.ctxFrame && t.core.ctxCb == s.core.ctxCb
  {
  }

  lemma OthersKeepContext(cfg: Config, s: Node, a: Action)
    requires Enabled(cfg, s, a) && !CallerAction(a) && !a.HandlerCheck? && !a.SubmitWork?
    ensures var t := Apply(cfg, s, a);
      t.core.workPending == s.core.workPending && t.core.ctxFrame == s.core.ctxFrame && t.core.ctxCb == s.core.ctxCb
  {
  }

  lemma AwaitsStep(cfg: Config, s: Node, a: Action, b: Block, it: Tagged, cb: Option<Callback>)
    requires Sound(cfg, s) && Awaits(s, b, it, cb) && Enabled(cfg, s, a) && !a.HandlerCheck?
    ensures Awaits(Apply(cfg, s, a), b, it, cb)
  {
    assert !a.SubmitWork? && !a.HandlerFree?;
    ContextUntouched(cfg, s, a);
    if CallerAction(a) {
      CallersKeepContext(cfg, s, a);
    } else {
      OthersKeepContext(cfg, s, a);
    }
  }

  lemma {:induction false} AwaitsUntilCheck(r: Rules, cfg: Config, s: Node, run: seq<Action>, b: Block, it: Tagged, cb: Option<Callback>)
    requires Sound(cfg, s) && Awaits(s, b, it, cb) && Runs(r, cfg, s, run)
    requires forall i :: 0 <= i < |run| ==> !run[i].HandlerCheck?
    ensures Awaits(Exec(r, cfg, s, run), b, it, cb)
    decreases run
  {
    if run != [] {
      AwaitsStep(cfg, s, run[0], b, it, cb);
      StepKeepsSound(cfg, s, run[0]);
      AwaitsUntilCheck(r, cfg, Apply(cfg, s, run[0]), run[1..], b, it, cb);
    }
  }

  /** Whatever happens between the hand-over and the handler, registrations included, the handler finds the
      very frame that was handed over, and the target callback that was registered for it at that time. */
  lemma TargetOfHandOver(r: Rules, cfg: Config, s: Node, run: seq<Action>)
    requires Sound(cfg, s) && s.thread.Dispatching? && FrameAt(s.core, s.thread.block).target < cfg.targets
    requires Runs(r, cfg, SubmitWorkStep(s), run) && forall i :: 0 <= i < |run| ==> !run[i].HandlerCheck?
    ensures var b := s.thread.block;
      Awaits(Exec(r, cfg, SubmitWorkStep(s), run), b, At(s, b), s.core.targets[FrameAt(s.core, b).target])
  {
    var b := s.thread.block;
    assert OwnedOnce(s, b);
    StepKeepsSound(cfg, s, SubmitWork);
    AwaitsUntilCheck(r, cfg, SubmitWorkStep(s), run, b, At(s, b), s.core.targets[FrameAt(s.core, b).target]);
  }
}
