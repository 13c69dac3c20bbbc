/** Response callbacks that call back into the library. */
module Reentry {
  import opened Common
  import opened Wire
  import opened IcmpState
  import opened IcmpNode
  import opened IcmpRuns
  import opened Ownership
  import opened Serials
  import opened Drain

  /** A response callback may call back into the library, and the other threads go on meanwhile: whatever they
      do, the handler's second half finds what it relies on. */
  lemma {:induction false} ReachedAfterCallback(r: Rules, cfg: Config, s: Node, run: seq<Action>)
    requires Sound(cfg, s) && Serial(cfg, s) && s.work.InCallback? && Runs(r, cfg, s, run)
    requires forall i :: 0 <= i < |run| ==> !run[i].HandlerClear?
    ensures var u := Exec(r, cfg, s, run);
      Reached(u, Some(s.work.block), true) && At(u, s.work.block) == At(s, s.work.block)
      && u.core.slab[s.work.block].msgId < cfg.ids
    decreases run
  {
    assert WindowOk(s) && EntryOk(s, WindowId(s));
    if run != [] {
      WindowStep(cfg, s, run[0]);
      WindowPc(cfg, s, run[0]);
      StepKeepsSound(cfg, s, run[0]);
      StepKeepsSerial(cfg, s, run[0]);
      ReachedAfterCallback(r, cfg, Apply(cfg, s, run[0]), run[1..]);
    }
  }
}
