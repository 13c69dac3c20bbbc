/** The table entries of ids that are not in flight: nothing of an earlier command is left in them. */
module Entries {
  import opened Common
  import opened Wire
  import opened IcmpState
  import opened IcmpNode
  import opened IcmpRuns
  import opened Ownership
  import opened Serials
  import opened Fifo
  import opened Pending
  import opened Matching
  import opened Sending

  predicate Vacant(e: Entry) { e.callback.None? && e.userData == 0 }

  ghost predicate FreeAreVacant(s: Node) {
    forall m :: 0 <= m < |s.core.table| && m !in s.core.inflight ==> Vacant(s.core.table[m])
  }

  lemma StepKeepsVacant(cfg: Config, s: Node, a: Action)
    requires Sound(cfg, s) && FreeAreVacant(s) && Enabled(cfg, s, a)
    ensures FreeAreVacant(Apply(cfg, s, a))
  {
    if !ChangesIds(a) {
      OtherStepsKeepIds(cfg, s, a);
    }
  }

  lemma {:induction false} AlwaysVacant(r: Rules, cfg: Config, s: Node, run: seq<Action>)
    requires Sound(cfg, s) && FreeAreVacant(s) && Runs(r, cfg, s, run)
    ensures FreeAreVacant(Exec(r, cfg, s, run))
    decreases run
  {
    if run != [] {
      StepKeepsVacant(cfg, s, run[0]);
      StepKeepsSound(cfg, s, run[0]);
      AlwaysVacant(r, cfg, Apply(cfg, s, run[0]), run[1..]);
    }
  }

  /** In every run, the entry of an id that is not in flight holds neither callback nor user data. */
  lemma FreeEntriesAreVacant(r: Rules, cfg: Config, callers: nat, clock: nat, run: seq<Action>)
    requires Runs(r, cfg, Init(cfg, callers, clock), run)
    ensures FreeAreVacant(Exec(r, cfg, Init(cfg, callers, clock), run))
  {
    InitIsSound(cfg, callers, clock);
    AlwaysVacant(r, cfg, Init(cfg, callers, clock), run);
  }

  // ---- with responses that come after the stamp, no stamp either -----------------------------------------

  ghost predicate FreeAreCleared(s: Node) {
    forall m :: 0 <= m < |s.core.table| && m !in s.core.inflight ==> s.core.table[m] == Entry(0, None, 0)
  }

  lemma StepKeepsCleared(cfg: Config, s: Node, a: Action)
    requires Paced(cfg, s) && FreeAreCleared(s) && Enabled(cfg, s, a)
    ensures FreeAreCleared(Apply(cfg, s, a))
  {
    if a.Stamp? {
      if FrameAt(s.core, s.thread.block).kind == TYPE_COMMAND {
        StampHitsOwnEntry(cfg, s);
      }
    } else if !ChangesIds(a) {
      OtherStepsKeepIds(cfg, s, a);
      TableKept(cfg, s, a);
    }
  }

  lemma {:induction false} AlwaysCleared(r: Rules, cfg: Config, s: Node, run: seq<Action>)
    requires Paced(cfg, s) && FreeAreCleared(s) && r.stampedOnly && Runs(r, cfg, s, run)
    ensures FreeAreCleared(Exec(r, cfg, s, run))
    decreases run
  {
    if run != [] {
      StepKeepsCleared(cfg, s, run[0]);
      StepKeepsPaced(r, cfg, s, run[0]);
      AlwaysCleared(r, cfg, Apply(cfg, s, run[0]), run[1..]);
    }
  }

  /** In every run under a rule for responses, such an entry is all zero, its stamp included. */
  lemma FreeEntriesAreZero(r: Rules, cfg: Config, callers: nat, clock: nat, run: seq<Action>)
    requires Answered(r) && Runs(r, cfg, Init(cfg, callers, clock), run)
    ensures FreeAreCleared(Exec(r, cfg, Init(cfg, callers, clock), run))
  {
    var init := Init(cfg, callers, clock);
    InitIsPaced(cfg, callers, clock);
    if r.stampedOnly {
      AlwaysCleared(r, cfg, init, run);
    } else {
      InitIsGood(cfg, callers, clock);
      PeerRunsAreStamped(r, cfg, init, run);
      AlwaysCleared(r.(stampedOnly := true), cfg, init, run);
    }
  }
}
