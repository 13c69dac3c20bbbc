/** The pending discipline over whole runs, and what a well-behaved peer contributes to it. */
module Sending {
  import opened Common
  import opened Counting
  import opened Wire
  import opened IcmpState
  import opened IcmpNode
  import opened IcmpRuns
  import opened Ownership
  import opened Serials
  import opened Fifo
  import opened Pending
  import opened Matching

  // ---- stamps -----------------------------------------------------------------------------------

  lemma CommandKeepsStamps(cfg: Config, s: Node, a: Action)
    requires Paced(cfg, s) && Enabled(cfg, s, a) && a.Command?
    ensures StampsOk(CommandStep(cfg, s, a))
  {
    var n := CommandStep(cfg, s, a);
    SendingFrameKept(cfg, s, a);
    if InWindow(s) {
      WindowStep(cfg, s, a);
      WindowCommand(cfg, s, a);
    }
    forall m | m in n.core.inflight ensures StampKnown(n, m) {
      if m in s.core.inflight {
        assert StampKnown(s, m);
      }
    }
  }

  lemma SendingFrameKept(cfg: Config, s: Node, a: Action)
    requires Sound(cfg, s) && Enabled(cfg, s, a)
    ensures s.thread.Sending? ==> At(Apply(cfg, s, a), s.thread.block) == At(s, s.thread.block)
  {
    if s.thread.Sending? {
      WaitingUntouched(cfg, s, a, s.thread.block);
    }
  }

  lemma StampKeepsStamps(cfg: Config, s: Node)
    requires Paced(cfg, s) && s.thread.Stamping? && s.clock > 0
    ensures StampsOk(StampStep(s))
  {
    var n, it := StampStep(s), At(s, s.thread.block);
    if it.frame.kind == TYPE_COMMAND {
      StampHitsOwnEntry(cfg, s);
      assert LatestOf(s.hist.allocs, it.frame.msgId, s.hist.owner[it.frame.msgId]);
    }
    forall m | m in n.core.inflight ensures StampKnown(n, m) {
      assert StampKnown(s, m) && EntryOk(s, m);
      assert LatestOf(s.hist.allocs, m, s.hist.owner[m]);
    }
  }

  lemma TimeoutKeepsStamps(cfg: Config, s: Node, locked: bool)
    requires Paced(cfg, s) && s.work.NotRunning?
    ensures StampsOk(TimeoutStep(cfg, s, locked))
  {
    var n := TimeoutStep(cfg, s, locked);
    var aged := ExpiredIds(s.core, s.clock, cfg.maxAge);
    forall m | m in n.core.inflight ensures StampKnown(n, m) {
      assert StampKnown(s, m);
    }
    forall t | t in n.hist.expired ensures t in n.hist.stamped {
      if t !in s.hist.expired {
        var m :| m in aged && t == OwnerOf(s, m);
        assert StampKnown(s, m);
      }
    }
  }

  lemma ClearKeepsStamps(cfg: Config, s: Node)
    requires Paced(cfg, s) && s.work.InCallback?
    ensures StampsOk(HandlerClearStep(s))
  {
    var n := HandlerClearStep(s);
    forall m | m in n.core.inflight ensures StampKnown(n, m) {
      assert StampKnown(s, m);
    }
  }

  lemma OtherKeepsStamps(r: Rules, cfg: Config, s: Node, a: Action)
    requires Paced(cfg, s) && Enabled(cfg, s, a) && r.stampedOnly && Obeys(r, cfg, s, a)
    requires !a.Command? && !a.Stamp? && !a.Timeout? && !a.HandlerClear?
    ensures StampsOk(Apply(cfg, s, a))
  {
    var n := Apply(cfg, s, a);
    OtherStepsKeepIds(cfg, s, a);
    OtherKeepsRecords(cfg, s, a);
    if !a.PhySend? {
      SendingFrameKept(cfg, s, a);
      NoNewSending(cfg, s, a);
    }
    if InWindow(s) {
      WindowStep(cfg, s, a);
    } else if a.HandlerCheck? && s.core.ctxFrame.Some? {
      ContextUntouched(cfg, s, a);
    } else {
      NoNewWindow(cfg, s, a);
    }
    forall m | m in n.core.inflight ensures StampKnown(n, m) {
      assert StampKnown(s, m);
    }
  }

  lemma OtherKeepsRecords(cfg: Config, s: Node, a: Action)
    requires Enabled(cfg, s, a) && !a.Command? && !a.Stamp? && !a.Timeout? && !a.HandlerClear?
    ensures var n := Apply(cfg, s, a);
      && n.core.table == s.core.table && n.hist.stamped == s.hist.stamped && n.hist.expired == s.hist.expired
      && (!a.PhySend? ==> n.hist.wire == s.hist.wire)
  {
    if CallerAction(a) {
      CallersKeepTable(cfg, s, a);
      CallerKeepsThread(cfg, s, a);
    }
  }

  lemma NoNewSending(cfg: Config, s: Node, a: Action)
    requires Enabled(cfg, s, a) && !a.Stamp? && !a.PhySend?
    ensures Apply(cfg, s, a).thread.Sending? ==> Apply(cfg, s, a).thread == s.thread
  {
  }

  lemma StepKeepsPaced(r: Rules, cfg: Config, s: Node, a: Action)
    requires Paced(cfg, s) && Enabled(cfg, s, a) && r.stampedOnly && Obeys(r, cfg, s, a)
    ensures Paced(cfg, Apply(cfg, s, a))
  {
    StepKeepsSound(cfg, s, a);
    StepKeepsSerial(cfg, s, a);
    StepKeepsPending(cfg, s, a);
    if a.Command? {
      CommandKeepsStamps(cfg, s, a);
    } else if a.Stamp? {
      StampKeepsStamps(cfg, s);
    } else if a.Timeout? {
      TimeoutKeepsStamps(cfg, s, a.locked);
    } else if a.HandlerClear? {
      ClearKeepsStamps(cfg, s);
    } else {
      OtherKeepsStamps(r, cfg, s, a);
    }
  }

  lemma {:induction false} NoCommandsInIdle(n: nat, m: nat, t: int)
    ensures CountCommands(seq(n, _ => NOTHING), m, t) == 0
  {
    if n > 0 {
      assert seq(n, _ => NOTHING)[1..] == seq(n - 1, _ => NOTHING);
      NoCommandsInIdle(n - 1, m, t);
    }
  }

  lemma InitIsPaced(cfg: Config, callers: nat, clock: nat)
    ensures Paced(cfg, Init(cfg, callers, clock)) && AllHaveFrames(Init(cfg, callers, clock))
  {
    var s := Init(cfg, callers, clock);
    InitIsSound(cfg, callers, clock);
    InitIsSerial(cfg, callers, clock);
    forall m: nat, t: int ensures PendingOnce(s, m, t) {
      assert CallerItems(s) == seq(callers, _ => NOTHING);
      NoCommandsInIdle(callers, m, t);
    }
  }

  lemma {:induction false} AlwaysPaced(r: Rules, cfg: Config, s: Node, run: seq<Action>)
    requires Paced(cfg, s) && r.stampedOnly && Runs(r, cfg, s, run)
    ensures Paced(cfg, Exec(r, cfg, s, run))
    decreases run
  {
    if run != [] {
      StepKeepsPaced(r, cfg, s, run[0]);
      AlwaysPaced(r, cfg, Apply(cfg, s, run[0]), run[1..]);
    }
  }

  // ---- what the discipline says -------------------------------------------------------------------

  /** The commands in the sending queue have pairwise distinct ids. */
  ghost predicate DistinctIds(s: Node) {
    var q := Items(s, s.core.tx);
    forall i, j :: 0 <= i < j < |q| && q[i].frame.kind == TYPE_COMMAND && q[j].frame.kind == TYPE_COMMAND ==>
      q[i].frame.msgId != q[j].frame.msgId
  }

  lemma PacedMeansDistinct(cfg: Config, s: Node)
    requires Paced(cfg, s)
    ensures DistinctIds(s)
  {
    var q := Items(s, s.core.tx);
    forall i, j | 0 <= i < j < |q| && q[i].frame.kind == TYPE_COMMAND && q[j].frame.kind == TYPE_COMMAND
      ensures q[i].frame.msgId != q[j].frame.msgId
    {
      var m := q[i].frame.msgId;
      if q[j].frame.msgId == m {
        assert PendingOnce(s, m, q[i].tag) && PendingOnce(s, m, q[j].tag);
        CountBounds(q, i, m, q[i].tag);
        CountBounds(q, j, m, q[j].tag);
        CountTwo(q, i, j, m, q[i].tag);
      }
    }
  }

  lemma {:induction false} AlwaysHaveFrames(r: Rules, cfg: Config, s: Node, run: seq<Action>)
    requires Paced(cfg, s) && AllHaveFrames(s) && r.stampedOnly && r.sendsSucceed && Runs(r, cfg, s, run)
    ensures AllHaveFrames(Exec(r, cfg, s, run))
    decreases run
  {
    if run != [] {
      assert !SendFails(cfg, s, run[0]);
      StepKeepsPending(cfg, s, run[0]);
      StepKeepsPaced(r, cfg, s, run[0]);
      AlwaysHaveFrames(r, cfg, Apply(cfg, s, run[0]), run[1..]);
    }
  }

  /** What the discipline says of a state: queued commands have distinct ids, an unstamped frame belongs to
      the pending entry of its command, and whatever was aged out had been stamped. */
  ghost predicate Disciplined(s: Node) { DistinctIds(s) && PendingOk(s) && s.hist.expired <= s.hist.stamped }

  /** In every run in which responses come after the stamp the discipline holds, whether sends fail or not;
      and as long as none fails, an id is marked as pending exactly while one frame of its latest command is
      with a caller, queued, or taken but not stamped. */
  lemma PendingDiscipline(r: Rules, cfg: Config, callers: nat, clock: nat, run: seq<Action>)
    requires r.stampedOnly && Runs(r, cfg, Init(cfg, callers, clock), run)
    ensures var s := Exec(r, cfg, Init(cfg, callers, clock), run);
      && Disciplined(s)
      && (r.sendsSucceed ==> forall m: nat, t: int :: Unstamped(s, m, t) == OneIf(IsPending(s, m) && OwnerOf(s, m) == t))
  {
    var init := Init(cfg, callers, clock);
    InitIsPaced(cfg, callers, clock);
    AlwaysPaced(r, cfg, init, run);
    var s := Exec(r, cfg, init, run);
    PacedMeansDistinct(cfg, s);
    if r.sendsSucceed {
      AlwaysHaveFrames(r, cfg, init, run);
      forall m: nat, t: int ensures Unstamped(s, m, t) == OneIf(IsPending(s, m) && OwnerOf(s, m) == t) {
        assert PendingOnce(s, m, t) && HasFrame(s, m, t);
      }
    }
  }

  /** A peer that answers only what was sent, once and in time, makes every response find a stamped entry. */
  lemma PeerAnswersStamped(r: Rules, cfg: Config, s: Node, locked: bool)
    requires Good(cfg, s) && Paced(cfg, s) && Enabled(cfg, s, HandlerCheck(locked))
    requires r.peer && r.onTime && Obeys(r, cfg, s, HandlerCheck(locked))
    ensures Obeys(r.(stampedOnly := true), cfg, s, HandlerCheck(locked))
  {
    var b := s.core.ctxFrame.value;
    if HasResponseCallback(s.core, FrameAt(s.core, b)) {
      DispatchFindsOwnCommand(r, cfg, s, locked);
      assert Unsettled(s)[0] == b && Items(s, Unsettled(s))[0] == At(s, b);
      assert AnswerOk(s.hist, At(s, b));
      assert StampKnown(s, FrameAt(s.core, b).msgId);
    }
  }

  lemma {:induction false} PeerRunsAreStamped(r: Rules, cfg: Config, s: Node, run: seq<Action>)
    requires Good(cfg, s) && Paced(cfg, s) && r.peer && r.onTime && Runs(r, cfg, s, run)
    ensures Runs(r.(stampedOnly := true), cfg, s, run)
    ensures Exec(r.(stampedOnly := true), cfg, s, run) == Exec(r, cfg, s, run)
    decreases run
  {
    if run != [] {
      var a, r' := run[0], r.(stampedOnly := true);
      if a.HandlerCheck? {
        PeerAnswersStamped(r, cfg, s, a.locked);
      }
      assert Obeys(r', cfg, s, a);
      StepKeepsPaced(r', cfg, s, a);
      StepKeepsGood(r, cfg, s, a);
      PeerRunsAreStamped(r, cfg, Apply(cfg, s, a), run[1..]);
    }
  }

  /** The pending discipline with a well-behaved peer, whose responses then need no assumption of their own. */
  lemma PendingDisciplineWithPeer(r: Rules, cfg: Config, callers: nat, clock: nat, run: seq<Action>)
    requires r.peer && r.onTime && Runs(r, cfg, Init(cfg, callers, clock), run)
    ensures var s := Exec(r, cfg, Init(cfg, callers, clock), run);
      && Disciplined(s)
      && (r.sendsSucceed ==> forall m: nat, t: int :: Unstamped(s, m, t) == OneIf(IsPending(s, m) && OwnerOf(s, m) == t))
  {
    InitIsGood(cfg, callers, clock);
    InitIsPaced(cfg, callers, clock);
    PeerRunsAreStamped(r, cfg, Init(cfg, callers, clock), run);
    PendingDiscipline(r.(stampedOnly := true), cfg, callers, clock, run);
  }

  /** A rule for responses: they come after the stamp, or from a peer that answers once and in time. */
  predicate Answered(r: Rules) { r.stampedOnly || (r.peer && r.onTime) }

  /** The invariant of the discipline in every run under such a rule, from the start of the node. */
  lemma PacedFromStart(r: Rules, cfg: Config, callers: nat, clock: nat, run: seq<Action>)
    requires Answered(r) && Runs(r, cfg, Init(cfg, callers, clock), run)
    ensures Paced(cfg, Exec(r, cfg, Init(cfg, callers, clock), run))
  {
    var init, r' := Init(cfg, callers, clock), r.(stampedOnly := true);
    InitIsPaced(cfg, callers, clock);
    if !r.stampedOnly {
      InitIsGood(cfg, callers, clock);
      PeerRunsAreStamped(r, cfg, init, run);
      AlwaysPaced(r', cfg, init, run);
    } else {
      AlwaysPaced(r, cfg, init, run);
    }
  }

  /** In every run under such a rule, the frame of a command that is about to be stamped has its own entry in
      the table, and that entry is still pending. */
  lemma StampsHitOwnEntries(r: Rules, cfg: Config, callers: nat, clock: nat, run: seq<Action>)
    requires Answered(r) && Runs(r, cfg, Init(cfg, callers, clock), run)
    ensures var s := Exec(r, cfg, Init(cfg, callers, clock), run);
      s.thread.Stamping? && FrameAt(s.core, s.thread.block).kind == TYPE_COMMAND ==>
        var it := At(s, s.thread.block);
        IsPending(s, it.frame.msgId) && OwnerOf(s, it.frame.msgId) == it.tag && it.tag !in s.hist.stamped
  {
    PacedFromStart(r, cfg, callers, clock, run);
    var s := Exec(r, cfg, Init(cfg, callers, clock), run);
    if s.thread.Stamping? && FrameAt(s.core, s.thread.block).kind == TYPE_COMMAND {
      StampHitsOwnEntry(cfg, s);
    }
  }
}
