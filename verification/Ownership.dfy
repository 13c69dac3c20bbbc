/**
 Frame ownership: every allocated block is in exactly one place, for every interleaving and every slab
 size; what a failed enqueue loses is accounted for, and nothing is ever lost exactly when the slab is
 no larger than a queue.
 */
module Ownership {
  import opened Common
  import opened Counting
  import opened Wire
  import opened IcmpState
  import opened IcmpNode
  import opened IcmpRuns

  function InHand(pc: CallerPc, b: Block): nat {
    OneIf((pc.Holding? && pc.block == b) || (pc.Receiving? && pc.block == b))
  }

  function InHands(callers: seq<CallerPc>, b: Block): nat {
    if callers == [] then 0 else InHand(callers[0], b) + InHands(callers[1..], b)
  }

  function InThread(pc: ThreadPc, b: Block): nat {
    OneIf((pc.Stamping? && pc.block == b) || (pc.Sending? && pc.block == b) || (pc.Releasing? && pc.block == b) || (pc.Dispatching? && pc.block == b))
  }

  predicate ContextHeld(s: Node) { s.core.workPending || s.work.Checked? || s.work.InCallback? || s.work.Freeing? }

  function InContext(s: Node, b: Block): nat { OneIf(ContextHeld(s) && s.core.ctxFrame == Some(b)) }

  /** How many places hold the block: the two queues, the callers' hands, the ICMP thread's hand and
      the work context. */
  function Places(s: Node, b: Block): nat {
    Count(s.core.tx, b) + Count(s.core.rx, b) + InHands(s.callers, b) + InThread(s.thread, b) + InContext(s, b)
  }

  /** A block is in one place, or was leaked once, exactly when it is allocated; otherwise in none. */
  predicate OwnedOnce(s: Node, b: Block) { Places(s, b) + Count(s.hist.leaked, b) == OneIf(b in s.core.slab) }

  ghost predicate Owned(s: Node) { forall b: Block :: OwnedOnce(s, b) }

  /** The work semaphore and the three uses of the work context it guards: exactly one holds. */
  function Tokens(s: Node): nat {
    s.core.sem + OneIf(s.thread.RxPolling? || s.thread.Dispatching?) + OneIf(s.core.workPending) + OneIf(!s.work.NotRunning?)
  }

  ghost predicate Singleton(s: Node) {
    && Tokens(s) == 1
    && (s.core.workPending || s.work.Freeing? ==> s.core.ctxFrame.Some?)
    && (s.work.Checked? || s.work.InCallback? ==> s.core.ctxFrame == Some(s.work.block))
  }

  ghost predicate Shape(cfg: Config, s: Node) {
    && |s.core.table| == cfg.ids && |s.core.targets| == cfg.targets
    && (forall m :: m in s.core.inflight ==> m < cfg.ids)
    && |s.core.slab| <= cfg.slabFrames && |s.core.tx| <= QUEUE_MAX_ITEMS && |s.core.rx| <= QUEUE_MAX_ITEMS
  }

  ghost predicate Sound(cfg: Config, s: Node) { Shape(cfg, s) && Singleton(s) && Owned(s) }

  predicate CallerAction(a: Action) { a.Command? || a.RespondOrNotify? || a.TakeFrame? || a.Enqueue? || a.UartTakeFrame? || a.UartFinish? }

  predicate ThreadAction(a: Action) { a.TxDequeue? || a.Stamp? || a.PhySend? || a.TxFree? || a.SemTake? || a.RxDequeue? || a.SubmitWork? }

  // ---- the accounting ---------------------------------------------------------------------

  lemma {:induction false} InHandsUpdate(callers: seq<CallerPc>, i: nat, pc: CallerPc, b: Block)
    requires i < |callers|
    ensures InHands(callers[i := pc], b) + InHand(callers[i], b) == InHands(callers, b) + InHand(pc, b)
  {
    var after := callers[i := pc];
    if i == 0 {
      assert after[1..] == callers[1..];
    } else {
      assert after[1..] == callers[1..][i - 1 := pc];
      InHandsUpdate(callers[1..], i - 1, pc, b);
    }
  }

  lemma {:induction false} InHandsIdle(n: nat, b: Block)
    ensures InHands(seq(n, _ => Idle), b) == 0
  {
    var callers := seq(n, _ => Idle);
    if n > 0 {
      assert callers[1..] == seq(n - 1, _ => Idle);
      InHandsIdle(n - 1, b);
    }
  }

  lemma InitIsSound(cfg: Config, callers: nat, clock: nat)
    ensures Sound(cfg, Init(cfg, callers, clock))
  {
    var s := Init(cfg, callers, clock);
    forall b: Block ensures OwnedOnce(s, b) {
      InHandsIdle(callers, b);
    }
  }

  // ---- each step keeps it, block by block ---------------------------------------------------

  lemma CallerMoves(s: Node, t: Node, i: nat, b: Block)
    requires i < |s.callers| && i < |t.callers| && t.callers == s.callers[i := t.callers[i]]
    ensures InHands(t.callers, b) + InHand(s.callers[i], b) == InHands(s.callers, b) + InHand(t.callers[i], b)
    ensures InHand(s.callers[i], b) <= InHands(s.callers, b)
  {
    InHandsUpdate(s.callers, i, t.callers[i], b);
    InHandBound(s.callers, i, b);
  }

  lemma BuildKeepsOwned(cfg: Config, s: Node, a: Action, b: Block)
    requires Enabled(cfg, s, a) && OwnedOnce(s, b) && (a.Command? || a.RespondOrNotify?)
    ensures OwnedOnce(Apply(cfg, s, a), b)
  {
    var t := Apply(cfg, s, a);
    assert t.callers == s.callers[a.caller := t.callers[a.caller]];
    CallerMoves(s, t, a.caller, b);
  }

  lemma TakeKeepsOwned(cfg: Config, s: Node, a: Action, b: Block)
    requires Enabled(cfg, s, a) && OwnedOnce(s, b) && (a.TakeFrame? || a.UartTakeFrame?)
    ensures OwnedOnce(Apply(cfg, s, a), b)
  {
    var t := Apply(cfg, s, a);
    assert t.callers == s.callers[a.caller := t.callers[a.caller]];
    CallerMoves(s, t, a.caller, b);
  }

  lemma EnqueueKeepsOwned(cfg: Config, s: Node, a: Action, b: Block)
    requires Enabled(cfg, s, a) && OwnedOnce(s, b) && a.Enqueue?
    ensures OwnedOnce(Apply(cfg, s, a), b)
  {
    var t, x := EnqueueStep(cfg, s, a), s.callers[a.caller].block;
    CallerMoves(s, t, a.caller, b);
    if TxFull(s.core) {
      CountPut(s.hist.leaked, x, b);
    } else {
      CountPut(s.core.tx, x, b);
    }
  }

  lemma UartFinishKeepsOwned(cfg: Config, s: Node, a: Action, b: Block)
    requires Enabled(cfg, s, a) && OwnedOnce(s, b) && a.UartFinish?
    ensures OwnedOnce(Apply(cfg, s, a), b)
  {
    var t, x := UartFinishStep(cfg, s, a), s.callers[a.caller].block;
    CallerMoves(s, t, a.caller, b);
    if a.unpacked.Some? {
      if RxFull(s.core) {
        CountPut(s.hist.leaked, x, b);
      } else {
        CountPut(s.core.rx, x, b);
      }
    }
  }

  lemma {:induction false} InHandBound(callers: seq<CallerPc>, i: nat, b: Block)
    requires i < |callers|
    ensures InHand(callers[i], b) <= InHands(callers, b)
  {
    if i > 0 {
      InHandBound(callers[1..], i - 1, b);
    }
  }

  lemma TxStepKeepsOwned(cfg: Config, s: Node, a: Action, b: Block)
    requires Enabled(cfg, s, a) && (a.Stamp? || a.PhySend? || a.TxFree?) && OwnedOnce(s, b)
    ensures OwnedOnce(Apply(cfg, s, a), b)
  {
  }

  lemma TxDequeueKeepsOwned(s: Node, b: Block)
    requires s.thread.Top? && OwnedOnce(s, b)
    ensures OwnedOnce(TxDequeueStep(s), b)
  {
  }

  lemma RxStepKeepsOwned(cfg: Config, s: Node, a: Action, b: Block)
    requires Enabled(cfg, s, a) && (a.SemTake? || a.RxDequeue? || a.SubmitWork?) && OwnedOnce(s, b)
    requires Singleton(s)
    ensures OwnedOnce(Apply(cfg, s, a), b)
  {
  }

  lemma WorkStepKeepsOwned(cfg: Config, s: Node, a: Action, b: Block)
    requires Enabled(cfg, s, a) && !ThreadAction(a) && !CallerAction(a) && OwnedOnce(s, b)
    requires Singleton(s)
    ensures OwnedOnce(Apply(cfg, s, a), b)
  {
  }

  lemma StepKeepsOwned(cfg: Config, s: Node, a: Action)
    requires Sound(cfg, s) && Enabled(cfg, s, a)
    ensures Owned(Apply(cfg, s, a))
  {
    forall b: Block ensures OwnedOnce(Apply(cfg, s, a), b) {
      assert OwnedOnce(s, b);
      if a.Enqueue? {
        EnqueueKeepsOwned(cfg, s, a, b);
      } else if a.UartFinish? {
        UartFinishKeepsOwned(cfg, s, a, b);
      } else if a.TakeFrame? || a.UartTakeFrame? {
        TakeKeepsOwned(cfg, s, a, b);
      } else if CallerAction(a) {
        BuildKeepsOwned(cfg, s, a, b);
      } else if a.TxDequeue? {
        TxDequeueKeepsOwned(s, b);
      } else if a.Stamp? || a.PhySend? || a.TxFree? {
        TxStepKeepsOwned(cfg, s, a, b);
      } else if ThreadAction(a) {
        RxStepKeepsOwned(cfg, s, a, b);
      } else {
        WorkStepKeepsOwned(cfg, s, a, b);
      }
    }
  }

  lemma CallerKeepsSingleton(cfg: Config, s: Node, a: Action)
    requires Singleton(s) && Enabled(cfg, s, a) && CallerAction(a)
    ensures Singleton(Apply(cfg, s, a))
  {
  }

  lemma StepKeepsSingleton(cfg: Config, s: Node, a: Action)
    requires Singleton(s) && Enabled(cfg, s, a)
    ensures Singleton(Apply(cfg, s, a))
  {
    if CallerAction(a) {
      CallerKeepsSingleton(cfg, s, a);
    } else {
      OtherKeepsSingleton(cfg, s, a);
    }
  }

  lemma OtherKeepsSingleton(cfg: Config, s: Node, a: Action)
    requires Singleton(s) && Enabled(cfg, s, a) && !CallerAction(a)
    ensures Singleton(Apply(cfg, s, a))
  {
  }

  lemma CallerStepKeepsShape(cfg: Config, s: Node, a: Action)
    requires Sound(cfg, s) && Enabled(cfg, s, a) && CallerAction(a)
    ensures Shape(cfg, Apply(cfg, s, a))
  {
    if a.UartFinish? {
      UartFinishKeepsShape(cfg, s, a);
    } else if a.TakeFrame? || a.UartTakeFrame? {
      TakeKeepsShape(cfg, s, a);
    }
  }

  lemma TakeKeepsShape(cfg: Config, s: Node, a: Action)
    requires Shape(cfg, s) && Enabled(cfg, s, a) && (a.TakeFrame? || a.UartTakeFrame?)
    ensures Shape(cfg, Apply(cfg, s, a))
  {
    SlabSizes(s.core.slab, a.block, if a.TakeFrame? then s.callers[a.caller].frame else Frame(0, 0, 0, []));
  }

  lemma UartFinishKeepsShape(cfg: Config, s: Node, a: Action)
    requires Sound(cfg, s) && Enabled(cfg, s, a) && a.UartFinish?
    ensures Shape(cfg, UartFinishStep(cfg, s, a))
  {
    var i, b := a.caller, s.callers[a.caller].block;
    assert OwnedOnce(s, b);
    InHandBound(s.callers, i, b);
    SlabSizes(s.core.slab, b, if a.unpacked.Some? then a.unpacked.value else Frame(0, 0, 0, []));
  }

  lemma SlabSizes(m: map<Block, Frame>, b: Block, f: Frame)
    ensures |m[b := f]| == |m| + OneIf(b !in m)
    ensures |m - {b}| == |m| - OneIf(b in m)
  {
    assert m[b := f].Keys == m.Keys + {b};
    assert |m[b := f]| == |m[b := f].Keys|;
    assert (m - {b}).Keys == m.Keys - {b};
    assert |m - {b}| == |(m - {b}).Keys| && |m| == |m.Keys|;
  }

  lemma ThreadStepKeepsShape(cfg: Config, s: Node, a: Action)
    requires Shape(cfg, s) && Enabled(cfg, s, a) && ThreadAction(a)
    ensures Shape(cfg, Apply(cfg, s, a))
  {
    if a.TxFree? {
      SlabSizes(s.core.slab, s.thread.block, Frame(0, 0, 0, []));
    }
  }

  lemma WorkStepKeepsShape(cfg: Config, s: Node, a: Action)
    requires Shape(cfg, s) && Singleton(s) && Enabled(cfg, s, a) && !CallerAction(a) && !ThreadAction(a)
    ensures Shape(cfg, Apply(cfg, s, a))
  {
    if a.HandlerFree? {
      SlabSizes(s.core.slab, s.core.ctxFrame.value, Frame(0, 0, 0, []));
    }
  }

  lemma StepKeepsSound(cfg: Config, s: Node, a: Action)
    requires Sound(cfg, s) && Enabled(cfg, s, a)
    ensures Sound(cfg, Apply(cfg, s, a))
  {
    StepKeepsOwned(cfg, s, a);
    StepKeepsSingleton(cfg, s, a);
    if CallerAction(a) {
      CallerStepKeepsShape(cfg, s, a);
    } else if ThreadAction(a) {
      ThreadStepKeepsShape(cfg, s, a);
    } else {
      WorkStepKeepsShape(cfg, s, a);
    }
  }

  /** In every reachable state, whatever the slab size. */
  lemma {:induction false} AlwaysSound(r: Rules, cfg: Config, s: Node, run: seq<Action>)
    requires Sound(cfg, s) && Runs(r, cfg, s, run)
    ensures Sound(cfg, Exec(r, cfg, s, run))
    decreases run
  {
    if run != [] {
      StepKeepsSound(cfg, s, run[0]);
      AlwaysSound(r, cfg, Apply(cfg, s, run[0]), run[1..]);
    }
  }
}
