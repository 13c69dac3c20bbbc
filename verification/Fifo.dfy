/** Both queues are first-in first-out end to end: what was handed to the PHY, and what was dispatched,
    is what was enqueued, in order and each frame once, unchanged while it waited. */
module Fifo {
  import opened Common
  import opened Counting
  import opened Wire
  import opened IcmpState
  import opened IcmpNode
  import opened IcmpRuns
  import opened Ownership
  import opened Serials

  function Items(s: Node, q: seq<Block>): seq<Tagged> { seq(|q|, i requires 0 <= i < |q| => At(s, q[i])) }

  /** The frame that the thread has taken from the sending queue and not yet handed to the PHY. */
  function BeingSent(pc: ThreadPc): seq<Block> {
    match pc
    case Stamping(b) => [b]
    case Sending(b) => [b]
    case _ => []
  }

  function BeingDispatched(pc: ThreadPc): seq<Block> {
    match pc
    case Dispatching(b) => [b]
    case _ => []
  }

  /** The frame in the work context whose handler has not started. */
  function Submitted(s: Node): seq<Block> {
    if s.core.workPending && s.core.ctxFrame.Some? then [s.core.ctxFrame.value] else []
  }

  ghost predicate TxOrder(s: Node) { s.hist.txIn == s.hist.txOut + (Items(s, BeingSent(s.thread)) + Items(s, s.core.tx)) }

  function Undispatched(s: Node): seq<Block> { Submitted(s) + (BeingDispatched(s.thread) + s.core.rx) }

  ghost predicate RxOrder(s: Node) { s.hist.rxIn == s.hist.rxOut + Items(s, Undispatched(s)) }

  ghost predicate InOrder(s: Node) { TxOrder(s) && RxOrder(s) && |s.hist.rxLocked| == |s.hist.rxOut| }

  lemma ItemsAppend(s: Node, p: seq<Block>, q: seq<Block>)
    ensures Items(s, p + q) == Items(s, p) + Items(s, q)
  {
  }

  /** The waiting frames: queued, in the thread's hand, or submitted. */
  predicate Waiting(s: Node, b: Block) {
    Count(s.core.tx, b) + Count(s.core.rx, b) + InThread(s.thread, b) + OneIf(s.core.workPending && s.core.ctxFrame == Some(b)) >= 1
  }

  /** A waiting frame is changed by no step, except that the thread frees the one it has sent. */
  lemma WaitingUntouched(cfg: Config, s: Node, a: Action, b: Block)
    requires Sound(cfg, s) && Enabled(cfg, s, a) && Waiting(s, b)
    requires a.TxFree? ==> s.thread.block != b
    ensures b in s.core.slab && At(Apply(cfg, s, a), b) == At(s, b)
  {
    assert OwnedOnce(s, b);
    if a.UartFinish? {
      NotInHands(s, b, a.caller);
    }
    UntouchedBlock(cfg, s, a, b);
  }

  lemma QueueUntouched(cfg: Config, s: Node, a: Action, q: seq<Block>)
    requires Sound(cfg, s) && Enabled(cfg, s, a)
    requires forall i :: 0 <= i < |q| ==> Waiting(s, q[i]) && (a.TxFree? ==> s.thread.block != q[i])
    ensures Items(Apply(cfg, s, a), q) == Items(s, q)
  {
    forall i | 0 <= i < |q| ensures At(Apply(cfg, s, a), q[i]) == At(s, q[i]) {
      WaitingUntouched(cfg, s, a, q[i]);
    }
  }

  lemma TxWaiting(s: Node)
    ensures forall i :: 0 <= i < |s.core.tx| ==> Waiting(s, s.core.tx[i])
  {
    forall i | 0 <= i < |s.core.tx| ensures Waiting(s, s.core.tx[i]) {
      CountMember(s.core.tx, i);
    }
  }

  lemma UndispatchedWaiting(s: Node)
    ensures forall i :: 0 <= i < |Undispatched(s)| ==> Waiting(s, Undispatched(s)[i])
  {
    var front := |Submitted(s)| + |BeingDispatched(s.thread)|;
    forall i | 0 <= i < |Undispatched(s)| ensures Waiting(s, Undispatched(s)[i]) {
      if i >= front {
        CountMember(s.core.rx, i - front);
        assert Undispatched(s)[i] == s.core.rx[i - front];
      }
    }
  }

  /** The block that the thread frees is in neither queue and not in the work context. */
  lemma ReleasedIsAlone(s: Node, q: seq<Block>)
    requires Owned(s) && s.thread.Releasing?
    requires q == s.core.tx || q == Undispatched(s)
    ensures forall i :: 0 <= i < |q| ==> q[i] != s.thread.block
  {
    assert OwnedOnce(s, s.thread.block);
    forall i | 0 <= i < |q| ensures q[i] != s.thread.block {
      if q == s.core.tx {
        CountMember(q, i);
      } else if i >= |Submitted(s)| + |BeingDispatched(s.thread)| {
        var k := i - |Submitted(s)| - |BeingDispatched(s.thread)|;
        CountMember(s.core.rx, k);
        assert q[i] == s.core.rx[k];
      }
    }
  }

  lemma StepKeepsTxOrder(cfg: Config, s: Node, a: Action)
    requires Sound(cfg, s) && TxOrder(s) && Enabled(cfg, s, a)
    ensures TxOrder(Apply(cfg, s, a))
  {
    var t := Apply(cfg, s, a);
    TxWaiting(s);
    if a.TxFree? {
      ReleasedIsAlone(s, s.core.tx);
    }
    QueueUntouched(cfg, s, a, s.core.tx);
    QueueUntouched(cfg, s, a, BeingSent(s.thread));
    if a.Enqueue? {
      EnqueueAppends(cfg, s, a);
    } else if a.TxDequeue? && s.core.tx != [] {
      DequeueItems(t, s.core.tx);
    } else {
      TxSideKept(cfg, s, a);
    }
  }

  lemma DequeueItems(s: Node, q: seq<Block>)
    requires q != []
    ensures Items(s, q) == Items(s, [q[0]]) + Items(s, q[1..])
  {
    assert q == [q[0]] + q[1..];
    ItemsAppend(s, [q[0]], q[1..]);
  }

  lemma EnqueueAppends(cfg: Config, s: Node, a: Action)
    requires Enabled(cfg, s, a) && a.Enqueue?
    ensures var t := EnqueueStep(cfg, s, a); var b := s.callers[a.caller].block;
      && t.thread == s.thread && t.hist.txOut == s.hist.txOut
      && (TxFull(s.core) ==> t.core.tx == s.core.tx && t.hist.txIn == s.hist.txIn)
      && (!TxFull(s.core) ==> Items(t, t.core.tx) == Items(t, s.core.tx) + [At(s, b)] && t.hist.txIn == s.hist.txIn + [At(s, b)])
  {
    var t, b := EnqueueStep(cfg, s, a), s.callers[a.caller].block;
    if !TxFull(s.core) {
      ItemsAppend(t, s.core.tx, [b]);
      assert Items(t, [b]) == [At(s, b)];
    }
  }

  lemma TxSideKept(cfg: Config, s: Node, a: Action)
    requires Enabled(cfg, s, a) && !a.Enqueue? && (a.TxDequeue? ==> s.core.tx == [])
    ensures var t := Apply(cfg, s, a);
      && t.core.tx == s.core.tx && t.hist.txIn == s.hist.txIn
      && (a.PhySend? ==> t.hist.txOut == s.hist.txOut + Items(s, BeingSent(s.thread)) && BeingSent(t.thread) == [])
      && (!a.PhySend? ==> t.hist.txOut == s.hist.txOut && BeingSent(t.thread) == BeingSent(s.thread))
  {
    if a.PhySend? {
      PhySendTakesFirst(s, a.ok);
    } else if CallerAction(a) {
      CallersKeepTx(cfg, s, a);
    } else {
      OthersKeepTx(cfg, s, a);
    }
  }

  lemma PhySendTakesFirst(s: Node, ok: bool)
    requires s.thread.Sending?
    ensures var t := PhySendStep(s, ok);
      && t.core.tx == s.core.tx && t.hist.txIn == s.hist.txIn
      && t.hist.txOut == s.hist.txOut + Items(s, BeingSent(s.thread)) && BeingSent(t.thread) == []
  {
  }

  lemma CallersKeepTx(cfg: Config, s: Node, a: Action)
    requires Enabled(cfg, s, a) && CallerAction(a) && !a.Enqueue?
    ensures var t := Apply(cfg, s, a);
      t.core.tx == s.core.tx && t.hist.txIn == s.hist.txIn && t.hist.txOut == s.hist.txOut && t.thread == s.thread
  {
  }

  lemma OthersKeepTx(cfg: Config, s: Node, a: Action)
    requires Enabled(cfg, s, a) && !CallerAction(a) && !a.PhySend? && (a.TxDequeue? ==> s.core.tx == [])
    ensures var t := Apply(cfg, s, a);
      && t.core.tx == s.core.tx && t.hist.txIn == s.hist.txIn && t.hist.txOut == s.hist.txOut
      && BeingSent(t.thread) == BeingSent(s.thread)
  {
  }

  lemma StepKeepsRxOrder(cfg: Config, s: Node, a: Action)
    requires Sound(cfg, s) && RxOrder(s) && |s.hist.rxLocked| == |s.hist.rxOut| && Enabled(cfg, s, a)
    ensures RxOrder(Apply(cfg, s, a)) && |Apply(cfg, s, a).hist.rxLocked| == |Apply(cfg, s, a).hist.rxOut|
  {
    var t := Apply(cfg, s, a);
    UndispatchedWaiting(s);
    if a.TxFree? {
      ReleasedIsAlone(s, Undispatched(s));
    }
    QueueUntouched(cfg, s, a, Undispatched(s));
    if a.UartFinish? {
      ArrivalAppends(cfg, s, a);
    } else if a.HandlerCheck? {
      CheckTakesFirst(cfg, s, a);
    } else {
      RxSideKept(cfg, s, a);
    }
  }

  lemma ArrivalAppends(cfg: Config, s: Node, a: Action)
    requires Enabled(cfg, s, a) && a.UartFinish? && RxOrder(s)
    requires Items(Apply(cfg, s, a), Undispatched(s)) == Items(s, Undispatched(s))
    ensures RxOrder(Apply(cfg, s, a)) && Apply(cfg, s, a).hist.rxLocked == s.hist.rxLocked && Apply(cfg, s, a).hist.rxOut == s.hist.rxOut
  {
    var t, b := Apply(cfg, s, a), s.callers[a.caller].block;
    if a.unpacked.Some? && !RxFull(s.core) {
      assert Undispatched(t) == Undispatched(s) + [b];
      ItemsAppend(t, Undispatched(s), [b]);
      assert Items(t, [b]) == [Tagged(a.tag, a.unpacked.value)];
    } else {
      assert Undispatched(t) == Undispatched(s);
    }
  }

  lemma CheckTakesFirst(cfg: Config, s: Node, a: Action)
    requires Enabled(cfg, s, a) && a.HandlerCheck? && RxOrder(s) && Singleton(s) && |s.hist.rxLocked| == |s.hist.rxOut|
    ensures RxOrder(Apply(cfg, s, a)) && |Apply(cfg, s, a).hist.rxLocked| == |Apply(cfg, s, a).hist.rxOut|
  {
    var t, b := Apply(cfg, s, a), s.core.ctxFrame.value;
    assert Undispatched(s) == [b] + Undispatched(t);
    ItemsAppend(s, [b], Undispatched(t));
    assert Items(s, Undispatched(t)) == Items(t, Undispatched(t));
    assert Items(s, [b]) == [At(s, b)];
  }

  lemma RxSideKept(cfg: Config, s: Node, a: Action)
    requires Enabled(cfg, s, a) && !a.UartFinish? && !a.HandlerCheck? && Singleton(s)
    ensures var t := Apply(cfg, s, a);
      Undispatched(t) == Undispatched(s) && t.hist.rxIn == s.hist.rxIn && t.hist.rxOut == s.hist.rxOut && t.hist.rxLocked == s.hist.rxLocked
  {
    if a.RxDequeue? || a.SubmitWork? || a.SemTake? {
      HandOverKept(cfg, s, a);
    } else {
      RxElsewhereKept(cfg, s, a);
    }
  }

  /** Moving a frame from the queue to the thread's hand, and on to the work context, keeps its turn. */
  lemma HandOverKept(cfg: Config, s: Node, a: Action)
    requires Enabled(cfg, s, a) && (a.RxDequeue? || a.SubmitWork? || a.SemTake?) && Singleton(s)
    ensures var t := Apply(cfg, s, a);
      Undispatched(t) == Undispatched(s) && t.hist.rxIn == s.hist.rxIn && t.hist.rxOut == s.hist.rxOut && t.hist.rxLocked == s.hist.rxLocked
  {
    if a.RxDequeue? && s.core.rx != [] {
      assert s.core.rx == [s.core.rx[0]] + s.core.rx[1..];
    }
  }

  lemma RxElsewhereKept(cfg: Config, s: Node, a: Action)
    requires Enabled(cfg, s, a) && !a.UartFinish? && !a.HandlerCheck? && !a.RxDequeue? && !a.SubmitWork? && !a.SemTake?
    ensures var t := Apply(cfg, s, a);
      && t.core.rx == s.core.rx && Submitted(t) == Submitted(s) && BeingDispatched(t.thread) == BeingDispatched(s.thread)
      && t.hist.rxIn == s.hist.rxIn && t.hist.rxOut == s.hist.rxOut && t.hist.rxLocked == s.hist.rxLocked
  {
    if CallerAction(a) {
      CallersKeepRx(cfg, s, a);
    } else {
      OthersKeepRx(cfg, s, a);
    }
  }

  lemma CallersKeepRx(cfg: Config, s: Node, a: Action)
    requires Enabled(cfg, s, a) && CallerAction(a) && !a.UartFinish?
    ensures var t := Apply(cfg, s, a);
      && t.core.rx == s.core.rx && Submitted(t) == Submitted(s) && t.thread == s.thread
      && t.hist.rxIn == s.hist.rxIn && t.hist.rxOut == s.hist.rxOut && t.hist.rxLocked == s.hist.rxLocked
  {
  }

  lemma OthersKeepRx(cfg: Config, s: Node, a: Action)
    requires Enabled(cfg, s, a) && !CallerAction(a) && !a.HandlerCheck? && !a.RxDequeue? && !a.SubmitWork? && !a.SemTake?
    ensures var t := Apply(cfg, s, a);
      && t.core.rx == s.core.rx && Submitted(t) == Submitted(s) && BeingDispatched(t.thread) == BeingDispatched(s.thread)
      && t.hist.rxIn == s.hist.rxIn && t.hist.rxOut == s.hist.rxOut && t.hist.rxLocked == s.hist.rxLocked
  {
  }

  lemma {:induction false} AlwaysInOrder(r: Rules, cfg: Config, s: Node, run: seq<Action>)
    requires Sound(cfg, s) && InOrder(s) && Runs(r, cfg, s, run)
    ensures InOrder(Exec(r, cfg, s, run))
    decreases run
  {
    if run != [] {
      StepKeepsSound(cfg, s, run[0]);
      StepKeepsTxOrder(cfg, s, run[0]);
      StepKeepsRxOrder(cfg, s, run[0]);
      AlwaysInOrder(r, cfg, Apply(cfg, s, run[0]), run[1..]);
    }
  }

  /** In every run, for every slab size: frames reach the PHY in the order they were enqueued and handlers
      run in the order frames arrived, and what has not come out yet is exactly what still waits. */
  lemma FirstInFirstOut(r: Rules, cfg: Config, callers: nat, clock: nat, run: seq<Action>)
    requires Runs(r, cfg, Init(cfg, callers, clock), run)
    ensures var t := Exec(r, cfg, Init(cfg, callers, clock), run);
      && t.hist.txIn == t.hist.txOut + (Items(t, BeingSent(t.thread)) + Items(t, t.core.tx))
      && t.hist.rxIn == t.hist.rxOut + Items(t, Undispatched(t))
  {
    InitIsSound(cfg, callers, clock);
    AlwaysInOrder(r, cfg, Init(cfg, callers, clock), run);
  }
}
