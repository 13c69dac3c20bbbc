/**
 Index safety. The source indexes its table by the ids of queued commands and its callback array by the
 targets of received frames without a check. In every run every such index is in range, provided the
 received frames are; this is also what the operations of module IcmpServer require of their state.
 */
module Bounds {
  import opened Common
  import opened Counting
  import opened Wire
  import opened IcmpState
  import opened IcmpNode
  import opened IcmpRuns
  import opened Ownership
  import opened Serials
  import opened Fifo
  import opened Pending

  /** What the library builds: a known type, a payload that fits, and for a command an id of the table. */
  predicate SendOk(cfg: Config, f: Frame) {
    f.kind < TYPE_INVALID && |f.payload| <= cfg.maxPayload && (f.kind == TYPE_COMMAND ==> f.msgId < cfg.ids)
  }

  predicate ReceiveOk(cfg: Config, f: Frame) { f.target < cfg.targets && (f.kind == TYPE_RESPONSE ==> f.msgId < 32) }

  ghost predicate SendingBounded(cfg: Config, s: Node) {
    && (forall i :: 0 <= i < |s.callers| ==> SendOk(cfg, CallerItem(s, s.callers[i]).frame))
    && (forall i :: 0 <= i < |s.core.tx| ==> SendOk(cfg, FrameAt(s.core, s.core.tx[i])))
    && (s.thread.Stamping? ==> SendOk(cfg, FrameAt(s.core, s.thread.block)))
    && (forall i :: 0 <= i < |s.hist.txIn| ==> SendOk(cfg, s.hist.txIn[i].frame))
  }

  ghost predicate ReceivingBounded(cfg: Config, s: Node) {
    forall i :: 0 <= i < |Undispatched(s)| ==> ReceiveOk(cfg, FrameAt(s.core, Undispatched(s)[i]))
  }

  ghost predicate Bounded(cfg: Config, s: Node) { SendingBounded(cfg, s) && ReceivingBounded(cfg, s) }

  lemma CallerKeepsSending(cfg: Config, s: Node, a: Action)
    requires Sound(cfg, s) && SendingBounded(cfg, s) && Enabled(cfg, s, a) && CallerAction(a)
    ensures SendingBounded(cfg, Apply(cfg, s, a))
  {
    var n := Apply(cfg, s, a);
    CallerItemsStep(cfg, s, a);
    CallerKeepsThread(cfg, s, a);
    CallerTakesBounded(cfg, s, a);
    forall i | 0 <= i < |n.callers| ensures SendOk(cfg, CallerItem(n, n.callers[i]).frame) {
      assert CallerItems(n)[i] == CallerItem(n, n.callers[i]);
      if i != a.caller {
        assert CallerItems(n)[i] == CallerItems(s)[i] == CallerItem(s, s.callers[i]);
      }
    }
    TxItemsKept(cfg, s, a);
    forall i | 0 <= i < |n.core.tx| ensures SendOk(cfg, FrameAt(n.core, n.core.tx[i])) {
      if i < |s.core.tx| {
        assert Items(n, s.core.tx)[i] == Items(s, s.core.tx)[i];
        assert At(s, s.core.tx[i]).frame == FrameAt(s.core, s.core.tx[i]);
      } else {
        assert SendOk(cfg, CallerItem(s, s.callers[a.caller]).frame);
      }
    }
    if s.thread.Stamping? {
      assert Items(n, BeingStamped(s.thread))[0] == Items(s, BeingStamped(s.thread))[0];
    }
  }

  lemma CallerTakesBounded(cfg: Config, s: Node, a: Action)
    requires SendingBounded(cfg, s) && Enabled(cfg, s, a) && CallerAction(a)
    ensures SendOk(cfg, CallerItem(Apply(cfg, s, a), Apply(cfg, s, a).callers[a.caller]).frame)
    ensures a.Enqueue? && !TxFull(s.core) ==> Apply(cfg, s, a).core.tx == s.core.tx + [s.callers[a.caller].block] && Apply(cfg, s, a).core.slab == s.core.slab
    ensures !(a.Enqueue? && !TxFull(s.core)) ==> Apply(cfg, s, a).core.tx == s.core.tx
    ensures forall i :: 0 <= i < |Apply(cfg, s, a).hist.txIn| ==> SendOk(cfg, Apply(cfg, s, a).hist.txIn[i].frame)
  {
    assert SendOk(cfg, CallerItem(s, s.callers[a.caller]).frame);
  }

  lemma OtherKeepsSending(cfg: Config, s: Node, a: Action)
    requires Sound(cfg, s) && SendingBounded(cfg, s) && Enabled(cfg, s, a) && !CallerAction(a)
    ensures SendingBounded(cfg, Apply(cfg, s, a))
  {
    var n := Apply(cfg, s, a);
    CallerItemsKept(cfg, s, a);
    TxItemsKept(cfg, s, a);
    OtherCallersKept(cfg, s, a);
    forall i | 0 <= i < |n.callers| ensures SendOk(cfg, CallerItem(n, n.callers[i]).frame) {
      assert CallerItems(n)[i] == CallerItems(s)[i] == CallerItem(s, s.callers[i]);
    }
    forall i | 0 <= i < |s.core.tx| ensures SendOk(cfg, FrameAt(n.core, s.core.tx[i])) {
      assert Items(n, s.core.tx)[i] == Items(s, s.core.tx)[i];
    }
    if s.thread.Stamping? {
      assert Items(n, BeingStamped(s.thread))[0] == Items(s, BeingStamped(s.thread))[0];
    }
    TxMovesOn(cfg, s, a);
  }

  lemma TxMovesOn(cfg: Config, s: Node, a: Action)
    requires Enabled(cfg, s, a) && !CallerAction(a)
    ensures var n := Apply(cfg, s, a);
      if a.TxDequeue? && s.core.tx != [] then n.core.tx == s.core.tx[1..] && n.thread == Stamping(s.core.tx[0])
      else n.core.tx == s.core.tx && (n.thread.Stamping? ==> n.thread == s.thread)
    ensures Apply(cfg, s, a).hist.txIn == s.hist.txIn
  {
  }

  lemma StepKeepsReceiving(cfg: Config, s: Node, a: Action)
    requires Sound(cfg, s) && ReceivingBounded(cfg, s) && Enabled(cfg, s, a)
    ensures ReceivingBounded(cfg, Apply(cfg, s, a))
  {
    var n := Apply(cfg, s, a);
    UndispatchedWaiting(s);
    if a.TxFree? {
      ReleasedIsAlone(s, Undispatched(s));
    }
    QueueUntouched(cfg, s, a, Undispatched(s));
    forall i | 0 <= i < |Undispatched(s)| ensures ReceiveOk(cfg, FrameAt(n.core, Undispatched(s)[i])) {
      assert Items(n, Undispatched(s))[i] == Items(s, Undispatched(s))[i];
    }
    if a.UartFinish? {
      ArrivalBounded(cfg, s, a);
    } else if a.HandlerCheck? {
      assert Undispatched(s) == [s.core.ctxFrame.value] + Undispatched(n);
      forall i | 0 <= i < |Undispatched(n)| ensures Undispatched(n)[i] == Undispatched(s)[i + 1] {
      }
    } else {
      RxSideKept(cfg, s, a);
    }
  }

  lemma ArrivalBounded(cfg: Config, s: Node, a: Action)
    requires Enabled(cfg, s, a) && a.UartFinish?
    ensures var n := Apply(cfg, s, a);
      if a.unpacked.Some? && !RxFull(s.core)
      then Undispatched(n) == Undispatched(s) + [s.callers[a.caller].block] && FrameAt(n.core, s.callers[a.caller].block) == a.unpacked.value
      else Undispatched(n) == Undispatched(s)
  {
  }

  lemma {:induction false} AlwaysBounded(r: Rules, cfg: Config, s: Node, run: seq<Action>)
    requires Sound(cfg, s) && Bounded(cfg, s) && Runs(r, cfg, s, run)
    ensures Sound(cfg, Exec(r, cfg, s, run)) && Bounded(cfg, Exec(r, cfg, s, run))
    decreases run
  {
    if run != [] {
      var a := run[0];
      StepKeepsSound(cfg, s, a);
      StepKeepsReceiving(cfg, s, a);
      if CallerAction(a) {
        CallerKeepsSending(cfg, s, a);
      } else {
        OtherKeepsSending(cfg, s, a);
      }
      AlwaysBounded(r, cfg, Apply(cfg, s, a), run[1..]);
    }
  }

  /** In every reachable state: the id of the next command to be stamped indexes the table, the target of the
      next frame to be dispatched indexes the callbacks, and the id of a response under the handler is a
      legal shift; the three blocks are allocated, and the first two are different. */
  lemma IndicesInRange(r: Rules, cfg: Config, callers: nat, clock: nat, run: seq<Action>)
    requires Runs(r, cfg, Init(cfg, callers, clock), run)
    ensures var s := Exec(r, cfg, Init(cfg, callers, clock), run);
      && |s.core.table| == cfg.ids && |s.core.targets| == cfg.targets && s.core.sem <= 1
      && (s.core.tx != [] ==> s.core.tx[0] in s.core.slab && SendOk(cfg, s.core.slab[s.core.tx[0]]))
      && (s.core.rx != [] ==> s.core.rx[0] in s.core.slab && ReceiveOk(cfg, s.core.slab[s.core.rx[0]]))
      && (s.core.tx != [] && s.core.rx != [] ==> s.core.tx[0] != s.core.rx[0])
      && (s.core.workPending ==> s.core.ctxFrame.Some? && s.core.ctxFrame.value in s.core.slab && ReceiveOk(cfg, s.core.slab[s.core.ctxFrame.value]))
  {
    var init := Init(cfg, callers, clock);
    InitIsSound(cfg, callers, clock);
    AlwaysBounded(r, cfg, init, run);
    var s := Exec(r, cfg, init, run);
    if s.core.tx != [] {
      assert OwnedOnce(s, s.core.tx[0]);
      CountMember(s.core.tx, 0);
    }
    if s.core.rx != [] {
      var b := s.core.rx[0];
      assert OwnedOnce(s, b);
      CountMember(s.core.rx, 0);
      assert Undispatched(s)[|Submitted(s)| + |BeingDispatched(s.thread)|] == b;
    }
    if s.core.workPending {
      assert OwnedOnce(s, s.core.ctxFrame.value);
      assert Undispatched(s)[0] == s.core.ctxFrame.value;
    }
  }
}
