/**
 The pending discipline: an entry is marked as not yet sent exactly while its command's frame is on the
 way to the PHY, so that the timeout handler, which skips such entries, ages no command out before it has
 been sent. It rests on responses that come after the stamp, which follows from a well-behaved peer. That a
 pending entry has a frame rests on sends that succeed; without one the id is lost for good.
 */
module Pending {
  import opened Common
  import opened Counting
  import opened Wire
  import opened IcmpState
  import opened IcmpNode
  import opened IcmpRuns
  import opened Ownership
  import opened Serials
  import opened Fifo

  const NOTHING := Tagged(NO_TAG, Frame(0, 0, 0, []))

  /** The frame that a caller is on its way to enqueue. */
  function CallerItem(s: Node, pc: CallerPc): Tagged {
    match pc
    case Building(f, serial) => Tagged(serial, f)
    case Holding(b) => At(s, b)
    case _ => NOTHING
  }

  function CallerItems(s: Node): seq<Tagged> { seq(|s.callers|, i requires 0 <= i < |s.callers| => CallerItem(s, s.callers[i])) }

  function BeingStamped(pc: ThreadPc): seq<Block> { match pc case Stamping(b) => [b] case _ => [] }

  predicate IsCommand(it: Tagged, m: nat, t: int) { it.frame.kind == TYPE_COMMAND && it.frame.msgId == m && it.tag == t }

  function CountCommands(items: seq<Tagged>, m: nat, t: int): nat {
    if items == [] then 0 else OneIf(IsCommand(items[0], m, t)) + CountCommands(items[1..], m, t)
  }

  /** The frames of the command `t` with id `m` that have not been stamped: in a caller's hand, in the
      sending queue, or just taken from it. */
  function Unstamped(s: Node, m: nat, t: int): nat {
    CountCommands(CallerItems(s), m, t) + CountCommands(Items(s, BeingStamped(s.thread)), m, t) + CountCommands(Items(s, s.core.tx), m, t)
  }

  predicate IsPending(s: Node, m: nat) { m in s.core.inflight && m < |s.core.table| && s.core.table[m].timestamp == SEND_PENDING }

  /** An unstamped frame belongs to the pending entry of its command, which has no other. */
  predicate PendingOnce(s: Node, m: nat, t: int) { Unstamped(s, m, t) <= OneIf(IsPending(s, m) && OwnerOf(s, m) == t) }

  ghost predicate PendingOk(s: Node) { forall m: nat, t: int :: PendingOnce(s, m, t) }

  /** And the pending entry has one: this holds as long as no send has failed. */
  predicate HasFrame(s: Node, m: nat, t: int) { Unstamped(s, m, t) >= OneIf(IsPending(s, m) && OwnerOf(s, m) == t) }

  ghost predicate AllHaveFrames(s: Node) { forall m: nat, t: int :: HasFrame(s, m, t) }

  predicate StampKnown(s: Node, m: nat) { IsPending(s, m) <==> OwnerOf(s, m) !in s.hist.stamped }

  /** The entries that count as sent are those whose own frame has been stamped. */
  ghost predicate StampsOk(s: Node) {
    && (forall m :: m in s.core.inflight ==> StampKnown(s, m))
    && (forall t :: t in s.hist.stamped ==> 0 <= t < |s.hist.allocs|)
    && s.hist.wire <= s.hist.stamped && s.hist.expired <= s.hist.stamped
    && (s.thread.Sending? && FrameAt(s.core, s.thread.block).kind == TYPE_COMMAND ==> TagOf(s, s.thread.block) in s.hist.stamped)
    && (InWindow(s) ==> !IsPending(s, WindowId(s)))
  }

  ghost predicate Paced(cfg: Config, s: Node) { Sound(cfg, s) && Serial(cfg, s) && PendingOk(s) && StampsOk(s) }

  // ---- counting ----------------------------------------------------------------------------------

  lemma {:induction false} CountAppendItems(p: seq<Tagged>, q: seq<Tagged>, m: nat, t: int)
    ensures CountCommands(p + q, m, t) == CountCommands(p, m, t) + CountCommands(q, m, t)
  {
    if p == [] {
      assert p + q == q;
    } else {
      assert (p + q)[1..] == p[1..] + q;
      CountAppendItems(p[1..], q, m, t);
    }
  }

  lemma CountOne(it: Tagged, m: nat, t: int)
    ensures CountCommands([it], m, t) == OneIf(IsCommand(it, m, t))
  {
    assert [it][1..] == [];
  }

  lemma {:induction false} CountUpdate(items: seq<Tagged>, i: nat, it: Tagged, m: nat, t: int)
    requires i < |items|
    ensures CountCommands(items[i := it], m, t) + OneIf(IsCommand(items[i], m, t)) == CountCommands(items, m, t) + OneIf(IsCommand(it, m, t))
  {
    if i == 0 {
      assert items[i := it][1..] == items[1..];
    } else {
      assert items[i := it][1..] == items[1..][i - 1 := it];
      CountUpdate(items[1..], i - 1, it, m, t);
    }
  }

  lemma {:induction false} CountBounds(items: seq<Tagged>, i: nat, m: nat, t: int)
    requires i < |items| && IsCommand(items[i], m, t)
    ensures CountCommands(items, m, t) >= 1
  {
    if i > 0 {
      CountBounds(items[1..], i - 1, m, t);
    }
  }

  lemma {:induction false} CountTwo(items: seq<Tagged>, i: nat, j: nat, m: nat, t: int)
    requires i < j < |items| && IsCommand(items[i], m, t) && IsCommand(items[j], m, t)
    ensures CountCommands(items, m, t) >= 2
  {
    if i == 0 {
      CountBounds(items[1..], j - 1, m, t);
    } else {
      CountTwo(items[1..], i - 1, j - 1, m, t);
    }
  }

  // ---- frames on the way to the PHY --------------------------------------------------------------------

  lemma TxItemsKept(cfg: Config, s: Node, a: Action)
    requires Sound(cfg, s) && Enabled(cfg, s, a)
    ensures Items(Apply(cfg, s, a), s.core.tx) == Items(s, s.core.tx)
    ensures Items(Apply(cfg, s, a), BeingStamped(s.thread)) == Items(s, BeingStamped(s.thread))
  {
    TxWaiting(s);
    if a.TxFree? {
      ReleasedIsAlone(s, s.core.tx);
    }
    QueueUntouched(cfg, s, a, s.core.tx);
    if s.thread.Stamping? {
      QueueUntouched(cfg, s, a, [s.thread.block]);
    }
  }

  lemma HeldUntouched(cfg: Config, s: Node, a: Action, i: nat)
    requires Sound(cfg, s) && Enabled(cfg, s, a) && i < |s.callers| && s.callers[i].Holding?
    ensures At(Apply(cfg, s, a), s.callers[i].block) == At(s, s.callers[i].block)
  {
    var b := s.callers[i].block;
    assert OwnedOnce(s, b);
    InHandBound(s.callers, i, b);
    if a.UartFinish? && s.callers[a.caller].block == b {
      TwoHands(s.callers, i, a.caller, b);
    }
    UntouchedBlock(cfg, s, a, b);
  }

  lemma {:induction false} TwoHands(callers: seq<CallerPc>, i: nat, j: nat, b: Block)
    requires i < |callers| && j < |callers| && i != j && InHand(callers[i], b) == 1 && InHand(callers[j], b) == 1
    ensures InHands(callers, b) >= 2
  {
    if i == 0 {
      InHandBound(callers[1..], j - 1, b);
    } else if j == 0 {
      InHandBound(callers[1..], i - 1, b);
    } else {
      TwoHands(callers[1..], i - 1, j - 1, b);
    }
  }

  /** A caller's step changes what that caller holds; the other callers' frames stay as they are. */
  lemma CallerItemsStep(cfg: Config, s: Node, a: Action)
    requires Sound(cfg, s) && Enabled(cfg, s, a) && CallerAction(a)
    ensures var t := Apply(cfg, s, a);
      |t.callers| == |s.callers| && CallerItems(t) == CallerItems(s)[a.caller := CallerItem(t, t.callers[a.caller])]
  {
    var t := Apply(cfg, s, a);
    OtherCallersKept(cfg, s, a);
    forall i | 0 <= i < |s.callers| && i != a.caller ensures CallerItem(t, t.callers[i]) == CallerItem(s, s.callers[i]) {
      if s.callers[i].Holding? {
        HeldUntouched(cfg, s, a, i);
      }
    }
  }

  lemma OtherCallersKept(cfg: Config, s: Node, a: Action)
    requires Enabled(cfg, s, a)
    ensures |Apply(cfg, s, a).callers| == |s.callers|
    ensures CallerAction(a) ==> Apply(cfg, s, a).callers == s.callers[a.caller := Apply(cfg, s, a).callers[a.caller]]
    ensures !CallerAction(a) ==> Apply(cfg, s, a).callers == s.callers
  {
  }

  lemma CallerItemsKept(cfg: Config, s: Node, a: Action)
    requires Sound(cfg, s) && Enabled(cfg, s, a) && !CallerAction(a)
    ensures CallerItems(Apply(cfg, s, a)) == CallerItems(s)
  {
    var t := Apply(cfg, s, a);
    OtherCallersKept(cfg, s, a);
    forall i | 0 <= i < |s.callers| ensures CallerItem(t, t.callers[i]) == CallerItem(s, s.callers[i]) {
      if s.callers[i].Holding? {
        HeldUntouched(cfg, s, a, i);
      }
    }
  }

  // ---- the unstamped frames, step by step ---------------------------------------------------------------

  /** A frame that a caller drops or takes up changes the count by itself. */
  lemma CallerCounts(cfg: Config, s: Node, a: Action, m: nat, t: int)
    requires Sound(cfg, s) && Enabled(cfg, s, a) && CallerAction(a)
    ensures var n := Apply(cfg, s, a);
      Unstamped(n, m, t) + OneIf(IsCommand(CallerItem(s, s.callers[a.caller]), m, t)) + CountCommands(Items(s, s.core.tx), m, t)
        == Unstamped(s, m, t) + OneIf(IsCommand(CallerItem(n, n.callers[a.caller]), m, t)) + CountCommands(Items(n, n.core.tx), m, t)
  {
    var n := Apply(cfg, s, a);
    CallerItemsStep(cfg, s, a);
    TxItemsKept(cfg, s, a);
    CallerKeepsThread(cfg, s, a);
    CountUpdate(CallerItems(s), a.caller, CallerItem(n, n.callers[a.caller]), m, t);
  }

  lemma CallerKeepsThread(cfg: Config, s: Node, a: Action)
    requires Enabled(cfg, s, a) && CallerAction(a)
    ensures var n := Apply(cfg, s, a);
      && n.thread == s.thread && n.work == s.work && (!a.Enqueue? ==> n.core.tx == s.core.tx)
      && n.hist.stamped == s.hist.stamped && n.hist.wire == s.hist.wire && n.hist.expired == s.hist.expired
  {
  }

  lemma CommandKeepsPending(cfg: Config, s: Node, a: Action, m: nat, t: int)
    requires Paced(cfg, s) && Enabled(cfg, s, a) && a.Command?
    ensures PendingOnce(CommandStep(cfg, s, a), m, t)
    ensures HasFrame(s, m, t) ==> HasFrame(CommandStep(cfg, s, a), m, t)
  {
    assert PendingOnce(s, m, t);
    CallerKeepsThread(cfg, s, a);
    TxItemsKept(cfg, s, a);
    CallerCounts(cfg, s, a, m, t);
    CommandPends(cfg, s, a, m, t);
  }

  /** The entry that a command makes is pending, and the frame that it takes up is for that entry. */
  lemma CommandPends(cfg: Config, s: Node, a: Action, m: nat, t: int)
    requires Shape(cfg, s) && Enabled(cfg, s, a) && a.Command?
    requires OwnerOf(s, m) < |s.hist.allocs| && Unstamped(s, m, t) <= OneIf(IsPending(s, m) && OwnerOf(s, m) == t)
    ensures var n := CommandStep(cfg, s, a);
      && CallerItem(s, s.callers[a.caller]) == NOTHING
      && OneIf(IsPending(n, m) && OwnerOf(n, m) == t)
           == OneIf(IsPending(s, m) && OwnerOf(s, m) == t) + OneIf(IsCommand(CallerItem(n, n.callers[a.caller]), m, t))
  {
  }

  lemma TakeKeepsPending(cfg: Config, s: Node, a: Action, m: nat, t: int)
    requires Paced(cfg, s) && Enabled(cfg, s, a) && (a.RespondOrNotify? || a.TakeFrame? || a.UartTakeFrame? || a.UartFinish?)
    ensures PendingOnce(Apply(cfg, s, a), m, t)
    ensures HasFrame(s, m, t) && !SendFails(cfg, s, a) ==> HasFrame(Apply(cfg, s, a), m, t)
  {
    var n := Apply(cfg, s, a);
    assert PendingOnce(s, m, t);
    TxItemsKept(cfg, s, a);
    CallerCounts(cfg, s, a, m, t);
    CallerKeepsThread(cfg, s, a);
    CallersKeepIds(cfg, s, a);
    CallersKeepTable(cfg, s, a);
    SameCommand(cfg, s, a, m, t);
  }

  lemma CallersKeepTable(cfg: Config, s: Node, a: Action)
    requires Enabled(cfg, s, a) && CallerAction(a) && !a.Command?
    ensures Apply(cfg, s, a).core.table == s.core.table
  {
  }

  lemma TableKept(cfg: Config, s: Node, a: Action)
    requires Enabled(cfg, s, a) && !ChangesIds(a) && !a.Stamp?
    ensures Apply(cfg, s, a).core.table == s.core.table
  {
    if CallerAction(a) {
      CallersKeepTable(cfg, s, a);
    }
  }

  /** Filling a frame from the slab, or receiving one, adds no command, and drops one only when the slab is
      full. */
  lemma SameCommand(cfg: Config, s: Node, a: Action, m: nat, t: int)
    requires Enabled(cfg, s, a) && (a.RespondOrNotify? || a.TakeFrame? || a.UartTakeFrame? || a.UartFinish?)
    ensures var before, after := CallerItem(s, s.callers[a.caller]), CallerItem(Apply(cfg, s, a), Apply(cfg, s, a).callers[a.caller]);
      && (IsCommand(after, m, t) ==> IsCommand(before, m, t))
      && (!SendFails(cfg, s, a) ==> IsCommand(after, m, t) == IsCommand(before, m, t))
  {
  }

  lemma EnqueueKeepsPending(cfg: Config, s: Node, a: Action, m: nat, t: int)
    requires Paced(cfg, s) && Enabled(cfg, s, a) && a.Enqueue?
    ensures PendingOnce(Apply(cfg, s, a), m, t)
    ensures HasFrame(s, m, t) && !SendFails(cfg, s, a) ==> HasFrame(Apply(cfg, s, a), m, t)
  {
    var n := Apply(cfg, s, a);
    assert PendingOnce(s, m, t);
    TxItemsKept(cfg, s, a);
    CallerCounts(cfg, s, a, m, t);
    CallersKeepIds(cfg, s, a);
    CallersKeepTable(cfg, s, a);
    EnqueueAppends(cfg, s, a);
    if !TxFull(s.core) {
      var it := At(s, s.callers[a.caller].block);
      CountAppendItems(Items(s, s.core.tx), [it], m, t);
      CountOne(it, m, t);
    }
  }

  /** The thread's and the workqueue's steps other than the two that move or stamp a frame to be sent. */
  lemma OtherKeepsPending(cfg: Config, s: Node, a: Action, m: nat, t: int)
    requires Paced(cfg, s) && Enabled(cfg, s, a) && !CallerAction(a) && !a.TxDequeue? && !a.Stamp?
    ensures PendingOnce(Apply(cfg, s, a), m, t)
    ensures HasFrame(s, m, t) ==> HasFrame(Apply(cfg, s, a), m, t)
  {
    var n := Apply(cfg, s, a);
    assert PendingOnce(s, m, t);
    CallerItemsKept(cfg, s, a);
    TxItemsKept(cfg, s, a);
    SendSideKept(cfg, s, a);
    PendingKept(cfg, s, a, m);
  }

  lemma SendSideKept(cfg: Config, s: Node, a: Action)
    requires Enabled(cfg, s, a) && !CallerAction(a) && !a.TxDequeue? && !a.Stamp?
    ensures var n := Apply(cfg, s, a);
      && n.core.tx == s.core.tx && BeingStamped(n.thread) == BeingStamped(s.thread)
      && n.hist.owner == s.hist.owner && n.hist.stamped == s.hist.stamped
  {
  }

  lemma PendingKept(cfg: Config, s: Node, a: Action, m: nat)
    requires Shape(cfg, s) && StampsOk(s) && Enabled(cfg, s, a) && !CallerAction(a) && !a.Stamp?
    ensures IsPending(Apply(cfg, s, a), m) == IsPending(s, m)
  {
  }

  lemma TxDequeueKeepsPending(cfg: Config, s: Node, m: nat, t: int)
    requires Paced(cfg, s) && s.thread.Top?
    ensures PendingOnce(TxDequeueStep(s), m, t)
    ensures HasFrame(s, m, t) ==> HasFrame(TxDequeueStep(s), m, t)
  {
    var n := TxDequeueStep(s);
    assert PendingOnce(s, m, t);
    assert CallerItems(n) == CallerItems(s);
    if s.core.tx != [] {
      var b := s.core.tx[0];
      assert Items(s, s.core.tx)[0] == At(s, b);
      assert Items(s, s.core.tx)[1..] == Items(n, n.core.tx);
      assert Items(n, BeingStamped(n.thread)) == [At(s, b)];
      CountOne(At(s, b), m, t);
    }
  }

  /** The stamp of a command's frame goes to that command's own entry, which is still pending. */
  lemma StampHitsOwnEntry(cfg: Config, s: Node)
    requires Paced(cfg, s) && s.thread.Stamping? && FrameAt(s.core, s.thread.block).kind == TYPE_COMMAND
    ensures var it := At(s, s.thread.block);
      IsPending(s, it.frame.msgId) && OwnerOf(s, it.frame.msgId) == it.tag && it.tag !in s.hist.stamped
      && 0 <= it.tag < |s.hist.allocs|
  {
    var it := At(s, s.thread.block);
    var m := it.frame.msgId;
    assert PendingOnce(s, m, it.tag);
    CountOne(it, m, it.tag);
    assert Items(s, BeingStamped(s.thread)) == [it];
    assert StampKnown(s, m);
    assert EntryOk(s, m);
  }

  lemma StampKeepsPending(cfg: Config, s: Node, m: nat, t: int)
    requires Paced(cfg, s) && s.thread.Stamping? && s.clock > 0
    ensures PendingOnce(StampStep(s), m, t)
    ensures HasFrame(s, m, t) ==> HasFrame(StampStep(s), m, t)
  {
    var n, it := StampStep(s), At(s, s.thread.block);
    assert PendingOnce(s, m, t);
    assert CallerItems(n) == CallerItems(s) && Items(n, n.core.tx) == Items(s, s.core.tx);
    assert Items(s, BeingStamped(s.thread)) == [it] && Items(n, BeingStamped(n.thread)) == [];
    CountOne(it, m, t);
    if it.frame.kind == TYPE_COMMAND {
      StampHitsOwnEntry(cfg, s);
    }
  }

  lemma EachKeepsPending(cfg: Config, s: Node, a: Action, m: nat, t: int)
    requires Paced(cfg, s) && Enabled(cfg, s, a)
    ensures PendingOnce(Apply(cfg, s, a), m, t)
    ensures HasFrame(s, m, t) && !SendFails(cfg, s, a) ==> HasFrame(Apply(cfg, s, a), m, t)
  {
    if a.Command? {
      CommandKeepsPending(cfg, s, a, m, t);
    } else if a.Enqueue? {
      EnqueueKeepsPending(cfg, s, a, m, t);
    } else if CallerAction(a) {
      TakeKeepsPending(cfg, s, a, m, t);
    } else if a.TxDequeue? {
      TxDequeueKeepsPending(cfg, s, m, t);
    } else if a.Stamp? {
      StampKeepsPending(cfg, s, m, t);
    } else {
      OtherKeepsPending(cfg, s, a, m, t);
    }
  }

  /** Every step keeps at most one unstamped frame for a pending entry and none for any other; every step
      but a failing send keeps exactly one. */
  lemma StepKeepsPending(cfg: Config, s: Node, a: Action)
    requires Paced(cfg, s) && Enabled(cfg, s, a)
    ensures PendingOk(Apply(cfg, s, a))
    ensures AllHaveFrames(s) && !SendFails(cfg, s, a) ==> AllHaveFrames(Apply(cfg, s, a))
  {
    forall m: nat, t: int ensures PendingOnce(Apply(cfg, s, a), m, t) {
      EachKeepsPending(cfg, s, a, m, t);
    }
    if AllHaveFrames(s) && !SendFails(cfg, s, a) {
      forall m: nat, t: int ensures HasFrame(Apply(cfg, s, a), m, t) {
        assert HasFrame(s, m, t);
        EachKeepsPending(cfg, s, a, m, t);
      }
    }
  }
}
