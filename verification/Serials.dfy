/**
 Message ids and response callbacks. Ids are recycled without limit, so every allocation of an id gets a
 serial number; the invariants say which allocation an in-flight entry belongs to and which allocations
 have had their callback.
 */
module Serials {
  import opened Common
  import opened Wire
  import opened IcmpState
  import opened IcmpNode
  import opened IcmpRuns
  import opened Recorded
  import opened Ownership

  /** The allocation `t` still owns its in-flight entry. */
  predicate Live(s: Node, t: int) {
    0 <= t < |s.hist.allocs| && s.hist.allocs[t].msgId in s.core.inflight && OwnerOf(s, s.hist.allocs[t].msgId) == t
  }

  predicate LatestOf(allocs: seq<Alloc>, m: nat, t: nat) {
    t < |allocs| && allocs[t].msgId == m && forall k :: t < k < |allocs| ==> allocs[k].msgId != m
  }

  ghost predicate OwnersOk(cfg: Config, s: Node) {
    && s.core.inflight <= s.hist.owner.Keys
    && (forall m :: m in s.hist.owner ==> m < cfg.ids && LatestOf(s.hist.allocs, m, s.hist.owner[m]))
    && (forall t :: 0 <= t < |s.hist.allocs| ==> s.hist.allocs[t].msgId in s.hist.owner)
  }

  predicate EntryOk(s: Node, m: nat) {
    && m < |s.core.table| && 0 <= OwnerOf(s, m) < |s.hist.allocs|
    && s.core.table[m].callback == s.hist.allocs[OwnerOf(s, m)].callback
    && s.core.table[m].userData == s.hist.allocs[OwnerOf(s, m)].userData
  }

  /** Every in-flight entry holds what its latest allocation stored. */
  ghost predicate EntriesOk(s: Node) { forall m :: m in s.core.inflight ==> EntryOk(s, m) }

  predicate SettledOk(s: Node, t: int) { Live(s, t) <==> t !in s.hist.cleared && t !in s.hist.expired }

  /** An allocation is live until its response has been handled or it has been aged out. */
  ghost predicate LivenessOk(s: Node) {
    && (forall t :: 0 <= t < |s.hist.allocs| ==> SettledOk(s, t))
    && (forall t :: t in s.hist.cleared || t in s.hist.expired ==> 0 <= t < |s.hist.allocs|)
  }

  /** The id that the handler has looked up, while it runs without the mutex. */
  function WindowId(s: Node): nat
    requires s.work.Checked? || s.work.InCallback?
  {
    FrameAt(s.core, s.work.block).msgId
  }

  predicate InWindow(s: Node) { s.work.Checked? || s.work.InCallback? }

  ghost predicate WindowOk(s: Node) {
    InWindow(s) ==> s.work.block in s.core.slab && HasResponseCallback(s.core, FrameAt(s.core, s.work.block))
  }

  predicate CallOk(s: Node, c: Call) {
    && 0 <= c.serial < |s.hist.allocs| && c.callback.Some?
    && c.callback == s.hist.allocs[c.serial].callback && c.userData == s.hist.allocs[c.serial].userData
  }

  /** The call whose callback is still running. */
  predicate Running(s: Node, i: nat) {
    i < |s.hist.calls| && i == |s.hist.calls| - 1 && s.work.InCallback? && s.hist.calls[i].serial == OwnerOf(s, WindowId(s))
  }

  ghost predicate CallsOk(s: Node) {
    && (forall i :: 0 <= i < |s.hist.calls| ==> CallOk(s, s.hist.calls[i]))
    && (forall i, j :: 0 <= i < j < |s.hist.calls| ==> s.hist.calls[i].serial != s.hist.calls[j].serial)
    && (forall i: nat :: i < |s.hist.calls| ==> s.hist.calls[i].serial in s.hist.cleared || Running(s, i))
    && (s.work.InCallback? ==> |s.hist.calls| > 0 && Running(s, |s.hist.calls| - 1))
  }

  ghost predicate Serial(cfg: Config, s: Node) { OwnersOk(cfg, s) && EntriesOk(s) && LivenessOk(s) && WindowOk(s) && CallsOk(s) }

  // ---- frames that another thread holds do not change -------------------------------------------

  predicate Touches(s: Node, a: Action, b: Block) {
    || (a.TxFree? && s.thread.Releasing? && s.thread.block == b)
    || (a.HandlerFree? && s.core.ctxFrame == Some(b))
    || (a.UartFinish? && a.caller < |s.callers| && s.callers[a.caller].Receiving? && s.callers[a.caller].block == b)
  }

  lemma UntouchedBlock(cfg: Config, s: Node, a: Action, b: Block)
    requires Enabled(cfg, s, a) && b in s.core.slab && !Touches(s, a, b)
    ensures b in Apply(cfg, s, a).core.slab && At(Apply(cfg, s, a), b) == At(s, b)
  {
    if CallerAction(a) {
      CallerLeavesBlock(cfg, s, a, b);
    } else if ThreadAction(a) {
      ThreadLeavesBlock(cfg, s, a, b);
    } else {
      WorkLeavesBlock(cfg, s, a, b);
    }
  }

  lemma CallerLeavesBlock(cfg: Config, s: Node, a: Action, b: Block)
    requires Enabled(cfg, s, a) && b in s.core.slab && !Touches(s, a, b) && CallerAction(a)
    ensures b in Apply(cfg, s, a).core.slab && At(Apply(cfg, s, a), b) == At(s, b)
  {
  }

  lemma ThreadLeavesBlock(cfg: Config, s: Node, a: Action, b: Block)
    requires Enabled(cfg, s, a) && b in s.core.slab && !Touches(s, a, b) && ThreadAction(a)
    ensures b in Apply(cfg, s, a).core.slab && At(Apply(cfg, s, a), b) == At(s, b)
  {
  }

  lemma WorkLeavesBlock(cfg: Config, s: Node, a: Action, b: Block)
    requires Enabled(cfg, s, a) && b in s.core.slab && !Touches(s, a, b) && !CallerAction(a) && !ThreadAction(a)
    ensures b in Apply(cfg, s, a).core.slab && At(Apply(cfg, s, a), b) == At(s, b)
  {
  }

  /** A block outside the callers' hands is not what the UART receives into. */
  lemma NotInHands(s: Node, b: Block, i: nat)
    requires OwnedOnce(s, b) && Places(s, b) > InHands(s.callers, b) && i < |s.callers|
    ensures s.callers[i].Receiving? ==> s.callers[i].block != b
    ensures s.callers[i].Holding? ==> s.callers[i].block != b
  {
    InHandBound(s.callers, i, b);
  }

  lemma ContextUntouched(cfg: Config, s: Node, a: Action)
    requires Sound(cfg, s) && Enabled(cfg, s, a) && ContextHeld(s) && !a.HandlerFree? && s.core.ctxFrame.Some?
    ensures var b := s.core.ctxFrame.value;
            b in s.core.slab && b in Apply(cfg, s, a).core.slab && At(Apply(cfg, s, a), b) == At(s, b)
  {
    var b := s.core.ctxFrame.value;
    assert OwnedOnce(s, b);
    if a.UartFinish? {
      NotInHands(s, b, a.caller);
    }
    UntouchedBlock(cfg, s, a, b);
  }

  // ---- the steps that change ids, entries or calls -------------------------------------------------

  predicate ChangesIds(a: Action) { a.Command? || a.HandlerClear? || a.Timeout? }

  /** Ids, serial numbers and what the entries store for their callers are the same in both states. */
  ghost predicate SameIds(s: Node, t: Node) {
    && t.core.inflight == s.core.inflight && t.hist.allocs == s.hist.allocs && t.hist.owner == s.hist.owner
    && t.hist.cleared == s.hist.cleared && t.hist.expired == s.hist.expired
    && |t.core.table| == |s.core.table|
    && forall m :: 0 <= m < |s.core.table| ==>
         t.core.table[m].callback == s.core.table[m].callback && t.core.table[m].userData == s.core.table[m].userData
  }

  lemma StampKeepsIds(s: Node)
    requires s.thread.Stamping?
    ensures SameIds(s, StampStep(s))
  {
  }

  lemma CallersKeepIds(cfg: Config, s: Node, a: Action)
    requires Enabled(cfg, s, a) && CallerAction(a) && !a.Command?
    ensures SameIds(s, Apply(cfg, s, a))
  {
    if a.UartTakeFrame? || a.UartFinish? {
      UartKeepsIds(cfg, s, a);
    }
  }

  lemma UartKeepsIds(cfg: Config, s: Node, a: Action)
    requires Enabled(cfg, s, a) && (a.UartTakeFrame? || a.UartFinish?)
    ensures SameIds(s, Apply(cfg, s, a))
  {
  }

  lemma ThreadKeepsIds(cfg: Config, s: Node, a: Action)
    requires Enabled(cfg, s, a) && ThreadAction(a) && !a.Stamp?
    ensures SameIds(s, Apply(cfg, s, a))
  {
  }

  lemma RestKeepsIds(cfg: Config, s: Node, a: Action)
    requires Enabled(cfg, s, a) && !CallerAction(a) && !ThreadAction(a) && !ChangesIds(a)
    ensures SameIds(s, Apply(cfg, s, a))
  {
  }

  lemma OtherStepsKeepIds(cfg: Config, s: Node, a: Action)
    requires Enabled(cfg, s, a) && !ChangesIds(a)
    ensures SameIds(s, Apply(cfg, s, a))
  {
    if a.Stamp? {
      StampKeepsIds(s);
    } else if CallerAction(a) {
      CallersKeepIds(cfg, s, a);
    } else if ThreadAction(a) {
      ThreadKeepsIds(cfg, s, a);
    } else {
      RestKeepsIds(cfg, s, a);
    }
  }

  lemma CommandKeepsOwners(cfg: Config, s: Node, a: Action)
    requires Shape(cfg, s) && Enabled(cfg, s, a) && a.Command? && OwnersOk(cfg, s) && EntriesOk(s)
    ensures OwnersOk(cfg, CommandStep(cfg, s, a)) && EntriesOk(CommandStep(cfg, s, a))
  {
    var t := CommandStep(cfg, s, a);
    forall m | m in t.hist.owner ensures m < cfg.ids && LatestOf(t.hist.allocs, m, t.hist.owner[m]) {
      if m in s.hist.owner {
        assert LatestOf(s.hist.allocs, m, s.hist.owner[m]);
      }
    }
    forall m | m in t.core.inflight ensures EntryOk(t, m) {
      if m in s.core.inflight {
        assert EntryOk(s, m);
      }
    }
  }

  lemma CommandKeepsLiveness(cfg: Config, s: Node, a: Action)
    requires Shape(cfg, s) && Enabled(cfg, s, a) && a.Command? && OwnersOk(cfg, s) && LivenessOk(s)
    ensures LivenessOk(CommandStep(cfg, s, a))
  {
    var t := CommandStep(cfg, s, a);
    forall k | 0 <= k < |t.hist.allocs| ensures SettledOk(t, k) {
      if k < |s.hist.allocs| {
        assert SettledOk(s, k);
      }
    }
  }

  lemma TimeoutKeepsIds(cfg: Config, s: Node, locked: bool)
    requires Shape(cfg, s) && OwnersOk(cfg, s) && EntriesOk(s) && LivenessOk(s)
    ensures var t := TimeoutStep(cfg, s, locked); OwnersOk(cfg, t) && EntriesOk(t) && LivenessOk(t)
  {
    var t := TimeoutStep(cfg, s, locked);
    var aged := ExpiredIds(s.core, s.clock, cfg.maxAge);
    if locked {
      forall m | m in t.core.inflight ensures EntryOk(t, m) {
        assert EntryOk(s, m);
      }
      forall k | 0 <= k < |t.hist.allocs| ensures SettledOk(t, k) {
        assert SettledOk(s, k);
        var m := s.hist.allocs[k].msgId;
        if m in aged && OwnerOf(s, m) == k {
          assert k in t.hist.expired;
        }
      }
      forall k | k in t.hist.expired ensures 0 <= k < |t.hist.allocs| {
        if k !in s.hist.expired {
          var m :| m in aged && k == OwnerOf(s, m);
          assert EntryOk(s, m);
        }
      }
    }
  }

  lemma ClearKeepsIds(cfg: Config, s: Node)
    requires Shape(cfg, s) && OwnersOk(cfg, s) && EntriesOk(s) && LivenessOk(s) && s.work.InCallback?
    ensures var t := HandlerClearStep(s); OwnersOk(cfg, t) && EntriesOk(t) && LivenessOk(t)
  {
    var t, m := HandlerClearStep(s), WindowId(s);
    forall k | k in t.core.inflight ensures EntryOk(t, k) {
      assert EntryOk(s, k);
    }
    forall k | 0 <= k < |t.hist.allocs| ensures SettledOk(t, k) {
      assert SettledOk(s, k);
    }
    if m in s.core.inflight {
      assert EntryOk(s, m);
    }
  }

  lemma StepKeepsIds(cfg: Config, s: Node, a: Action)
    requires Sound(cfg, s) && Serial(cfg, s) && Enabled(cfg, s, a)
    ensures var t := Apply(cfg, s, a); OwnersOk(cfg, t) && EntriesOk(t) && LivenessOk(t)
  {
    var t := Apply(cfg, s, a);
    if a.Command? {
      CommandKeepsOwners(cfg, s, a);
      CommandKeepsLiveness(cfg, s, a);
    } else if a.Timeout? {
      TimeoutKeepsIds(cfg, s, a.locked);
    } else if a.HandlerClear? {
      ClearKeepsIds(cfg, s);
    } else {
      OtherStepsKeepIds(cfg, s, a);
      SameIdsKeep(cfg, s, t);
    }
  }

  lemma SameIdsKeep(cfg: Config, s: Node, t: Node)
    requires OwnersOk(cfg, s) && EntriesOk(s) && LivenessOk(s) && SameIds(s, t)
    ensures OwnersOk(cfg, t) && EntriesOk(t) && LivenessOk(t)
  {
    forall m | m in t.core.inflight ensures EntryOk(t, m) {
      assert EntryOk(s, m);
    }
    forall k | 0 <= k < |t.hist.allocs| ensures SettledOk(t, k) {
      assert SettledOk(s, k);
    }
  }

  /** The window of the handler: no step of any thread but the handler's own clear changes the bit, the
      callback or the user data of the entry that was looked up, nor which allocation it belongs to. */
  lemma WindowStep(cfg: Config, s: Node, a: Action)
    requires Sound(cfg, s) && Serial(cfg, s) && InWindow(s) && Enabled(cfg, s, a) && !a.HandlerClear?
    ensures var t := Apply(cfg, s, a); var m := WindowId(s);
      && InWindow(t) && WindowId(t) == m && At(t, t.work.block) == At(s, s.work.block) && WindowOk(t)
      && m in s.core.inflight && m in t.core.inflight
      && t.core.table[m].callback == s.core.table[m].callback
      && t.core.table[m].userData == s.core.table[m].userData
      && OwnerOf(t, m) == OwnerOf(s, m)
  {
    ContextUntouched(cfg, s, a);
    if a.Command? {
      WindowCommand(cfg, s, a);
    } else {
      OtherStepsKeepIds(cfg, s, a);
    }
    WindowPc(cfg, s, a);
  }

  lemma WindowPc(cfg: Config, s: Node, a: Action)
    requires Singleton(s) && InWindow(s) && Enabled(cfg, s, a) && !a.HandlerClear?
    ensures InWindow(Apply(cfg, s, a)) && Apply(cfg, s, a).work.block == s.work.block
    ensures s.work.InCallback? ==> Apply(cfg, s, a).work == s.work && Apply(cfg, s, a).hist.calls == s.hist.calls
  {
  }

  /** A command issued while the callback runs gets another id than the one being answered. */
  lemma WindowCommand(cfg: Config, s: Node, a: Action)
    requires Shape(cfg, s) && Enabled(cfg, s, a) && a.Command? && InWindow(s) && WindowId(s) in s.core.inflight
    ensures var t := CommandStep(cfg, s, a); var m := WindowId(s);
      && m in t.core.inflight && |t.core.table| == |s.core.table| && t.core.table[m] == s.core.table[m] && OwnerOf(t, m) == OwnerOf(s, m)
      && (t != s ==> t.callers[a.caller].Building? && t.callers[a.caller].frame.msgId != m)
  {
  }

  /** From the unlock to the relock, over any steps of all the other threads. */
  lemma {:induction false} WindowStable(r: Rules, cfg: Config, s: Node, run: seq<Action>)
    requires Sound(cfg, s) && Serial(cfg, s) && InWindow(s) && Runs(r, cfg, s, run)
    requires forall i :: 0 <= i < |run| ==> !run[i].HandlerClear?
    ensures var t := Exec(r, cfg, s, run); var m := WindowId(s);
      && InWindow(t) && t.work.block == s.work.block && WindowId(t) == m
      && m in t.core.inflight && m < |t.core.table| && m < |s.core.table|
      && t.core.table[m].callback == s.core.table[m].callback && t.core.table[m].callback.Some?
      && t.core.table[m].userData == s.core.table[m].userData
      && OwnerOf(t, m) == OwnerOf(s, m)
    decreases run
  {
    if run != [] {
      var a := run[0];
      WindowStep(cfg, s, a);
      WindowPc(cfg, s, a);
      StepKeepsSound(cfg, s, a);
      StepKeepsSerial(cfg, s, a);
      WindowStable(r, cfg, Apply(cfg, s, a), run[1..]);
    }
  }

  /** The final clear removes the answered entry and no other. */
  lemma ClearRemovesOnlyAnswered(cfg: Config, s: Node)
    requires Sound(cfg, s) && Serial(cfg, s) && s.work.InCallback?
    ensures var t := HandlerClearStep(s); var m := WindowId(s);
      && m in s.core.inflight && t.core.inflight == s.core.inflight - {m} && t.core.table == s.core.table[m := CLEARED]
      && t.hist.cleared == s.hist.cleared + {s.hist.calls[|s.hist.calls| - 1].serial}
  {
    assert Running(s, |s.hist.calls| - 1);
  }

  // ---- calls ------------------------------------------------------------------------------------------

  lemma HandlerCallKeepsCalls(cfg: Config, s: Node)
    requires Sound(cfg, s) && Serial(cfg, s) && s.work.Checked?
    ensures CallsOk(HandlerCallStep(s))
  {
    var t, m := HandlerCallStep(s), WindowId(s);
    var n := |s.hist.calls|;
    assert EntryOk(s, m);
    assert LatestOf(s.hist.allocs, m, s.hist.owner[m]);
    assert SettledOk(s, OwnerOf(s, m));
    forall i: nat | i < n ensures t.hist.calls[i] == s.hist.calls[i] && t.hist.calls[i].serial in t.hist.cleared {
      assert t.hist.calls[i] == s.hist.calls[i] && !Running(s, i);
    }
    forall i | 0 <= i < |t.hist.calls| ensures CallOk(t, t.hist.calls[i]) {
      if i < n {
        assert CallOk(s, s.hist.calls[i]);
      }
    }
    assert Running(t, n);
  }

  lemma StepKeepsCalls(cfg: Config, s: Node, a: Action)
    requires Sound(cfg, s) && Serial(cfg, s) && Enabled(cfg, s, a) && !a.HandlerCall?
    ensures CallsOk(Apply(cfg, s, a))
  {
    var t := Apply(cfg, s, a);
    CallsKept(cfg, s, a);
    forall i | 0 <= i < |t.hist.calls| ensures CallOk(t, t.hist.calls[i]) {
      assert CallOk(s, s.hist.calls[i]);
    }
    if s.work.InCallback? {
      RunningCallKept(cfg, s, a);
    } else {
      forall i: nat | i < |t.hist.calls| ensures t.hist.calls[i].serial in t.hist.cleared {
        assert !Running(s, i);
      }
    }
  }

  /** The call in progress stays in progress until the clear, and is then among the cleared. */
  lemma RunningCallKept(cfg: Config, s: Node, a: Action)
    requires Sound(cfg, s) && Serial(cfg, s) && Enabled(cfg, s, a) && !a.HandlerCall? && s.work.InCallback?
    ensures var t := Apply(cfg, s, a);
      && (forall i: nat :: i < |t.hist.calls| ==> t.hist.calls[i].serial in t.hist.cleared || Running(t, i))
      && (t.work.InCallback? ==> |t.hist.calls| > 0 && Running(t, |t.hist.calls| - 1))
  {
    var t, last := Apply(cfg, s, a), |s.hist.calls| - 1;
    CallsKept(cfg, s, a);
    assert Running(s, last);
    if a.HandlerClear? {
      ClearRemovesOnlyAnswered(cfg, s);
    } else {
      WindowStep(cfg, s, a);
      WindowPc(cfg, s, a);
      assert Running(t, last);
    }
    forall i: nat | i < |t.hist.calls| ensures t.hist.calls[i].serial in t.hist.cleared || Running(t, i) {
      if i != last { assert !Running(s, i); }
    }
  }

  lemma CallsKept(cfg: Config, s: Node, a: Action)
    requires Enabled(cfg, s, a) && !a.HandlerCall?
    ensures var t := Apply(cfg, s, a);
      && t.hist.calls == s.hist.calls && s.hist.allocs <= t.hist.allocs && s.hist.cleared <= t.hist.cleared
      && (t.work.InCallback? ==> s.work.InCallback?)
  {
  }

  lemma StepKeepsWindow(cfg: Config, s: Node, a: Action)
    requires Sound(cfg, s) && Serial(cfg, s) && Enabled(cfg, s, a)
    ensures WindowOk(Apply(cfg, s, a))
  {
    if InWindow(s) && !a.HandlerClear? {
      WindowStep(cfg, s, a);
    } else if a.HandlerCheck? && s.core.ctxFrame.Some? {
      ContextUntouched(cfg, s, a);
    } else {
      NoNewWindow(cfg, s, a);
    }
  }

  lemma NoNewWindow(cfg: Config, s: Node, a: Action)
    requires Enabled(cfg, s, a) && (!InWindow(s) || a.HandlerClear?)
    requires a.HandlerCheck? ==> s.core.ctxFrame.None?
    ensures !InWindow(Apply(cfg, s, a))
  {
  }

  lemma StepKeepsSerial(cfg: Config, s: Node, a: Action)
    requires Sound(cfg, s) && Serial(cfg, s) && Enabled(cfg, s, a)
    ensures Serial(cfg, Apply(cfg, s, a))
  {
    StepKeepsIds(cfg, s, a);
    StepKeepsWindow(cfg, s, a);
    if a.HandlerCall? {
      HandlerCallKeepsCalls(cfg, s);
    } else {
      StepKeepsCalls(cfg, s, a);
    }
  }

  lemma InitIsSerial(cfg: Config, callers: nat, clock: nat)
    ensures Serial(cfg, Init(cfg, callers, clock))
  {
  }

  lemma {:induction false} AlwaysSerial(r: Rules, cfg: Config, s: Node, run: seq<Action>)
    requires Sound(cfg, s) && Serial(cfg, s) && Runs(r, cfg, s, run)
    ensures Sound(cfg, Exec(r, cfg, s, run)) && Serial(cfg, Exec(r, cfg, s, run))
    decreases run
  {
    if run != [] {
      StepKeepsSound(cfg, s, run[0]);
      StepKeepsSerial(cfg, s, run[0]);
      AlwaysSerial(r, cfg, Apply(cfg, s, run[0]), run[1..]);
    }
  }

  /** In every run, with duplicate and unexpected responses, an accepted command has its response callback
      invoked at most once, and what is invoked is that command's callback with its user data. */
  lemma AtMostOneCallback(r: Rules, cfg: Config, callers: nat, clock: nat, run: seq<Action>)
    requires Runs(r, cfg, Init(cfg, callers, clock), run)
    ensures var calls := Exec(r, cfg, Init(cfg, callers, clock), run).hist.calls;
      var commands := Commands(r, cfg, Init(cfg, callers, clock), run);
      && (forall i, j :: 0 <= i < j < |calls| ==> calls[i].serial != calls[j].serial)
      && (forall i :: 0 <= i < |calls| ==>
           var c := calls[i];
           0 <= c.serial < |commands| && c.callback.Some? && c.callback == commands[c.serial].cb && c.userData == commands[c.serial].userData)
  {
    HistoryAgrees(r, cfg, callers, clock, run);
    InitIsSound(cfg, callers, clock);
    InitIsSerial(cfg, callers, clock);
    AlwaysSerial(r, cfg, Init(cfg, callers, clock), run);
    var t := Exec(r, cfg, Init(cfg, callers, clock), run);
    assert forall i :: 0 <= i < |t.hist.calls| ==> CallOk(t, t.hist.calls[i]);
  }

  /** The callback that the handler invokes is the one stored by the latest allocation of the frame's
      message id, and it is not NULL although the entry is read without the mutex. */
  lemma CallIsForLatest(cfg: Config, s: Node)
    requires Sound(cfg, s) && Serial(cfg, s) && s.work.Checked?
    ensures var c := HandlerCallStep(s).hist.calls[|s.hist.calls|]; var f := FrameAt(s.core, s.work.block);
      && c.callback.Some? && c.payload == f.payload
      && c.serial >= 0 && LatestOf(s.hist.allocs, f.msgId, c.serial)
      && c.callback == s.hist.allocs[c.serial].callback && c.userData == s.hist.allocs[c.serial].userData
  {
    assert EntryOk(s, WindowId(s));
  }
}
