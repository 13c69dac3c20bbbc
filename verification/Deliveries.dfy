/** What becomes of a dispatched frame: exactly one of a response callback, the callback of its target, and
    nothing; and nothing only when the handler does not get the mutex or the target has no callback. */
module Deliveries {
  import opened Common
  import opened Counting
  import opened Wire
  import opened IcmpState
  import opened IcmpNode
  import opened IcmpRuns
  import opened Recorded
  import opened Ownership
  import opened Serials
  import opened Fifo
  import opened Bounds

  /** A delivery that fits the dispatched frame, the handler's luck with the mutex, and the callback that was
      registered for the frame's target when it was handed over. */
  predicate Fitting(it: Tagged, locked: bool, registered: Option<Callback>, d: Delivery) {
    match d
    case ToResponse(call) => locked && it.frame.kind == TYPE_RESPONSE && call.callback.Some? && call.payload == it.frame.payload
    case ToTarget(callback, payload) => locked && registered == Some(callback) && payload == it.frame.payload
    case Dropped => !locked || registered.None?
  }

  function ResponseCalls(ds: seq<Delivery>): seq<Call> {
    if ds == [] then [] else
    var n := |ds| - 1;
    ResponseCalls(ds[..n]) + (if ds[n].ToResponse? then [ds[n].call] else [])
  }

  lemma ResponseCallsAppend(ds: seq<Delivery>, d: Delivery)
    ensures ResponseCalls(ds + [d]) == ResponseCalls(ds) + (if d.ToResponse? then [d.call] else [])
  {
    assert (ds + [d])[..|ds|] == ds;
  }

  ghost predicate AllFitting(h: History) {
    && |h.deliveries| <= |h.rxOut| && |h.rxLocked| == |h.rxOut| && |h.rxOut| <= |h.handed|
    && forall k :: 0 <= k < |h.deliveries| ==> Fitting(h.rxOut[k], h.rxLocked[k], h.handed[k], h.deliveries[k])
  }

  ghost predicate Delivered(s: Node) {
    && AllFitting(s.hist) && s.hist.calls == ResponseCalls(s.hist.deliveries)
    && |s.hist.handed| == |s.hist.rxOut| + OneIf(s.core.workPending)
    && |s.hist.rxOut| == |s.hist.deliveries| + OneIf(s.work.Checked?)
    && (s.core.workPending ==> s.hist.handed[|s.hist.rxOut|] == s.core.ctxCb)
    && (s.work.Checked? ==> Chosen(s))
  }

  /** The frame that the handler has found a response callback for is the last one dispatched. */
  predicate Chosen(s: Node)
    requires s.work.Checked?
  {
    var n := |s.hist.deliveries|;
    n < |s.hist.rxOut| == |s.hist.rxLocked| && s.hist.rxLocked[n] && s.hist.rxOut[n] == At(s, s.work.block) && s.hist.rxOut[n].frame.kind == TYPE_RESPONSE
  }

  lemma CheckDelivers(cfg: Config, s: Node, locked: bool)
    requires Sound(cfg, s) && Delivered(s) && Enabled(cfg, s, HandlerCheck(locked))
    ensures Delivered(HandlerCheckStep(s, locked))
  {
    var n := HandlerCheckStep(s, locked);
    CheckRecords(s, locked);
    if !n.work.Checked? {
      ResponseCallsAppend(s.hist.deliveries, n.hist.deliveries[|s.hist.deliveries|]);
    }
  }

  lemma CheckRecords(s: Node, locked: bool)
    requires Singleton(s) && s.work.NotRunning? && s.core.workPending
    ensures var n, b := HandlerCheckStep(s, locked), s.core.ctxFrame.value;
      && n.hist.rxOut == s.hist.rxOut + [At(s, b)] && n.hist.rxLocked == s.hist.rxLocked + [locked]
      && n.hist.handed == s.hist.handed && n.hist.calls == s.hist.calls && !n.core.workPending
      && (if n.work.Checked?
          then n.work.block == b && n.hist.deliveries == s.hist.deliveries && locked && FrameAt(s.core, b).kind == TYPE_RESPONSE && At(n, b) == At(s, b)
          else |n.hist.deliveries| == |s.hist.deliveries| + 1 && n.hist.deliveries[..|s.hist.deliveries|] == s.hist.deliveries
               && !n.hist.deliveries[|s.hist.deliveries|].ToResponse? && Fitting(At(s, b), locked, s.core.ctxCb, n.hist.deliveries[|s.hist.deliveries|]))
  {
  }

  lemma CallDelivers(cfg: Config, s: Node)
    requires Sound(cfg, s) && Serial(cfg, s) && Delivered(s) && s.work.Checked?
    ensures Delivered(HandlerCallStep(s))
  {
    var n := HandlerCallStep(s);
    ResponseCallsAppend(s.hist.deliveries, n.hist.deliveries[|s.hist.deliveries|]);
  }

  lemma SubmitDelivers(cfg: Config, s: Node)
    requires Sound(cfg, s) && Delivered(s) && s.thread.Dispatching?
    ensures Delivered(SubmitWorkStep(s))
  {
  }

  lemma CallersKeepDeliveries(cfg: Config, s: Node, a: Action)
    requires Enabled(cfg, s, a) && CallerAction(a)
    ensures SameDeliveries(s, Apply(cfg, s, a))
  {
  }

  lemma OthersKeepDeliveries(cfg: Config, s: Node, a: Action)
    requires Enabled(cfg, s, a) && !CallerAction(a) && !a.HandlerCheck? && !a.HandlerCall? && !a.SubmitWork?
    ensures SameDeliveries(s, Apply(cfg, s, a))
  {
  }

  predicate SameDeliveries(s: Node, t: Node) {
    && t.hist.deliveries == s.hist.deliveries && t.hist.calls == s.hist.calls && t.hist.handed == s.hist.handed
    && t.hist.rxOut == s.hist.rxOut && t.hist.rxLocked == s.hist.rxLocked
    && t.core.workPending == s.core.workPending && t.core.ctxCb == s.core.ctxCb
    && t.work.Checked? == s.work.Checked? && (s.work.Checked? ==> t.work == s.work)
  }

  lemma StepKeepsDelivered(cfg: Config, s: Node, a: Action)
    requires Sound(cfg, s) && Serial(cfg, s) && Delivered(s) && Enabled(cfg, s, a)
    ensures Delivered(Apply(cfg, s, a))
  {
    if a.HandlerCheck? {
      CheckDelivers(cfg, s, a.locked);
    } else if a.HandlerCall? {
      CallDelivers(cfg, s);
    } else if a.SubmitWork? {
      SubmitDelivers(cfg, s);
    } else {
      if CallerAction(a) {
        CallersKeepDeliveries(cfg, s, a);
      } else {
        OthersKeepDeliveries(cfg, s, a);
      }
      if s.work.Checked? {
        ContextUntouched(cfg, s, a);
      }
    }
  }

  lemma {:induction false} AlwaysDelivered(r: Rules, cfg: Config, s: Node, run: seq<Action>)
    requires Sound(cfg, s) && Serial(cfg, s) && Delivered(s) && Runs(r, cfg, s, run)
    ensures Delivered(Exec(r, cfg, s, run))
    decreases run
  {
    if run != [] {
      StepKeepsDelivered(cfg, s, run[0]);
      StepKeepsSound(cfg, s, run[0]);
      StepKeepsSerial(cfg, s, run[0]);
      AlwaysDelivered(r, cfg, Apply(cfg, s, run[0]), run[1..]);
    }
  }

  lemma DeliveredFromStart(r: Rules, cfg: Config, callers: nat, clock: nat, run: seq<Action>)
    requires Runs(r, cfg, Init(cfg, callers, clock), run)
    ensures Delivered(Exec(r, cfg, Init(cfg, callers, clock), run))
  {
    InitIsSound(cfg, callers, clock);
    InitIsSerial(cfg, callers, clock);
    AlwaysDelivered(r, cfg, Init(cfg, callers, clock), run);
  }

  /** The frame that the thread is about to hand over is the arrival whose turn it is. */
  lemma HandOverTurn(r: Rules, cfg: Config, callers: nat, clock: nat, run: seq<Action>)
    requires Runs(r, cfg, Init(cfg, callers, clock), run)
    requires Exec(r, cfg, Init(cfg, callers, clock), run).thread.Dispatching?
    ensures var t := Exec(r, cfg, Init(cfg, callers, clock), run);
      var arrivals := Arrivals(r, cfg, Init(cfg, callers, clock), run);
      && |t.hist.handed| < |arrivals| && arrivals[|t.hist.handed|] == At(t, t.thread.block)
      && FrameAt(t.core, t.thread.block).target < cfg.targets
  {
    var init := Init(cfg, callers, clock);
    var t := Exec(r, cfg, init, run);
    InitIsSound(cfg, callers, clock);
    AlwaysBounded(r, cfg, init, run);
    FirstInFirstOut(r, cfg, callers, clock, run);
    DeliveredFromStart(r, cfg, callers, clock, run);
    HistoryAgrees(r, cfg, callers, clock, run);
    assert Undispatched(t)[0] == t.thread.block;
    assert Items(t, Undispatched(t))[0] == At(t, t.thread.block);
  }

  /** In every run, the callback that is handed over with a frame is the one last registered for its target. */
  lemma {:induction false} HandOversAgree(r: Rules, cfg: Config, callers: nat, clock: nat, run: seq<Action>)
    requires Runs(r, cfg, Init(cfg, callers, clock), run)
    ensures Exec(r, cfg, Init(cfg, callers, clock), run).hist.handed == HandOvers(r, cfg, Init(cfg, callers, clock), run)
    decreases |run|
  {
    var init := Init(cfg, callers, clock);
    if run == [] {
      assert Exec(r, cfg, init, run) == init;
    } else {
      var n, a := |run| - 1, run[|run| - 1];
      LastStep(r, cfg, init, run);
      HandOversAgree(r, cfg, callers, clock, run[..n]);
      var s := Exec(r, cfg, init, run[..n]);
      if a.SubmitWork? {
        HandOverTurn(r, cfg, callers, clock, run[..n]);
        HistoryAgrees(r, cfg, callers, clock, run[..n]);
        ThreadRecords(cfg, s, a);
      } else {
        HandedKept(cfg, s, a);
      }
    }
  }

  lemma HandedKept(cfg: Config, s: Node, a: Action)
    requires Enabled(cfg, s, a) && !a.SubmitWork?
    ensures Apply(cfg, s, a).hist.handed == s.hist.handed
  {
    if CallerAction(a) {
      CallersKeepDeliveries(cfg, s, a);
    }
  }

  /** In every run, each arrived frame whose handler has run, but for one whose response callback is about to be
      invoked, has had exactly one delivery, and it fits: the frame's own payload, to a response callback or to
      the callback last registered for its target before the hand-over, or to nobody. The response callbacks
      invoked are those of these deliveries and no others. */
  lemma EachDispatchDeliversOnce(r: Rules, cfg: Config, callers: nat, clock: nat, run: seq<Action>)
    requires Runs(r, cfg, Init(cfg, callers, clock), run)
    ensures var init := Init(cfg, callers, clock);
      var t, arrivals, locks, registered := Exec(r, cfg, init, run), Arrivals(r, cfg, init, run), Locks(r, cfg, init, run), HandOvers(r, cfg, init, run);
      && |t.hist.deliveries| + OneIf(t.work.Checked?) == |locks| <= |registered| <= |arrivals|
      && (forall k :: 0 <= k < |t.hist.deliveries| ==> Fitting(arrivals[k], locks[k], registered[k], t.hist.deliveries[k]))
      && t.hist.calls == ResponseCalls(t.hist.deliveries)
  {
    var init := Init(cfg, callers, clock);
    var t := Exec(r, cfg, init, run);
    DeliveredFromStart(r, cfg, callers, clock, run);
    FirstInFirstOut(r, cfg, callers, clock, run);
    HistoryAgrees(r, cfg, callers, clock, run);
    HandOversAgree(r, cfg, callers, clock, run);
    HandOversFollow(r, cfg, init, run);
    assert forall k :: 0 <= k < |t.hist.rxOut| ==> t.hist.rxOut[k] == t.hist.rxIn[k];
  }

  lemma {:induction false} HandOversFollow(r: Rules, cfg: Config, s: Node, run: seq<Action>)
    requires Runs(r, cfg, s, run)
    ensures |HandOvers(r, cfg, s, run)| <= |Arrivals(r, cfg, s, run)|
    decreases |run|
  {
    if run != [] {
      LastStep(r, cfg, s, run);
      HandOversFollow(r, cfg, s, run[..|run| - 1]);
    }
  }
}
