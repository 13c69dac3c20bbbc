/** Left to themselves, the ICMP thread and the dispatch handler empty both queues and give every frame
    back, in as many loop iterations as the longer queue has frames, whatever fails on the way. */
module Drain {
  import opened Common
  import opened Wire
  import opened IcmpState
  import opened IcmpNode
  import opened IcmpRuns
  import opened Ownership
  import opened Leaks

  /** The work item up to the end of its callback, which sends nothing. */
  function RunToCallback(s: Node, locked: bool): Node {
    var s1 := if s.work.NotRunning? && s.core.workPending then HandlerCheckStep(s, locked) else s;
    if s1.work.Checked? then HandlerCallStep(s1) else s1
  }

  /** The rest of the work item, from the end of the callback on. */
  function FinishHandler(s: Node): Node {
    var s3 := if s.work.InCallback? then HandlerClearStep(s) else s;
    var s4 := if s3.work.Freeing? then HandlerFreeStep(s3) else s3;
    if s4.work.Giving? then HandlerGiveStep(s4) else s4
  }

  /** Where the handler stands when it has invoked its callback: `frame` is what it took from the context. */
  ghost predicate Reached(u: Node, frame: Option<Block>, responded: bool) {
    && u.core.ctxFrame == frame
    && match frame
       case None => u.work.Giving? && !responded
       case Some(b) => if responded then u.work == InCallback(b) && b in u.core.slab else u.work.Freeing?
  }

  /** The work item to its end. */
  function RunHandler(s: Node, locked: bool): Node { FinishHandler(RunToCallback(s, locked)) }

  function RunTx(s: Node, sent: bool): Node {
    var s1 := if s.thread.Top? then TxDequeueStep(s) else s;
    var s2 := if s1.thread.Stamping? then StampStep(s1) else s1;
    var s3 := if s2.thread.Sending? then PhySendStep(s2, sent) else s2;
    if s3.thread.Releasing? then TxFreeStep(s3) else s3
  }

  function RunRx(s: Node): Node {
    var s1 := if s.thread.Polling? then SemTakeStep(s) else s;
    var s2 := if s1.thread.RxPolling? then RxDequeueStep(s1) else s1;
    if s2.thread.Dispatching? then SubmitWorkStep(s2) else s2
  }

  /** A whole iteration from the top of the loop, or the rest of one, then the handler. */
  function Iteration(s: Node, sent: bool, locked: bool): Node { RunHandler(RunRx(RunTx(s, sent)), locked) }

  /** The rest of the iteration that the thread is in, if it is in one, and the work item that is pending. */
  function Settle(s: Node, sent: bool, locked: bool): Node {
    if s.thread.Top? then RunHandler(s, locked) else Iteration(s, sent, locked)
  }

  /** One iteration for each pair of outcomes: of the PHY's send and of the handler's lock. */
  function Iterations(s: Node, outcomes: seq<(bool, bool)>): Node
    decreases outcomes
  {
    if outcomes == [] then s else Iterations(Iteration(s, outcomes[0].0, outcomes[0].1), outcomes[1..])
  }

  predicate Internal(a: Action) { !CallerAction(a) && !a.Tick? }

  ghost predicate InternalRun(cfg: Config, s: Node, t: Node, run: seq<Action>) {
    Runs(FREE, cfg, s, run) && Exec(FREE, cfg, s, run) == t && forall i :: 0 <= i < |run| ==> Internal(run[i])
  }

  lemma Then(cfg: Config, s: Node, t: Node, run: seq<Action>, a: Action) returns (longer: seq<Action>)
    requires InternalRun(cfg, s, t, run) && Enabled(cfg, t, a) && Internal(a) && Sound(cfg, t)
    ensures InternalRun(cfg, s, Apply(cfg, t, a), longer) && Sound(cfg, Apply(cfg, t, a))
  {
    StepKeepsSound(cfg, t, a);
    OneStep(cfg, t, a);
    RunsAppend(FREE, cfg, s, run, [a]);
    longer := run + [a];
  }

  lemma OneStep(cfg: Config, t: Node, a: Action)
    requires Enabled(cfg, t, a) && Internal(a)
    ensures Runs(FREE, cfg, t, [a]) && Exec(FREE, cfg, t, [a]) == Apply(cfg, t, a)
  {
    assert [a][1..] == [];
    assert Runs(FREE, cfg, Apply(cfg, t, a), []);
  }

  lemma CallbackIsRun(cfg: Config, s: Node, t: Node, run: seq<Action>, locked: bool) returns (longer: seq<Action>)
    requires InternalRun(cfg, s, t, run) && Sound(cfg, t)
    ensures InternalRun(cfg, s, RunToCallback(t, locked), longer) && Sound(cfg, RunToCallback(t, locked))
  {
    longer := run;
    var u := t;
    if u.work.NotRunning? && u.core.workPending {
      longer := Then(cfg, s, u, longer, HandlerCheck(locked));
      u := HandlerCheckStep(u, locked);
    }
    if u.work.Checked? {
      longer := Then(cfg, s, u, longer, HandlerCall);
    }
  }

  lemma HandlerIsRun(cfg: Config, s: Node, t: Node, run: seq<Action>, locked: bool) returns (longer: seq<Action>)
    requires InternalRun(cfg, s, t, run) && Sound(cfg, t)
    ensures InternalRun(cfg, s, RunHandler(t, locked), longer) && Sound(cfg, RunHandler(t, locked))
  {
    longer := CallbackIsRun(cfg, s, t, run, locked);
    var u := RunToCallback(t, locked);
    if u.work.InCallback? {
      longer := Then(cfg, s, u, longer, HandlerClear);
      u := HandlerClearStep(u);
    }
    if u.work.Freeing? {
      longer := Then(cfg, s, u, longer, HandlerFree);
      u := HandlerFreeStep(u);
    }
    if u.work.Giving? {
      longer := Then(cfg, s, u, longer, HandlerGive);
    }
  }

  lemma TxIsRun(cfg: Config, s: Node, t: Node, run: seq<Action>, sent: bool) returns (longer: seq<Action>)
    requires InternalRun(cfg, s, t, run) && Sound(cfg, t) && t.clock > 0
    ensures InternalRun(cfg, s, RunTx(t, sent), longer) && Sound(cfg, RunTx(t, sent))
  {
    longer := run;
    var u := t;
    if u.thread.Top? {
      longer := Then(cfg, s, u, longer, TxDequeue);
      u := TxDequeueStep(u);
    }
    if u.thread.Stamping? {
      longer := Then(cfg, s, u, longer, Stamp);
      u := StampStep(u);
    }
    if u.thread.Sending? {
      longer := Then(cfg, s, u, longer, PhySend(sent));
      u := PhySendStep(u, sent);
    }
    if u.thread.Releasing? {
      longer := Then(cfg, s, u, longer, TxFree);
    }
  }

  lemma RxIsRun(cfg: Config, s: Node, t: Node, run: seq<Action>) returns (longer: seq<Action>)
    requires InternalRun(cfg, s, t, run) && Sound(cfg, t)
    ensures InternalRun(cfg, s, RunRx(t), longer) && Sound(cfg, RunRx(t))
  {
    longer := run;
    var u := t;
    if u.thread.Polling? {
      longer := Then(cfg, s, u, longer, SemTake);
      u := SemTakeStep(u);
    }
    if u.thread.RxPolling? {
      longer := Then(cfg, s, u, longer, RxDequeue);
      u := RxDequeueStep(u);
    }
    if u.thread.Dispatching? {
      longer := Then(cfg, s, u, longer, SubmitWork);
    }
  }

  // ---- what an iteration does to the queues -------------------------------------------------------

  function Less(n: nat): nat { if n == 0 then 0 else n - 1 }

  predicate Resting(s: Node) { s.thread.Top? && s.work.NotRunning? && !s.core.workPending }

  lemma HandlerEffect(s: Node, locked: bool)
    requires Singleton(s)
    ensures var t := RunHandler(s, locked);
      && t.work.NotRunning? && !t.core.workPending && t.thread == s.thread && t.callers == s.callers
      && t.core.tx == s.core.tx && t.core.rx == s.core.rx && t.clock == s.clock && t.hist.leaked == s.hist.leaked
  {
  }

  lemma TxEffect(s: Node, sent: bool)
    ensures var t := RunTx(s, sent);
      && t.callers == s.callers && t.core.rx == s.core.rx && t.clock == s.clock && t.hist.leaked == s.hist.leaked
      && t.work == s.work && t.core.workPending == s.core.workPending && t.core.sem == s.core.sem
      && (t.thread.Polling? || t.thread == s.thread) && !t.thread.Stamping? && !t.thread.Sending? && !t.thread.Releasing? && !t.thread.Top?
      && (if s.thread.Top? then |t.core.tx| == Less(|s.core.tx|) && t.thread.Polling? else t.core.tx == s.core.tx)
  {
    if s.thread.Top? {
      TxTopEffect(s, sent);
    }
  }

  lemma TxTopEffect(s: Node, sent: bool)
    requires s.thread.Top?
    ensures var t := RunTx(s, sent);
      && t.callers == s.callers && t.core.rx == s.core.rx && t.clock == s.clock && t.hist.leaked == s.hist.leaked
      && t.work == s.work && t.core.workPending == s.core.workPending && t.core.sem == s.core.sem
      && t.thread.Polling? && |t.core.tx| == Less(|s.core.tx|)
  {
  }

  lemma RxEffect(s: Node)
    requires !s.thread.Top? && !s.thread.Stamping? && !s.thread.Sending? && !s.thread.Releasing?
    ensures var t := RunRx(s);
      && t.thread.Top? && t.callers == s.callers && t.core.tx == s.core.tx && t.clock == s.clock && t.hist.leaked == s.hist.leaked
      && |t.core.rx| <= |s.core.rx|
      && (s.thread.Polling? && s.core.sem == 1 ==> |t.core.rx| == Less(|s.core.rx|))
  {
  }

  lemma IterationEffect(cfg: Config, s: Node, t: Node, run: seq<Action>, sent: bool, locked: bool) returns (longer: seq<Action>)
    requires InternalRun(cfg, s, t, run) && Sound(cfg, t) && t.clock > 0
    ensures var u := Iteration(t, sent, locked);
      && InternalRun(cfg, s, u, longer) && Sound(cfg, u)
      && Resting(u) && u.callers == t.callers && u.clock == t.clock && u.hist.leaked == t.hist.leaked
      && |u.core.tx| <= |t.core.tx| && |u.core.rx| <= |t.core.rx|
      && (Resting(t) ==> |u.core.tx| == Less(|t.core.tx|) && |u.core.rx| == Less(|t.core.rx|))
  {
    longer := TxIsRun(cfg, s, t, run, sent);
    TxEffect(t, sent);
    longer := RxIsRun(cfg, s, RunTx(t, sent), longer);
    RxEffect(RunTx(t, sent));
    longer := HandlerIsRun(cfg, s, RunRx(RunTx(t, sent)), longer, locked);
    HandlerEffect(RunRx(RunTx(t, sent)), locked);
  }

  lemma {:induction false} IterationsEmptyQueues(cfg: Config, s: Node, t: Node, run: seq<Action>, outcomes: seq<(bool, bool)>)
    returns (longer: seq<Action>)
    requires InternalRun(cfg, s, t, run) && Sound(cfg, t) && t.clock > 0 && Resting(t)
    requires |outcomes| >= |t.core.tx| && |outcomes| >= |t.core.rx|
    ensures var u := Iterations(t, outcomes);
      && InternalRun(cfg, s, u, longer) && Sound(cfg, u) && Resting(u) && u.callers == t.callers && u.hist.leaked == t.hist.leaked
      && u.core.tx == [] && u.core.rx == []
    decreases outcomes
  {
    longer := run;
    if outcomes != [] {
      longer := IterationEffect(cfg, s, t, run, outcomes[0].0, outcomes[0].1);
      longer := IterationsEmptyQueues(cfg, s, Iteration(t, outcomes[0].0, outcomes[0].1), longer, outcomes[1..]);
    }
  }

  lemma SettleEffect(cfg: Config, s: Node, sent: bool, locked: bool) returns (run: seq<Action>)
    requires Sound(cfg, s) && s.clock > 0
    ensures var u := Settle(s, sent, locked);
      && InternalRun(cfg, s, u, run) && Sound(cfg, u)
      && Resting(u) && u.callers == s.callers && u.clock == s.clock && u.hist.leaked == s.hist.leaked
      && |u.core.tx| <= |s.core.tx| && |u.core.rx| <= |s.core.rx|
      && (Resting(s) ==> u == s)
  {
    assert InternalRun(cfg, s, s, []);
    if s.thread.Top? {
      run := HandlerIsRun(cfg, s, s, [], locked);
      HandlerEffect(s, locked);
    } else {
      run := IterationEffect(cfg, s, s, [], sent, locked);
    }
  }

  /** From any state of any run: settling, and then as many iterations as the longer queue has frames, is a
      possible run without outside help; it ends with both queues empty, and only the frames in callers'
      hands and the leaked blocks are still in use. The outcomes of the sends and of the handler's locks are
      arbitrary. */
  lemma DrainsCompletely(r: Rules, cfg: Config, callers: nat, clock: nat, before: seq<Action>, first: (bool, bool), outcomes: seq<(bool, bool)>)
    returns (run: seq<Action>)
    requires Runs(r, cfg, Init(cfg, callers, clock), before)
    requires var s := Exec(r, cfg, Init(cfg, callers, clock), before);
      s.clock > 0 && |outcomes| >= |s.core.tx| && |outcomes| >= |s.core.rx|
    ensures var s := Exec(r, cfg, Init(cfg, callers, clock), before);
      var t := Iterations(Settle(s, first.0, first.1), outcomes);
      && InternalRun(cfg, s, t, run)
      && t.core.tx == [] && t.core.rx == [] && t.core.sem == 1 && t.callers == s.callers
      && |t.core.slab| == |HandList(s.callers)| + |s.hist.leaked|
      && (cfg.slabFrames <= QUEUE_MAX_ITEMS ==> |t.core.slab| == |HandList(s.callers)|)
  {
    var init := Init(cfg, callers, clock);
    var s := Exec(r, cfg, init, before);
    InitIsSound(cfg, callers, clock);
    AlwaysSound(r, cfg, init, before);
    if cfg.slabFrames <= QUEUE_MAX_ITEMS {
      SafeRunsLeakNothing(r, cfg, init, before);
    }
    run := SettleEffect(cfg, s, first.0, first.1);
    run := IterationsEmptyQueues(cfg, s, Settle(s, first.0, first.1), run, outcomes);
    UsedBlocks(cfg, Iterations(Settle(s, first.0, first.1), outcomes));
  }
}
