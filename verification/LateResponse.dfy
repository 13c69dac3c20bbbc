/**
 Why responses have to be dispatched before their command is aged out: otherwise the id may already belong
 to another command, and it is that command's callback that runs.
 */
module LateResponse {
  import opened Common
  import opened Wire
  import opened IcmpState
  import opened IcmpNode
  import opened IcmpRuns
  import opened Matching

  const CFG: Config := Settings(8, 8, 64, 5, 1000)

  /** A peer that answers each command once, and sends that succeed, but no limit on the delay. */
  const PATIENT := Rules(true, false, true, false, None)

  const FIRST: Callback := 1
  const SECOND: Callback := 2

  const ANSWER := Frame(TYPE_RESPONSE, 0, 0, [])

  function Start(): Node { Init(CFG, 2, 1) }

  ghost predicate Reaches(run: seq<Action>, t: Node) { Runs(PATIENT, CFG, Start(), run) && Exec(PATIENT, CFG, Start(), run) == t }

  lemma Then(run: seq<Action>, t: Node, a: Action) returns (longer: seq<Action>)
    requires Reaches(run, t) && Enabled(CFG, t, a) && Obeys(PATIENT, CFG, t, a)
    ensures Reaches(longer, Apply(CFG, t, a))
  {
    assert [a][1..] == [];
    assert Runs(PATIENT, CFG, Apply(CFG, t, a), []);
    RunsAppend(PATIENT, CFG, Start(), run, [a]);
    longer := run + [a];
  }

  /** The node at rest, apart from the bookkeeping, with nothing received yet. */
  ghost predicate Quiet(s: Node) {
    && s.core.tx == [] && s.core.rx == [] && s.core.slab == map[] && s.core.sem == 1 && |s.core.table| == 8 && |s.core.targets| == 5
    && s.work.NotRunning? && !s.core.workPending && s.core.ctxFrame.None?
    && s.hist.answered == {} && s.hist.calls == [] && s.hist.rxOut == [] && s.hist.rxLocked == []
  }

  /** The first command has been sent, under id 0. */
  ghost predicate FirstSent(s: Node) {
    && Quiet(s) && s.callers == [Idle, Idle] && s.thread == Polling && s.clock == 1
    && s.core.inflight == {0} && s.core.table[0] == Entry(1, Some(FIRST), 7)
    && s.hist.allocs == [Alloc(0, Some(FIRST), 7, 0, [])] && s.hist.wire == {0} && s.hist.expired == {} && OwnerOf(s, 0) == 0
  }

  /** The id has been aged out and given to the second command. */
  ghost predicate IdReused(s: Node) {
    && Quiet(s) && |s.callers| == 2 && s.callers[1] == Idle && s.thread == Top
    && s.core.inflight == {0} && s.core.table[0] == Entry(SEND_PENDING, Some(SECOND), 8)
    && s.hist.allocs == [Alloc(0, Some(FIRST), 7, 0, []), Alloc(0, Some(SECOND), 8, 0, [])] && s.hist.wire == {0} && s.hist.expired == {0} && OwnerOf(s, 0) == 1
  }

  /** The response to the first command waits in the receive queue. */
  ghost predicate LateArrived(s: Node) {
    && s.core.rx == [0] && s.core.tx == [] && At(s, 0) == Tagged(0, ANSWER) && s.core.sem == 1 && |s.core.table| == 8
    && s.thread == Top && s.work.NotRunning? && !s.core.workPending
    && s.core.inflight == {0} && s.core.table[0].callback == Some(SECOND) && s.core.table[0].userData == 8
    && s.hist.allocs == [Alloc(0, Some(FIRST), 7, 0, []), Alloc(0, Some(SECOND), 8, 0, [])] && OwnerOf(s, 0) == 1
    && s.hist.wire == {0} && s.hist.expired == {0} && s.hist.calls == [] && s.hist.rxOut == [] && s.hist.rxLocked == []
  }

  lemma Queued() returns (run: seq<Action>, t: Node)
    ensures Reaches(run, t) && Quiet(t.(core := t.core.(tx := [], slab := map[])))
    ensures t.callers == [Idle, Idle] && t.thread == Top && t.clock == 1 && t.core.inflight == {0}
    ensures t.core.table[0] == Entry(SEND_PENDING, Some(FIRST), 7) && t.hist.allocs == [Alloc(0, Some(FIRST), 7, 0, [])] && t.hist.wire == {}
    ensures t.hist.expired == {} && OwnerOf(t, 0) == 0
    ensures t.core.tx == [0] && t.core.slab == map[0 := Frame(TYPE_COMMAND, 0, 0, [])] && TagOf(t, 0) == 0
  {
    t := Start();
    assert Reaches([], t);
    assert LeastFree({}, 8) == Some(0);
    run := Then([], t, Command(0, true, 0, [], Some(FIRST), 7));
    t := Apply(CFG, t, Command(0, true, 0, [], Some(FIRST), 7));
    run := Then(run, t, TakeFrame(0, 0));
    t := Apply(CFG, t, TakeFrame(0, 0));
    run := Then(run, t, Enqueue(0));
    t := Apply(CFG, t, Enqueue(0));
  }

  lemma SendFirst() returns (run: seq<Action>, t: Node)
    ensures Reaches(run, t) && FirstSent(t)
  {
    run, t := Queued();
    run := Then(run, t, TxDequeue);
    t := Apply(CFG, t, TxDequeue);
    run := Then(run, t, Stamp);
    t := Apply(CFG, t, Stamp);
    run := Then(run, t, PhySend(true));
    t := Apply(CFG, t, PhySend(true));
    run := Then(run, t, TxFree);
    t := Apply(CFG, t, TxFree);
  }

  /** The first command has been aged out, unanswered. */
  ghost predicate FirstExpired(s: Node) {
    && Quiet(s) && s.callers == [Idle, Idle] && s.thread == Polling && s.core.inflight == {}
    && s.hist.allocs == [Alloc(0, Some(FIRST), 7, 0, [])] && s.hist.wire == {0} && s.hist.expired == {0}
  }

  lemma ExpireFirst() returns (run: seq<Action>, t: Node)
    ensures Reaches(run, t) && FirstExpired(t)
  {
    run, t := SendFirst();
    run := Then(run, t, Tick(1001));
    t := Apply(CFG, t, Tick(1001));
    assert ExpiredIds(t.core, t.clock, CFG.maxAge) == {0};
    run := Then(run, t, Timeout(true));
    t := Apply(CFG, t, Timeout(true));
  }

  lemma ReuseId() returns (run: seq<Action>, t: Node)
    ensures Reaches(run, t) && IdReused(t)
  {
    run, t := ExpireFirst();
    run := Then(run, t, SemTake);
    t := Apply(CFG, t, SemTake);
    run := Then(run, t, RxDequeue);
    t := Apply(CFG, t, RxDequeue);
    assert LeastFree({}, 8) == Some(0);
    run := Then(run, t, Command(0, true, 0, [], Some(SECOND), 8));
    t := Apply(CFG, t, Command(0, true, 0, [], Some(SECOND), 8));
  }

  lemma ReceiveLate() returns (run: seq<Action>, t: Node)
    ensures Reaches(run, t) && LateArrived(t)
  {
    run, t := ReuseId();
    run := Then(run, t, UartTakeFrame(1, 0));
    t := Apply(CFG, t, UartTakeFrame(1, 0));
    run := Then(run, t, UartFinish(1, Some(ANSWER), 0));
    t := Apply(CFG, t, UartFinish(1, Some(ANSWER), 0));
  }

  lemma HandOver() returns (run: seq<Action>, t: Node)
    ensures Reaches(run, t) && LateArrived(t.(core := t.core.(rx := [0], sem := 1, workPending := false)))
    ensures t.core.workPending && t.core.ctxFrame == Some(0)
  {
    run, t := ReceiveLate();
    run := Then(run, t, TxDequeue);
    t := Apply(CFG, t, TxDequeue);
    run := Then(run, t, SemTake);
    t := Apply(CFG, t, SemTake);
    run := Then(run, t, RxDequeue);
    t := Apply(CFG, t, RxDequeue);
    run := Then(run, t, SubmitWork);
    t := Apply(CFG, t, SubmitWork);
  }

  /** The handler has found the second command's entry, and has not called back yet. */
  ghost predicate LateChecked(s: Node) {
    && s.work == Checked(0) && At(s, 0) == Tagged(0, ANSWER) && |s.core.table| == 8
    && s.core.table[0].callback == Some(SECOND) && s.core.table[0].userData == 8 && OwnerOf(s, 0) == 1
    && s.hist.allocs == [Alloc(0, Some(FIRST), 7, 0, []), Alloc(0, Some(SECOND), 8, 0, [])]
    && s.hist.wire == {0} && s.hist.expired == {0} && s.hist.calls == []
    && s.hist.rxOut == [] + [Tagged(0, ANSWER)] && s.hist.rxLocked == [] + [true]
  }

  lemma FindSecond() returns (run: seq<Action>, t: Node)
    ensures Reaches(run, t) && LateChecked(t)
  {
    run, t := HandOver();
    run := Then(run, t, HandlerCheck(true));
    t := Apply(CFG, t, HandlerCheck(true));
  }

  /** With the response dispatched after its command was aged out, a peer that answers each command once and
      sends that succeed are not enough: the response to the first command invokes the callback of the
      second, which has not even been sent. */
  lemma LateResponseReachesWrongCallback() returns (run: seq<Action>)
    ensures Runs(PATIENT, CFG, Start(), run)
    ensures var h := Exec(PATIENT, CFG, Start(), run).hist;
      && h.calls == [Call(1, Some(SECOND), 8, [])] && h.wire == {0} && h.expired == {0}
      && |h.rxOut| == |h.rxLocked| && Expected(h.allocs, h.rxOut, h.rxLocked) == [Call(0, Some(FIRST), 7, [])]
  {
    var t;
    run, t := FindSecond();
    run := Then(run, t, HandlerCall);
    t := Apply(CFG, t, HandlerCall);
    ExpectedAppend(t.hist.allocs, [], [], Tagged(0, ANSWER), true);
  }
}
