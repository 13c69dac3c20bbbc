/** What frame ownership gives: how many blocks are in use, that nothing is freed twice, that the work
    context is never overwritten, and for which slab sizes no enqueue can fail. */
module Leaks {
  import opened Common
  import opened Counting
  import opened Wire
  import opened IcmpState
  import opened IcmpNode
  import opened IcmpRuns
  import opened Ownership

  // ---- the number of blocks in use -------------------------------------------------------------

  function HandList(callers: seq<CallerPc>): seq<Block> {
    if callers == [] then [] else
    (match callers[0] case Holding(b) => [b] case Receiving(b) => [b] case _ => []) + HandList(callers[1..])
  }

  function ThreadList(pc: ThreadPc): seq<Block> {
    match pc
    case Stamping(b) => [b]
    case Sending(b) => [b]
    case Releasing(b) => [b]
    case Dispatching(b) => [b]
    case _ => []
  }

  function ContextList(s: Node): seq<Block> {
    if ContextHeld(s) && s.core.ctxFrame.Some? then [s.core.ctxFrame.value] else []
  }

  function AllPlaces(s: Node): seq<Block> {
    s.core.tx + (s.core.rx + (HandList(s.callers) + (ThreadList(s.thread) + (ContextList(s) + s.hist.leaked))))
  }

  lemma {:induction false} CountHands(callers: seq<CallerPc>, b: Block)
    ensures Count(HandList(callers), b) == InHands(callers, b)
  {
    if callers != [] {
      var own := match callers[0] case Holding(x) => [x] case Receiving(x) => [x] case _ => [];
      assert |own| == 1 ==> own[1..] == [];
      CountAppend(own, HandList(callers[1..]), b);
      CountHands(callers[1..], b);
    }
  }

  lemma CountPlaces(s: Node, b: Block)
    ensures Count(AllPlaces(s), b) == Places(s, b) + Count(s.hist.leaked, b)
  {
    var l5 := ContextList(s) + s.hist.leaked;
    var l4 := ThreadList(s.thread) + l5;
    var l3 := HandList(s.callers) + l4;
    var l2 := s.core.rx + l3;
    CountAppend(s.core.tx, l2, b);
    CountAppend(s.core.rx, l3, b);
    CountAppend(HandList(s.callers), l4, b);
    CountAppend(ThreadList(s.thread), l5, b);
    CountAppend(ContextList(s), s.hist.leaked, b);
    CountHands(s.callers, b);
    CountShort(ThreadList(s.thread), b);
    CountShort(ContextList(s), b);
  }

  lemma CountShort(q: seq<Block>, b: Block)
    requires |q| <= 1
    ensures Count(q, b) == OneIf(q == [b])
  {
    if |q| == 1 {
      assert q == [q[0]] && q[1..] == [];
    }
  }

  /** A sequence that lists each element of a set once, and nothing else, has the set's size. */
  lemma {:induction false} ExactCover(q: seq<Block>, keys: set<Block>)
    requires forall b: Block :: Count(q, b) == OneIf(b in keys)
    ensures |q| == |keys|
  {
    if q == [] {
      forall b: Block ensures b !in keys { assert Count(q, b) == 0; }
      assert keys == {};
    } else {
      assert Count(q, q[0]) == 1 + Count(q[1..], q[0]);
      forall b: Block ensures Count(q[1..], b) == OneIf(b in keys - {q[0]}) {
        assert Count(q, b) == OneIf(b in keys);
      }
      ExactCover(q[1..], keys - {q[0]});
    }
  }

  /** The blocks in use are as many as the queued frames, the frames in hand, the one in the work
      context and the leaked ones together. */
  lemma UsedBlocks(cfg: Config, s: Node)
    requires Sound(cfg, s)
    ensures |s.core.slab| == |s.core.tx| + |s.core.rx| + |HandList(s.callers)| + |ThreadList(s.thread)| + |ContextList(s)| + |s.hist.leaked|
  {
    forall b: Block ensures Count(AllPlaces(s), b) == OneIf(b in s.core.slab.Keys) {
      CountPlaces(s, b);
      assert OwnedOnce(s, b);
    }
    ExactCover(AllPlaces(s), s.core.slab.Keys);
    assert |s.core.slab| == |s.core.slab.Keys|;
  }

  lemma {:induction false} HandListed(callers: seq<CallerPc>, i: nat)
    requires i < |callers| && (callers[i].Holding? || callers[i].Receiving?)
    ensures |HandList(callers)| >= 1
  {
    if i > 0 {
      HandListed(callers[1..], i - 1);
    }
  }

  // ---- nothing is freed twice, and the context is never overwritten ------------------------------

  /** The block that a step gives back to the slab. */
  function Freed(s: Node, a: Action): Option<Block> {
    match a
    case TxFree => if s.thread.Releasing? then Some(s.thread.block) else None
    case HandlerFree => s.core.ctxFrame
    case UartFinish(i, None, _) => if i < |s.callers| && s.callers[i].Receiving? then Some(s.callers[i].block) else None
    case _ => None
  }

  /** A step that frees a block frees one that is allocated and held nowhere else; after it the block is
      in no place, so no later step can free it before it is allocated again. */
  lemma FreedOnce(cfg: Config, s: Node, a: Action, b: Block)
    requires Sound(cfg, s) && Enabled(cfg, s, a) && Freed(s, a) == Some(b)
    ensures b in s.core.slab && Places(s, b) == 1
    ensures Places(Apply(cfg, s, a), b) == 0 && b !in Apply(cfg, s, a).core.slab
  {
    assert OwnedOnce(s, b);
    if a.UartFinish? {
      InHandBound(s.callers, a.caller, b);
    }
    StepKeepsSound(cfg, s, a);
    assert OwnedOnce(Apply(cfg, s, a), b);
    FreedIsGone(cfg, s, a, b);
  }

  lemma FreedIsGone(cfg: Config, s: Node, a: Action, b: Block)
    requires Enabled(cfg, s, a) && Freed(s, a) == Some(b)
    ensures b !in Apply(cfg, s, a).core.slab
  {
  }

  /** When a frame is handed to the work context, the previous work item has finished: it is neither
      waiting nor running, so the context still in use is never overwritten. */
  lemma ContextNeverOverwritten(cfg: Config, s: Node)
    requires Sound(cfg, s) && Enabled(cfg, s, SubmitWork)
    ensures !s.core.workPending && s.work.NotRunning? && s.core.sem == 0
  {
  }

  /** The semaphore is taken exactly while the thread is between taking it and handing over, or one work
      item is waiting or running; and never two of these at once. */
  lemma SemaphoreMeaning(cfg: Config, s: Node)
    requires Sound(cfg, s)
    ensures s.core.sem == 0 <==> s.thread.RxPolling? || s.thread.Dispatching? || s.core.workPending || !s.work.NotRunning?
    ensures !(s.core.workPending && !s.work.NotRunning?)
    ensures s.thread.RxPolling? || s.thread.Dispatching? ==> !s.core.workPending && s.work.NotRunning?
  {
  }

  // ---- when an enqueue can fail --------------------------------------------------------------------

  lemma EnqueueFits(cfg: Config, s: Node, i: nat)
    requires Sound(cfg, s) && cfg.slabFrames <= QUEUE_MAX_ITEMS
    requires i < |s.callers| && (s.callers[i].Holding? || s.callers[i].Receiving?)
    ensures !TxFull(s.core) && !RxFull(s.core)
  {
    UsedBlocks(cfg, s);
    HandListed(s.callers, i);
  }

  lemma {:induction false} SafeRunsLeakNothing(r: Rules, cfg: Config, s: Node, run: seq<Action>)
    requires cfg.slabFrames <= QUEUE_MAX_ITEMS
    requires Sound(cfg, s) && s.hist.leaked == [] && Runs(r, cfg, s, run)
    ensures Exec(r, cfg, s, run).hist.leaked == []
    decreases run
  {
    if run != [] {
      var a := run[0];
      if a.Enqueue? || a.UartFinish? {
        EnqueueFits(cfg, s, a.caller);
      }
      StepLeaks(cfg, s, a);
      StepKeepsSound(cfg, s, a);
      SafeRunsLeakNothing(r, cfg, Apply(cfg, s, a), run[1..]);
    }
  }

  lemma StepLeaks(cfg: Config, s: Node, a: Action)
    requires Enabled(cfg, s, a)
    requires a.Enqueue? ==> !TxFull(s.core)
    requires a.UartFinish? ==> !RxFull(s.core)
    ensures Apply(cfg, s, a).hist.leaked == s.hist.leaked
  {
  }

  const PROBE := Frame(TYPE_NOTIFY, NOTIFY_MSG_ID, 0, [])

  function Notify(block: Block): seq<Action> { [RespondOrNotify(0, PROBE), TakeFrame(0, block), Enqueue(0)] }

  function Flood(n: nat): seq<Action> { if n == 0 then [] else Flood(n - 1) + Notify(n - 1) }

  function FirstBlocks(n: nat): seq<Block> { seq(n, i => i) }

  /** After `n` notifications and no step of the ICMP thread. */
  ghost predicate Flooded(cfg: Config, s: Node, n: nat) {
    && s.callers == [Idle] && s.core.tx == FirstBlocks(n) && |s.core.slab| == n
    && (forall b :: b in s.core.slab ==> b < n) && s.hist.leaked == []
    && s.core.inflight == {} && |s.core.table| == cfg.ids && s.hist.allocs == []
  }

  lemma NotifyRuns(cfg: Config, s: Node, n: nat)
    requires Flooded(cfg, s, n) && n < cfg.slabFrames
    ensures Runs(FREE, cfg, s, Notify(n))
    ensures n < QUEUE_MAX_ITEMS ==> Flooded(cfg, Exec(FREE, cfg, s, Notify(n)), n + 1)
    ensures n >= QUEUE_MAX_ITEMS ==> Exec(FREE, cfg, s, Notify(n)).hist.leaked == [n]
  {
    var run := Notify(n);
    var s1 := Apply(cfg, s, run[0]);
    assert s1.callers == [Building(PROBE, OtherTag(|s.hist.others|))];
    var s2 := Apply(cfg, s1, run[1]);
    assert s2.callers == [Holding(n)];
    SlabSizes(s.core.slab, n, PROBE);
    var s3 := Apply(cfg, s2, run[2]);
    assert s3.callers == [Idle];
    assert run[1..] == [run[1], run[2]] && run[1..][1..] == [run[2]] && run[1..][1..][1..] == [];
    assert Runs(FREE, cfg, s3, []);
    assert Runs(FREE, cfg, s2, [run[2]]) && Exec(FREE, cfg, s2, [run[2]]) == s3;
    assert Runs(FREE, cfg, s1, run[1..]) && Exec(FREE, cfg, s1, run[1..]) == s3;
    assert FirstBlocks(n + 1) == FirstBlocks(n) + [n];
  }

  lemma FloodedStart(cfg: Config, clock: nat)
    ensures Flooded(cfg, Init(cfg, 1, clock), 0)
  {
    assert Init(cfg, 1, clock).callers == [Idle] && FirstBlocks(0) == [];
  }

  lemma {:induction false} FloodRuns(cfg: Config, clock: nat, n: nat)
    requires n <= QUEUE_MAX_ITEMS && n <= cfg.slabFrames
    ensures Runs(FREE, cfg, Init(cfg, 1, clock), Flood(n))
    ensures Flooded(cfg, Exec(FREE, cfg, Init(cfg, 1, clock), Flood(n)), n)
  {
    var s := Init(cfg, 1, clock);
    if n == 0 {
      FloodedStart(cfg, clock);
    } else {
      FloodRuns(cfg, clock, n - 1);
      var mid := Exec(FREE, cfg, s, Flood(n - 1));
      NotifyRuns(cfg, mid, n - 1);
      RunsAppend(FREE, cfg, s, Flood(n - 1), Notify(n - 1));
    }
  }

  ghost predicate NeverLeaks(cfg: Config) {
    forall callers: nat, clock: nat, run: seq<Action> ::
      Runs(FREE, cfg, Init(cfg, callers, clock), run) ==> Exec(FREE, cfg, Init(cfg, callers, clock), run).hist.leaked == []
  }

  /** With any number of callers, no run loses a frame exactly when the slab is no larger than a queue. */
  lemma NeverLeaksIffSlabFitsQueue(cfg: Config)
    ensures NeverLeaks(cfg) <==> cfg.slabFrames <= 8
  {
    if cfg.slabFrames <= QUEUE_MAX_ITEMS {
      forall callers: nat, clock: nat, run: seq<Action> | Runs(FREE, cfg, Init(cfg, callers, clock), run)
        ensures Exec(FREE, cfg, Init(cfg, callers, clock), run).hist.leaked == []
      {
        InitIsSound(cfg, callers, clock);
        SafeRunsLeakNothing(FREE, cfg, Init(cfg, callers, clock), run);
      }
    } else {
      var s, n := Init(cfg, 1, 0), QUEUE_MAX_ITEMS;
      FloodRuns(cfg, 0, n);
      NotifyRuns(cfg, Exec(FREE, cfg, s, Flood(n)), n);
      RunsAppend(FREE, cfg, s, Flood(n), Notify(n));
      assert Exec(FREE, cfg, s, Flood(n) + Notify(n)).hist.leaked == [n];
    }
  }
}
