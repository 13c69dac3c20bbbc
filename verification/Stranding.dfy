/**
 What icmp_command leaves behind when icmp_send_frame fails: the bitmap and table entry are not undone.
 Since only sent entries are aged out, the id is then out of use for good.
 */
module Stranding {
  import opened Common
  import opened Counting
  import opened Wire
  import opened IcmpState
  import opened IcmpNode
  import opened IcmpRuns
  import opened Ownership
  import opened Leaks
  import opened Serials
  import opened Fifo
  import opened Pending
  import opened Matching
  import opened Sending

  /** No frame on the way to the PHY has the id `m` or belongs to the command `g`. */
  ghost predicate NoFrameOf(s: Node, m: nat, g: int) {
    forall k: nat, t: int :: k == m || t == g ==> Unstamped(s, k, t) == 0
  }

  /** The id is taken and marked as pending, and nothing is under way that could be stamped or answered. */
  ghost predicate Stranded(s: Node, m: nat, g: int) {
    && IsPending(s, m) && OwnerOf(s, m) == g && 0 <= g < |s.hist.allocs| && s.hist.allocs[g].msgId == m
    && NoFrameOf(s, m, g)
    && g !in s.hist.wire && !SendingCommand(s, g)
  }

  predicate SendingCommand(s: Node, g: int) {
    s.thread.Sending? && FrameAt(s.core, s.thread.block).kind == TYPE_COMMAND && TagOf(s, s.thread.block) == g
  }

  /** A frame that a failing send drops was the only one of its command, and its entry is pending. */
  lemma DroppedIsPending(cfg: Config, s: Node, i: nat)
    requires Paced(cfg, s) && i < |s.callers| && CallerItem(s, s.callers[i]).frame.kind == TYPE_COMMAND
    ensures var it := CallerItem(s, s.callers[i]);
      && IsPending(s, it.frame.msgId) && OwnerOf(s, it.frame.msgId) == it.tag
      && 0 <= it.tag < |s.hist.allocs| && s.hist.allocs[it.tag].msgId == it.frame.msgId && it.tag !in s.hist.stamped
  {
    var it := CallerItem(s, s.callers[i]);
    var m := it.frame.msgId;
    assert CallerItems(s)[i] == it;
    CountBounds(CallerItems(s), i, m, it.tag);
    assert PendingOnce(s, m, it.tag);
    assert StampKnown(s, m) && EntryOk(s, m);
    assert LatestOf(s.hist.allocs, m, s.hist.owner[m]);
  }

  /** Nobody else has a frame of that id or of that command. */
  lemma DroppedIsOnly(cfg: Config, s: Node, i: nat, k: nat, t: int)
    requires Paced(cfg, s) && i < |s.callers| && CallerItem(s, s.callers[i]).frame.kind == TYPE_COMMAND
    requires k == CallerItem(s, s.callers[i]).frame.msgId || t == CallerItem(s, s.callers[i]).tag
    ensures Unstamped(s, k, t) == OneIf(IsCommand(CallerItem(s, s.callers[i]), k, t))
  {
    var it := CallerItem(s, s.callers[i]);
    DroppedIsPending(cfg, s, i);
    assert PendingOnce(s, k, t);
    if k in s.core.inflight {
      assert EntryOk(s, k) && LatestOf(s.hist.allocs, k, s.hist.owner[k]);
    }
    if IsCommand(it, k, t) {
      assert CallerItems(s)[i] == it;
      CountBounds(CallerItems(s), i, k, t);
    }
  }

  lemma FailureKeeps(cfg: Config, s: Node, a: Action)
    requires Enabled(cfg, s, a) && SendFails(cfg, s, a)
    ensures var n := Apply(cfg, s, a);
      && n.core == s.core && n.thread == s.thread && n.hist.(leaked := s.hist.leaked) == s.hist
      && CallerItem(n, n.callers[a.caller]) == NOTHING && CallerItem(s, s.callers[a.caller]).frame.kind == TYPE_COMMAND
  {
  }

  /** A command that got an id but no block, or a block but no place in the queue, strands the id. */
  lemma FailedSendStrands(cfg: Config, s: Node, a: Action)
    requires Paced(cfg, s) && Enabled(cfg, s, a) && SendFails(cfg, s, a)
    ensures var it := CallerItem(s, s.callers[a.caller]); Stranded(Apply(cfg, s, a), it.frame.msgId, it.tag)
  {
    var n, it := Apply(cfg, s, a), CallerItem(s, s.callers[a.caller]);
    FailureKeeps(cfg, s, a);
    DroppedIsPending(cfg, s, a.caller);
    TxItemsKept(cfg, s, a);
    forall k: nat, t: int | k == it.frame.msgId || t == it.tag ensures Unstamped(n, k, t) == 0 {
      DroppedIsOnly(cfg, s, a.caller, k, t);
      CallerCounts(cfg, s, a, k, t);
    }
  }

  lemma CallerKeepsNoFrame(cfg: Config, s: Node, a: Action, m: nat, g: int)
    requires Sound(cfg, s) && Stranded(s, m, g) && Enabled(cfg, s, a) && CallerAction(a)
    ensures NoFrameOf(Apply(cfg, s, a), m, g)
  {
    var n := Apply(cfg, s, a);
    forall k: nat, t: int | k == m || t == g ensures Unstamped(n, k, t) == 0 {
      assert Unstamped(s, k, t) == 0;
      CallerCounts(cfg, s, a, k, t);
      TxItemsKept(cfg, s, a);
      if IsCommand(CallerItem(s, s.callers[a.caller]), k, t) {
        assert CallerItems(s)[a.caller] == CallerItem(s, s.callers[a.caller]);
        CountBounds(CallerItems(s), a.caller, k, t);
      }
      if a.Enqueue? {
        EnqueueAppends(cfg, s, a);
        var it := At(s, s.callers[a.caller].block);
        CountAppendItems(Items(s, s.core.tx), [it], k, t);
        CountOne(it, k, t);
      } else {
        CallerKeepsThread(cfg, s, a);
        NoNewCommand(cfg, s, a, m, g, k, t);
      }
    }
  }

  lemma NoNewCommand(cfg: Config, s: Node, a: Action, m: nat, g: int, k: nat, t: int)
    requires Enabled(cfg, s, a) && CallerAction(a) && !a.Enqueue?
    requires m in s.core.inflight && g < |s.hist.allocs| && (k == m || t == g)
    requires !IsCommand(CallerItem(s, s.callers[a.caller]), k, t)
    ensures !IsCommand(CallerItem(Apply(cfg, s, a), Apply(cfg, s, a).callers[a.caller]), k, t)
  {
  }

  lemma OtherKeepsNoFrame(cfg: Config, s: Node, a: Action, m: nat, g: int)
    requires Sound(cfg, s) && Stranded(s, m, g) && Enabled(cfg, s, a) && !CallerAction(a)
    ensures NoFrameOf(Apply(cfg, s, a), m, g)
  {
    var n := Apply(cfg, s, a);
    CallerItemsKept(cfg, s, a);
    TxItemsKept(cfg, s, a);
    forall k: nat, t: int | k == m || t == g ensures Unstamped(n, k, t) == 0 {
      assert Unstamped(s, k, t) == 0;
      if a.TxDequeue? && s.core.tx != [] {
        var b := s.core.tx[0];
        assert Items(s, s.core.tx)[0] == At(s, b);
        assert Items(s, s.core.tx)[1..] == Items(n, n.core.tx);
        assert Items(n, BeingStamped(n.thread)) == [At(s, b)];
        CountOne(At(s, b), k, t);
      } else if !a.Stamp? && !a.TxDequeue? {
        SendSideKept(cfg, s, a);
      }
    }
  }

  lemma NotStamped(s: Node, m: nat, g: int)
    requires Stranded(s, m, g) && s.thread.Stamping?
    ensures !(FrameAt(s.core, s.thread.block).kind == TYPE_COMMAND && (FrameAt(s.core, s.thread.block).msgId == m || TagOf(s, s.thread.block) == g))
  {
    var it := At(s, s.thread.block);
    assert Items(s, BeingStamped(s.thread)) == [it];
    CountOne(it, it.frame.msgId, it.tag);
    assert it.frame.kind == TYPE_COMMAND && (it.frame.msgId == m || it.tag == g) ==> Unstamped(s, it.frame.msgId, it.tag) == 0;
  }

  /** The entry itself: only the clear after its own callback could change it. */
  lemma StrandedEntryKept(cfg: Config, s: Node, a: Action, m: nat, g: int)
    requires Sound(cfg, s) && Serial(cfg, s) && Stranded(s, m, g) && Enabled(cfg, s, a)
    requires a.HandlerClear? ==> WindowId(s) != m
    ensures var n := Apply(cfg, s, a); IsPending(n, m) && OwnerOf(n, m) == g && s.hist.allocs <= n.hist.allocs
  {
    if a.Stamp? {
      NotStamped(s, m, g);
    } else if !ChangesIds(a) {
      OtherStepsKeepIds(cfg, s, a);
      TableKept(cfg, s, a);
    }
  }

  lemma StrandedNotSent(cfg: Config, s: Node, a: Action, m: nat, g: int)
    requires Sound(cfg, s) && Stranded(s, m, g) && Enabled(cfg, s, a)
    ensures var n := Apply(cfg, s, a); g !in n.hist.wire && !SendingCommand(n, g)
  {
    if a.Stamp? {
      NotStamped(s, m, g);
    } else if a.PhySend? {
    } else {
      if s.thread.Sending? {
        WaitingUntouched(cfg, s, a, s.thread.block);
      }
      NoSending(cfg, s, a);
    }
  }

  lemma NoSending(cfg: Config, s: Node, a: Action)
    requires Enabled(cfg, s, a) && !a.Stamp? && !a.PhySend?
    ensures var n := Apply(cfg, s, a); n.hist.wire == s.hist.wire && (n.thread.Sending? ==> n.thread == s.thread)
  {
    if CallerAction(a) {
      CallerKeepsThread(cfg, s, a);
    }
  }

  lemma StrandedStep(cfg: Config, s: Node, a: Action, m: nat, g: int)
    requires Sound(cfg, s) && Serial(cfg, s) && Stranded(s, m, g) && Enabled(cfg, s, a)
    requires a.HandlerClear? ==> WindowId(s) != m
    ensures Stranded(Apply(cfg, s, a), m, g)
  {
    StrandedEntryKept(cfg, s, a, m, g);
    StrandedNotSent(cfg, s, a, m, g);
    if CallerAction(a) {
      CallerKeepsNoFrame(cfg, s, a, m, g);
    } else {
      OtherKeepsNoFrame(cfg, s, a, m, g);
    }
  }

  lemma AnsweredWasSent(cfg: Config, s: Node)
    requires Good(cfg, s) && InWindow(s)
    ensures OwnerOf(s, WindowId(s)) in s.hist.wire
  {
    assert Items(s, Unsettled(s))[0] == At(s, s.work.block);
    assert AnswerOk(s.hist, At(s, s.work.block));
  }

  /** With a well-behaved peer the id stays taken, however often the timeout handler runs and whatever else
      is sent, received or allocated: it is never aged out, never answered and never given out again. */
  lemma {:induction false} StrandedForever(r: Rules, cfg: Config, s: Node, run: seq<Action>, m: nat, g: int)
    requires Good(cfg, s) && Stranded(s, m, g) && r.peer && r.onTime && Runs(r, cfg, s, run)
    ensures Stranded(Exec(r, cfg, s, run), m, g)
    decreases run
  {
    if run != [] {
      var a := run[0];
      if a.HandlerClear? {
        AnsweredWasSent(cfg, s);
      }
      StrandedStep(cfg, s, a, m, g);
      StepKeepsGood(r, cfg, s, a);
      StrandedForever(r, cfg, Apply(cfg, s, a), run[1..], m, g);
    }
  }

  /** Over whole runs: at any point of any run with such a peer, whatever became of earlier sends, a send that
      fails, for want of a block or of a place in the queue, puts its id out of use for the rest of the run. */
  lemma FailedSendStrandsForever(r: Rules, cfg: Config, callers: nat, clock: nat, before: seq<Action>, a: Action, after: seq<Action>)
    requires r.peer && r.onTime && Runs(r, cfg, Init(cfg, callers, clock), before)
    requires var s := Exec(r, cfg, Init(cfg, callers, clock), before);
      Enabled(cfg, s, a) && SendFails(cfg, s, a) && Runs(r, cfg, Apply(cfg, s, a), after)
    ensures var s := Exec(r, cfg, Init(cfg, callers, clock), before); var it := CallerItem(s, s.callers[a.caller]);
      Stranded(Exec(r, cfg, Apply(cfg, s, a), after), it.frame.msgId, it.tag)
  {
    var init := Init(cfg, callers, clock);
    var s := Exec(r, cfg, init, before);
    InitIsGood(cfg, callers, clock);
    AlwaysGood(r, cfg, init, before);
    PacedFromStart(r, cfg, callers, clock, before);
    FailedSendStrands(cfg, s, a);
    StepKeepsGood(r.(sendsSucceed := false), cfg, s, a);
    var it := CallerItem(s, s.callers[a.caller]);
    StrandedForever(r, cfg, Apply(cfg, s, a), after, it.frame.msgId, it.tag);
  }

  // ---- exactly when an id is stranded -----------------------------------------------------------------

  ghost predicate SomeIdStranded(s: Node) { exists m: nat, g: int :: Stranded(s, m, g) }

  /** From the first failing send on, some id is stranded. */
  lemma {:induction false} FailureStrands(r: Rules, cfg: Config, s: Node, run: seq<Action>)
    requires Good(cfg, s) && Paced(cfg, s) && r.peer && r.onTime && Runs(r, cfg, s, run)
    requires !Runs(r.(sendsSucceed := true), cfg, s, run)
    ensures SomeIdStranded(Exec(r, cfg, s, run))
    decreases run
  {
    var a, n := run[0], Apply(cfg, s, run[0]);
    StepKeepsGood(r, cfg, s, a);
    if SendFails(cfg, s, a) {
      var it := CallerItem(s, s.callers[a.caller]);
      FailedSendStrands(cfg, s, a);
      StrandedForever(r, cfg, n, run[1..], it.frame.msgId, it.tag);
      assert Stranded(Exec(r, cfg, s, run), it.frame.msgId, it.tag);
    } else {
      assert Obeys(r.(sendsSucceed := true), cfg, s, a);
      if a.HandlerCheck? {
        PeerAnswersStamped(r, cfg, s, a.locked);
      }
      StepKeepsPaced(r.(stampedOnly := true), cfg, s, a);
      FailureStrands(r, cfg, n, run[1..]);
    }
  }

  lemma NothingStranded(r: Rules, cfg: Config, callers: nat, clock: nat, run: seq<Action>)
    requires r.peer && r.onTime && r.sendsSucceed && Runs(r, cfg, Init(cfg, callers, clock), run)
    ensures !SomeIdStranded(Exec(r, cfg, Init(cfg, callers, clock), run))
  {
    var s := Exec(r, cfg, Init(cfg, callers, clock), run);
    PendingDisciplineWithPeer(r, cfg, callers, clock, run);
    forall m: nat, g: int ensures !Stranded(s, m, g) {
      assert Unstamped(s, m, g) == OneIf(IsPending(s, m) && OwnerOf(s, m) == g);
    }
  }

  /** In every run with such a peer: some id is stranded at the end exactly when some command's send failed,
      that is, when the run does not obey the rule that all of them succeed. */
  lemma StrandedIffSendFailed(r: Rules, cfg: Config, callers: nat, clock: nat, run: seq<Action>)
    requires r.peer && r.onTime && Runs(r, cfg, Init(cfg, callers, clock), run)
    ensures SomeIdStranded(Exec(r, cfg, Init(cfg, callers, clock), run)) <==>
            !Runs(r.(sendsSucceed := true), cfg, Init(cfg, callers, clock), run)
  {
    var init, r' := Init(cfg, callers, clock), r.(sendsSucceed := true);
    if Runs(r', cfg, init, run) {
      RunsAreFree(r, cfg, init, run);
      RunsAreFree(r', cfg, init, run);
      NothingStranded(r', cfg, callers, clock, run);
    } else {
      InitIsGood(cfg, callers, clock);
      InitIsPaced(cfg, callers, clock);
      FailureStrands(r, cfg, init, run);
    }
  }

  // ---- and it happens in every configuration ------------------------------------------------------------

  /** A peer that answers each command once and in time. */
  const PROMPT := Rules(true, true, false, false, None)

  predicate SendingOnly(a: Action) { a.Command? || a.RespondOrNotify? || a.TakeFrame? || a.Enqueue? }

  /** Sending alone breaks no rule of the peer's. */
  lemma {:induction false} SendingIsPrompt(cfg: Config, s: Node, run: seq<Action>)
    requires Runs(FREE, cfg, s, run) && forall i :: 0 <= i < |run| ==> SendingOnly(run[i])
    ensures Runs(PROMPT, cfg, s, run) && Exec(PROMPT, cfg, s, run) == Exec(FREE, cfg, s, run)
    decreases run
  {
    if run != [] {
      assert SendingOnly(run[0]);
      SendingIsPrompt(cfg, Apply(cfg, s, run[0]), run[1..]);
    }
  }

  lemma {:induction false} FloodSendsOnly(n: nat)
    ensures forall i :: 0 <= i < |Flood(n)| ==> SendingOnly(Flood(n)[i])
  {
    if n > 0 {
      FloodSendsOnly(n - 1);
    }
  }

  const ASK := Command(0, true, 0, [], None, 0)

  /** Before the send that fails: as many notifications as fit, then a command, and its block if there is one. */
  function Prelude(cfg: Config): seq<Action> {
    if cfg.slabFrames <= QUEUE_MAX_ITEMS then Flood(cfg.slabFrames) + [ASK]
    else Flood(QUEUE_MAX_ITEMS) + [ASK, TakeFrame(0, QUEUE_MAX_ITEMS)]
  }

  function Failing(cfg: Config): Action { if cfg.slabFrames <= QUEUE_MAX_ITEMS then TakeFrame(0, 0) else Enqueue(0) }

  lemma AskRuns(cfg: Config, s: Node, n: nat)
    requires Flooded(cfg, s, n)
    ensures Runs(FREE, cfg, s, [ASK]) && Exec(FREE, cfg, s, [ASK]) == Apply(cfg, s, ASK)
    ensures Apply(cfg, s, ASK).callers == [Building(Frame(TYPE_COMMAND, 0, 0, []), |s.hist.allocs|)]
    ensures var t := Apply(cfg, s, ASK); t.core.slab == s.core.slab && t.core.tx == s.core.tx
  {
    assert [ASK][1..] == [];
    assert Runs(FREE, cfg, Apply(cfg, s, ASK), []);
  }

  lemma BlockRuns(cfg: Config, t: Node, b: Block)
    requires |t.callers| == 1 && t.callers[0] == Building(Frame(TYPE_COMMAND, 0, 0, []), 0) && b !in t.core.slab && !SlabFull(cfg, t.core)
    ensures Runs(FREE, cfg, t, [TakeFrame(0, b)]) && Exec(FREE, cfg, t, [TakeFrame(0, b)]) == Apply(cfg, t, TakeFrame(0, b))
    ensures var u := Apply(cfg, t, TakeFrame(0, b));
      u.callers == [Holding(b)] && u.core.tx == t.core.tx && FrameAt(u.core, b).kind == TYPE_COMMAND
  {
    assert [TakeFrame(0, b)][1..] == [];
    assert Runs(FREE, cfg, Apply(cfg, t, TakeFrame(0, b)), []);
  }

  lemma PreludeRuns(cfg: Config)
    ensures Runs(FREE, cfg, Init(cfg, 1, 1), Prelude(cfg))
    ensures var s := Exec(FREE, cfg, Init(cfg, 1, 1), Prelude(cfg)); Enabled(cfg, s, Failing(cfg)) && SendFails(cfg, s, Failing(cfg))
  {
    var init := Init(cfg, 1, 1);
    var n := if cfg.slabFrames <= QUEUE_MAX_ITEMS then cfg.slabFrames else QUEUE_MAX_ITEMS;
    FloodRuns(cfg, 1, n);
    var s := Exec(FREE, cfg, init, Flood(n));
    AskRuns(cfg, s, n);
    var t := Apply(cfg, s, ASK);
    RunsAppend(FREE, cfg, init, Flood(n), [ASK]);
    if cfg.slabFrames > QUEUE_MAX_ITEMS {
      BlockRuns(cfg, t, n);
      RunsAppend(FREE, cfg, init, Flood(n) + [ASK], [TakeFrame(0, n)]);
      assert Flood(n) + [ASK] + [TakeFrame(0, n)] == Prelude(cfg);
    }
  }

  /** In every configuration, a run with no more than one caller and a well-behaved peer strands an id: when
      the slab is no larger than a queue because the slab is full, otherwise because the queue is. */
  lemma EveryConfigurationStrands(cfg: Config) returns (run: seq<Action>)
    ensures Runs(PROMPT, cfg, Init(cfg, 1, 1), run) && SomeIdStranded(Exec(PROMPT, cfg, Init(cfg, 1, 1), run))
  {
    var init, before, a := Init(cfg, 1, 1), Prelude(cfg), Failing(cfg);
    PreludeRuns(cfg);
    FloodSendsOnly(if cfg.slabFrames <= QUEUE_MAX_ITEMS then cfg.slabFrames else QUEUE_MAX_ITEMS);
    SendingIsPrompt(cfg, init, before);
    var s := Exec(PROMPT, cfg, init, before);
    var it := CallerItem(s, s.callers[a.caller]);
    assert Runs(PROMPT, cfg, Apply(cfg, s, a), []);
    FailedSendStrandsForever(PROMPT, cfg, 1, 1, before, a, []);
    assert [a][1..] == [];
    assert Runs(PROMPT, cfg, s, [a]) && Exec(PROMPT, cfg, s, [a]) == Apply(cfg, s, a);
    RunsAppend(PROMPT, cfg, init, before, [a]);
    run := before + [a];
    assert Stranded(Exec(PROMPT, cfg, init, run), it.frame.msgId, it.tag);
  }
}
