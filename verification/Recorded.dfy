/**
 What the bookkeeping of a run says, in terms of the actions of the run alone: which commands were accepted,
 what was to be sent besides, what arrived, which handlers got the mutex, which callback a target had, how
 much time passed. The history of every run agrees with it, so that what is proved of the history is proved
 of what callers, peer and clock did.
 */
module Recorded {
  import opened Common
  import opened Wire
  import opened IcmpState
  import opened IcmpNode
  import opened IcmpRuns

  // ---- the last step of a run -----------------------------------------------------------------------

  lemma {:induction false} LastStep(r: Rules, cfg: Config, s: Node, run: seq<Action>)
    requires Runs(r, cfg, s, run) && run != []
    ensures var n := |run| - 1;
      && Runs(r, cfg, s, run[..n])
      && var t := Exec(r, cfg, s, run[..n]);
         Enabled(cfg, t, run[n]) && Obeys(r, cfg, t, run[n]) && Exec(r, cfg, s, run) == Apply(cfg, t, run[n])
    decreases run
  {
    var n := |run| - 1;
    if n == 0 {
      assert run[..0] == [] && run[1..] == [];
    } else {
      LastStep(r, cfg, Apply(cfg, s, run[0]), run[1..]);
      assert run[1..][..n - 1] == run[..n][1..];
    }
  }

  // ---- what the actions say ----------------------------------------------------------------------------

  /** A command that is given an id: its payload fits, the mutex is free, and some id is. */
  predicate Accepted(cfg: Config, s: Node, a: Action) {
    a.Command? && |a.payload| <= cfg.maxPayload && a.locked && exists m: nat :: m < cfg.ids && m !in s.core.inflight
  }

  /** The accepted commands of a run. */
  function Commands(r: Rules, cfg: Config, s: Node, run: seq<Action>): (commands: seq<Action>)
    requires Runs(r, cfg, s, run)
    ensures forall k :: 0 <= k < |commands| ==> commands[k].Command?
    decreases |run|
  {
    if run == [] then [] else
    var n := |run| - 1;
    LastStep(r, cfg, s, run);
    Commands(r, cfg, s, run[..n]) + (if Accepted(cfg, Exec(r, cfg, s, run[..n]), run[n]) then [run[n]] else [])
  }

  /** The frames that icmp_respond and icmp_notify were asked to send, with payloads that fit. */
  function Others(cfg: Config, run: seq<Action>): seq<Frame>
    decreases |run|
  {
    if run == [] then [] else
    var n := |run| - 1;
    Others(cfg, run[..n]) + (if run[n].RespondOrNotify? && |run[n].frame.payload| <= cfg.maxPayload then [run[n].frame] else [])
  }

  /** The frames that were unpacked and found room in the queue. */
  function Arrivals(r: Rules, cfg: Config, s: Node, run: seq<Action>): seq<Tagged>
    requires Runs(r, cfg, s, run)
    decreases |run|
  {
    if run == [] then [] else
    var n, a := |run| - 1, run[|run| - 1];
    LastStep(r, cfg, s, run);
    Arrivals(r, cfg, s, run[..n]) +
    (if a.UartFinish? && a.unpacked.Some? && |Exec(r, cfg, s, run[..n]).core.rx| < QUEUE_MAX_ITEMS then [Tagged(a.tag, a.unpacked.value)] else [])
  }

  /** Whether the dispatch handler got the mutex, each time that it found a frame. */
  function Locks(r: Rules, cfg: Config, s: Node, run: seq<Action>): seq<bool>
    requires Runs(r, cfg, s, run)
    decreases |run|
  {
    if run == [] then [] else
    var n, a := |run| - 1, run[|run| - 1];
    LastStep(r, cfg, s, run);
    Locks(r, cfg, s, run[..n]) + (if a.HandlerCheck? && Exec(r, cfg, s, run[..n]).core.ctxFrame.Some? then [a.locked] else [])
  }

  /** The callback of the last registration for target `t` whose callback is not NULL. */
  function LastRegistered(run: seq<Action>, t: nat): Option<Callback>
    decreases |run|
  {
    if run == [] then None else
    var n, a := |run| - 1, run[|run| - 1];
    if a.Register? && a.slot == t && a.targetCb.Some? then a.targetCb else LastRegistered(run[..n], t)
  }

  /** At each hand-over to the work context, the callback that had last been registered for the target of the
      frame whose turn it is: the `k`th hand-over is of the `k`th arrival. */
  function HandOvers(r: Rules, cfg: Config, s: Node, run: seq<Action>): seq<Option<Callback>>
    requires Runs(r, cfg, s, run)
    decreases |run|
  {
    if run == [] then [] else
    var n, a := |run| - 1, run[|run| - 1];
    LastStep(r, cfg, s, run);
    var before, arrivals := HandOvers(r, cfg, s, run[..n]), Arrivals(r, cfg, s, run[..n]);
    before + (if a.SubmitWork? && |before| < |arrivals| then [LastRegistered(run[..n], arrivals[|before|].frame.target)] else [])
  }

  function Elapsed(run: seq<Action>): nat
    decreases |run|
  {
    if run == [] then 0 else Elapsed(run[..|run| - 1]) + (if run[|run| - 1].Tick? then run[|run| - 1].ms else 0)
  }

  // ---- one step ----------------------------------------------------------------------------------------

  /** The record of a command is that of the action, and nothing else. */
  predicate RecordOf(x: Alloc, a: Action) {
    a.Command? && x.callback == a.cb && x.userData == a.userData && x.target == a.target && x.payload == a.payload
  }

  predicate SameRecords(s: Node, n: Node) {
    && n.hist.rxLocked == s.hist.rxLocked && n.hist.handed == s.hist.handed
    && n.core.targets == s.core.targets && n.clock == s.clock && n.hist.wire == s.hist.wire
  }

  /** The PHY takes a command frame. */
  predicate TookCommand(s: Node, a: Action) {
    a == PhySend(true) && s.thread.Sending? && FrameAt(s.core, s.thread.block).kind == 1
  }

  lemma CommandRecords(cfg: Config, s: Node, a: Action)
    requires Enabled(cfg, s, a) && a.Command?
    ensures var n := Apply(cfg, s, a);
      && SameRecords(s, n) && n.hist.others == s.hist.others && n.hist.rxIn == s.hist.rxIn
      && (Accepted(cfg, s, a) ==>
           |n.hist.allocs| == |s.hist.allocs| + 1 && s.hist.allocs <= n.hist.allocs && RecordOf(n.hist.allocs[|s.hist.allocs|], a))
      && (!Accepted(cfg, s, a) ==> n.hist.allocs == s.hist.allocs)
  {
  }

  lemma CallerRecords(cfg: Config, s: Node, a: Action)
    requires Enabled(cfg, s, a) && (a.RespondOrNotify? || a.TakeFrame? || a.Enqueue? || a.UartTakeFrame? || a.UartFinish?)
    ensures var n := Apply(cfg, s, a);
      && SameRecords(s, n) && n.hist.allocs == s.hist.allocs
      && n.hist.others == s.hist.others + (if a.RespondOrNotify? && |a.frame.payload| <= cfg.maxPayload then [a.frame] else [])
      && n.hist.rxIn == s.hist.rxIn +
           (if a.UartFinish? && a.unpacked.Some? && |s.core.rx| < QUEUE_MAX_ITEMS then [Tagged(a.tag, a.unpacked.value)] else [])
  {
  }

  lemma ThreadRecords(cfg: Config, s: Node, a: Action)
    requires Enabled(cfg, s, a)
    requires a.TxDequeue? || a.Stamp? || a.PhySend? || a.TxFree? || a.SemTake? || a.RxDequeue? || a.SubmitWork?
    ensures var n := Apply(cfg, s, a);
      && n.hist.allocs == s.hist.allocs && n.hist.others == s.hist.others && n.hist.rxIn == s.hist.rxIn
      && n.hist.rxLocked == s.hist.rxLocked && n.core.targets == s.core.targets && n.clock == s.clock
      && n.hist.wire == s.hist.wire + (if TookCommand(s, a) then {TagOf(s, s.thread.block)} else {})
      && (!a.SubmitWork? ==> n.hist.handed == s.hist.handed)
      && (a.SubmitWork? ==>
           var t := FrameAt(s.core, s.thread.block).target;
           t < |s.core.targets| ==> n.hist.handed == s.hist.handed + [s.core.targets[t]])
  {
  }

  lemma WorkRecords(cfg: Config, s: Node, a: Action)
    requires Enabled(cfg, s, a)
    requires a.HandlerCheck? || a.HandlerCall? || a.HandlerClear? || a.HandlerFree? || a.HandlerGive? || a.Timeout? || a.Register? || a.Tick?
    ensures var n := Apply(cfg, s, a);
      && n.hist.allocs == s.hist.allocs && n.hist.others == s.hist.others && n.hist.rxIn == s.hist.rxIn && n.hist.handed == s.hist.handed
      && n.hist.wire == s.hist.wire
      && n.hist.rxLocked == s.hist.rxLocked + (if a.HandlerCheck? && s.core.ctxFrame.Some? then [a.locked] else [])
      && n.core.targets == (if a.Register? && a.targetCb.Some? then s.core.targets[a.slot := a.targetCb] else s.core.targets)
      && n.clock == s.clock + (if a.Tick? then a.ms else 0)
  {
  }

  // ---- whole runs ----------------------------------------------------------------------------------------

  ghost predicate CommandsAgree(h: History, commands: seq<Action>) {
    |h.allocs| == |commands| && forall k :: 0 <= k < |commands| ==> RecordOf(h.allocs[k], commands[k])
  }

  ghost predicate TargetsAgree(cfg: Config, s: Node, run: seq<Action>) {
    |s.core.targets| == cfg.targets && forall t :: 0 <= t < cfg.targets ==> s.core.targets[t] == LastRegistered(run, t)
  }

  ghost predicate Agrees(r: Rules, cfg: Config, init: Node, run: seq<Action>)
    requires Runs(r, cfg, init, run)
  {
    var s := Exec(r, cfg, init, run);
    && CommandsAgree(s.hist, Commands(r, cfg, init, run))
    && s.hist.others == Others(cfg, run)
    && s.hist.rxIn == Arrivals(r, cfg, init, run)
    && s.hist.rxLocked == Locks(r, cfg, init, run)
    && TargetsAgree(cfg, s, run)
    && s.clock == init.clock + Elapsed(run)
  }

  lemma RegisteredStep(cfg: Config, s: Node, run: seq<Action>, a: Action)
    requires TargetsAgree(cfg, s, run) && Enabled(cfg, s, a)
    requires Apply(cfg, s, a).core.targets == if a.Register? && a.targetCb.Some? then s.core.targets[a.slot := a.targetCb] else s.core.targets
    ensures TargetsAgree(cfg, Apply(cfg, s, a), run + [a])
  {
    assert (run + [a])[..|run|] == run;
    forall t | 0 <= t < cfg.targets ensures Apply(cfg, s, a).core.targets[t] == LastRegistered(run + [a], t) {
      assert s.core.targets[t] == LastRegistered(run, t);
    }
  }

  /** What one step records, action by action. */
  lemma StepRecords(cfg: Config, s: Node, a: Action)
    requires Enabled(cfg, s, a)
    ensures var n := Apply(cfg, s, a);
      && (if Accepted(cfg, s, a)
          then |n.hist.allocs| == |s.hist.allocs| + 1 && s.hist.allocs <= n.hist.allocs && RecordOf(n.hist.allocs[|s.hist.allocs|], a)
          else n.hist.allocs == s.hist.allocs)
      && n.hist.others == s.hist.others + (if a.RespondOrNotify? && |a.frame.payload| <= cfg.maxPayload then [a.frame] else [])
      && n.hist.rxIn == s.hist.rxIn +
           (if a.UartFinish? && a.unpacked.Some? && |s.core.rx| < QUEUE_MAX_ITEMS then [Tagged(a.tag, a.unpacked.value)] else [])
      && n.hist.wire == s.hist.wire + (if TookCommand(s, a) then {TagOf(s, s.thread.block)} else {})
      && n.hist.rxLocked == s.hist.rxLocked + (if a.HandlerCheck? && s.core.ctxFrame.Some? then [a.locked] else [])
      && n.core.targets == (if a.Register? && a.targetCb.Some? then s.core.targets[a.slot := a.targetCb] else s.core.targets)
      && n.clock == s.clock + (if a.Tick? then a.ms else 0)
  {
    if a.Command? {
      CommandRecords(cfg, s, a);
    } else if a.RespondOrNotify? || a.TakeFrame? || a.Enqueue? || a.UartTakeFrame? || a.UartFinish? {
      CallerRecords(cfg, s, a);
    } else if a.TxDequeue? || a.Stamp? || a.PhySend? || a.TxFree? || a.SemTake? || a.RxDequeue? || a.SubmitWork? {
      ThreadRecords(cfg, s, a);
    } else {
      WorkRecords(cfg, s, a);
    }
  }

  lemma AgreesStep(r: Rules, cfg: Config, init: Node, run: seq<Action>)
    requires Runs(r, cfg, init, run) && run != [] && Runs(r, cfg, init, run[..|run| - 1]) && Agrees(r, cfg, init, run[..|run| - 1])
    ensures Agrees(r, cfg, init, run)
  {
    var n, a := |run| - 1, run[|run| - 1];
    LastStep(r, cfg, init, run);
    var s := Exec(r, cfg, init, run[..n]);
    StepRecords(cfg, s, a);
    RegisteredStep(cfg, s, run[..n], a);
    assert run[..n] + [a] == run;
    CommandsStep(s.hist, Apply(cfg, s, a).hist, Commands(r, cfg, init, run[..n]), a, Accepted(cfg, s, a));
  }

  lemma CommandsStep(h: History, h': History, commands: seq<Action>, a: Action, accepted: bool)
    requires CommandsAgree(h, commands)
    requires if accepted then |h'.allocs| == |h.allocs| + 1 && h.allocs <= h'.allocs && RecordOf(h'.allocs[|h.allocs|], a) else h'.allocs == h.allocs
    ensures CommandsAgree(h', commands + (if accepted then [a] else []))
  {
  }

  /** In every run: the allocations are, in order, the accepted commands of the run, each with its own callback,
      user data, target and payload; the other frames to be sent, those that arrived, and the handlers' luck
      with the mutex are those of the actions; each target has the callback of its last registration; and the
      clock shows the time that passed. */
  lemma {:induction false} HistoryAgrees(r: Rules, cfg: Config, callers: nat, clock: nat, run: seq<Action>)
    requires Runs(r, cfg, Init(cfg, callers, clock), run)
    ensures Agrees(r, cfg, Init(cfg, callers, clock), run)
    decreases |run|
  {
    if run == [] {
      assert Exec(r, cfg, Init(cfg, callers, clock), run) == Init(cfg, callers, clock);
    } else {
      LastStep(r, cfg, Init(cfg, callers, clock), run);
      HistoryAgrees(r, cfg, callers, clock, run[..|run| - 1]);
      AgreesStep(r, cfg, Init(cfg, callers, clock), run);
    }
  }
}
