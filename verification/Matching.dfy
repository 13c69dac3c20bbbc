/**
 Matching responses to commands. Message ids are reused without limit and the wire carries nothing else,
 yet with a peer that answers each command at most once, and in time, every response reaches the callback
 of exactly the command it answers.
 */
module Matching {
  import opened Common
  import opened Wire
  import opened IcmpState
  import opened IcmpNode
  import opened IcmpRuns
  import opened Recorded
  import opened Ownership
  import opened Serials
  import opened Fifo

  /** The frames that may still lead to a callback or a clear: the one the handler works on without the
      mutex, then the undispatched ones. */
  function Unsettled(s: Node): seq<Block> { (if InWindow(s) then [s.work.block] else []) + Undispatched(s) }

  predicate IsResponse(it: Tagged) { it.frame.kind == TYPE_RESPONSE }

  /** A response that waits is the answer to a command with its message id, received but not settled. */
  predicate AnswerOk(h: History, it: Tagged) {
    IsResponse(it) ==>
      && it.tag in h.answered && it.tag !in h.cleared
      && 0 <= it.tag < |h.allocs| && h.allocs[it.tag].msgId == it.frame.msgId
  }

  ghost predicate AnswersOk(h: History, items: seq<Tagged>) {
    && (forall i :: 0 <= i < |items| ==> AnswerOk(h, items[i]))
    && (forall i, j :: 0 <= i < j < |items| && IsResponse(items[i]) && IsResponse(items[j]) ==> items[i].tag != items[j].tag)
  }

  /** The callbacks that a list of dispatched frames should have led to: for each response that got the
      mutex and answers a command with a callback, that callback with that command's user data. */
  function CallFor(allocs: seq<Alloc>, it: Tagged, locked: bool): seq<Call> {
    if locked && IsResponse(it) && 0 <= it.tag < |allocs| && allocs[it.tag].callback.Some?
    then [Call(it.tag, allocs[it.tag].callback, allocs[it.tag].userData, it.frame.payload)] else []
  }

  function Expected(allocs: seq<Alloc>, out: seq<Tagged>, locked: seq<bool>): seq<Call>
    requires |out| == |locked|
  {
    if out == [] then [] else
    var n := |out| - 1;
    Expected(allocs, out[..n], locked[..n]) + CallFor(allocs, out[n], locked[n])
  }

  ghost predicate TagsKnown(h: History, out: seq<Tagged>) {
    forall i :: 0 <= i < |out| && IsResponse(out[i]) ==> 0 <= out[i].tag < |h.allocs|
  }

  /** The call that the handler has decided on and not made yet. */
  function Decided(s: Node): seq<Call> {
    if s.work.Checked? then CallFor(s.hist.allocs, At(s, s.work.block), true) else []
  }

  ghost predicate CallsMatch(s: Node) {
    && |s.hist.rxLocked| == |s.hist.rxOut| && TagsKnown(s.hist, s.hist.rxOut)
    && s.hist.calls + Decided(s) == Expected(s.hist.allocs, s.hist.rxOut, s.hist.rxLocked)
  }

  ghost predicate Matched(s: Node) {
    && AnswersOk(s.hist, Items(s, Unsettled(s)))
    && s.hist.cleared <= s.hist.answered && s.hist.answered <= s.hist.wire
    && (InWindow(s) ==> OwnerOf(s, WindowId(s)) == TagOf(s, s.work.block))
    && CallsMatch(s)
  }

  ghost predicate Good(cfg: Config, s: Node) { Sound(cfg, s) && Serial(cfg, s) && InOrder(s) && Matched(s) }

  // ---- expected calls -----------------------------------------------------------------------------

  lemma {:induction false} ExpectedStable(h: History, more: seq<Alloc>, out: seq<Tagged>, locked: seq<bool>)
    requires |out| == |locked| && TagsKnown(h, out)
    ensures Expected(h.allocs + more, out, locked) == Expected(h.allocs, out, locked)
  {
    if out != [] {
      ExpectedStable(h, more, out[..|out| - 1], locked[..|out| - 1]);
    }
  }

  lemma ExpectedAppend(allocs: seq<Alloc>, out: seq<Tagged>, locked: seq<bool>, it: Tagged, l: bool)
    requires |out| == |locked|
    ensures Expected(allocs, out + [it], locked + [l]) == Expected(allocs, out, locked) + CallFor(allocs, it, l)
  {
    assert (out + [it])[..|out|] == out && (locked + [l])[..|out|] == locked;
  }

  // ---- the waiting responses ------------------------------------------------------------------------

  lemma UnsettledItemsKept(cfg: Config, s: Node, a: Action)
    requires Sound(cfg, s) && Enabled(cfg, s, a)
    ensures Items(Apply(cfg, s, a), Unsettled(s)) == Items(s, Unsettled(s))
    ensures Items(Apply(cfg, s, a), Undispatched(s)) == Items(s, Undispatched(s))
  {
    var t := Apply(cfg, s, a);
    UndispatchedWaiting(s);
    if a.TxFree? {
      ReleasedIsAlone(s, Undispatched(s));
    }
    QueueUntouched(cfg, s, a, Undispatched(s));
    if InWindow(s) {
      ContextUntouched(cfg, s, a);
      ItemsAppend(s, [s.work.block], Undispatched(s));
      ItemsAppend(t, [s.work.block], Undispatched(s));
      assert Items(t, [s.work.block]) == Items(s, [s.work.block]);
    } else {
      assert Unsettled(s) == Undispatched(s);
    }
  }

  lemma AnswersGrow(h: History, h': History, items: seq<Tagged>)
    requires AnswersOk(h, items)
    requires h'.cleared == h.cleared && h.answered <= h'.answered && h.allocs <= h'.allocs
    ensures AnswersOk(h', items)
  {
    forall i | 0 <= i < |items| ensures AnswerOk(h', items[i]) {
      assert AnswerOk(h, items[i]);
    }
  }

  lemma AnswersAppend(h: History, items: seq<Tagged>, it: Tagged)
    requires AnswersOk(h, items) && AnswerOk(h, it)
    requires IsResponse(it) ==> forall i :: 0 <= i < |items| && IsResponse(items[i]) ==> items[i].tag != it.tag
    ensures AnswersOk(h, items + [it])
  {
  }

  lemma AnswersTail(h: History, items: seq<Tagged>)
    requires AnswersOk(h, items) && items != []
    ensures AnswersOk(h, items[1..])
  {
  }

  /** Steps other than an arrival, the check and the clear keep the waiting responses and their records. */
  lemma QuietStep(cfg: Config, s: Node, a: Action)
    requires Good(cfg, s) && Enabled(cfg, s, a) && !a.UartFinish? && !a.HandlerCheck? && !a.HandlerClear?
    ensures var t := Apply(cfg, s, a);
      AnswersOk(t.hist, Items(t, Unsettled(t))) && t.hist.cleared <= t.hist.answered && t.hist.answered <= t.hist.wire
  {
    var t := Apply(cfg, s, a);
    UnsettledItemsKept(cfg, s, a);
    UnsettledKept(cfg, s, a);
    QuietRecords(cfg, s, a);
    AnswersGrow(s.hist, t.hist, Items(s, Unsettled(s)));
  }

  lemma UnsettledKept(cfg: Config, s: Node, a: Action)
    requires Singleton(s) && Enabled(cfg, s, a) && !a.UartFinish? && !a.HandlerCheck? && !a.HandlerClear?
    ensures Unsettled(Apply(cfg, s, a)) == Unsettled(s)
  {
    RxSideKept(cfg, s, a);
    QuietWindow(cfg, s, a);
  }

  lemma QuietRecords(cfg: Config, s: Node, a: Action)
    requires Enabled(cfg, s, a) && !a.UartFinish? && !a.HandlerCheck? && !a.HandlerClear?
    ensures var t := Apply(cfg, s, a);
      t.hist.cleared == s.hist.cleared && t.hist.answered == s.hist.answered && s.hist.wire <= t.hist.wire && s.hist.allocs <= t.hist.allocs
  {
    if CallerAction(a) {
      CallersKeepRecords(cfg, s, a);
    }
  }

  lemma CallersKeepRecords(cfg: Config, s: Node, a: Action)
    requires Enabled(cfg, s, a) && CallerAction(a) && !a.UartFinish?
    ensures var t := Apply(cfg, s, a);
      t.hist.cleared == s.hist.cleared && t.hist.answered == s.hist.answered && s.hist.wire == t.hist.wire && s.hist.allocs <= t.hist.allocs
  {
  }

  lemma QuietWindow(cfg: Config, s: Node, a: Action)
    requires Singleton(s) && Enabled(cfg, s, a) && !a.HandlerCheck? && !a.HandlerClear?
    ensures var t := Apply(cfg, s, a); InWindow(t) == InWindow(s) && (InWindow(s) ==> t.work.block == s.work.block)
  {
  }

  lemma ArrivalRecords(cfg: Config, s: Node, a: Action)
    requires Enabled(cfg, s, a) && a.UartFinish?
    ensures var t := Apply(cfg, s, a);
      && t.hist.cleared == s.hist.cleared && t.hist.wire == s.hist.wire && t.hist.allocs == s.hist.allocs
      && t.hist.answered == s.hist.answered + (if a.unpacked.Some? && a.unpacked.value.kind == TYPE_RESPONSE then {a.tag} else {})
      && (a.unpacked.Some? && !RxFull(s.core) ==>
           Unsettled(t) == Unsettled(s) + [s.callers[a.caller].block] && At(t, s.callers[a.caller].block) == Tagged(a.tag, a.unpacked.value))
      && (!(a.unpacked.Some? && !RxFull(s.core)) ==> Unsettled(t) == Unsettled(s))
  {
  }

  lemma ArrivalKeepsAnswers(r: Rules, cfg: Config, s: Node, a: Action)
    requires Good(cfg, s) && Enabled(cfg, s, a) && a.UartFinish? && r.peer && Obeys(r, cfg, s, a)
    ensures var t := Apply(cfg, s, a);
      AnswersOk(t.hist, Items(t, Unsettled(t))) && t.hist.cleared <= t.hist.answered && t.hist.answered <= t.hist.wire
  {
    var t, b := Apply(cfg, s, a), s.callers[a.caller].block;
    UnsettledItemsKept(cfg, s, a);
    ArrivalRecords(cfg, s, a);
    var before := Items(s, Unsettled(s));
    AnswersGrow(s.hist, t.hist, before);
    if a.unpacked.Some? && !RxFull(s.core) {
      var it := Tagged(a.tag, a.unpacked.value);
      ItemsAppend(t, Unsettled(s), [b]);
      assert Items(t, [b]) == [it];
      forall i | 0 <= i < |before| && IsResponse(before[i]) && IsResponse(it) ensures before[i].tag != it.tag {
        assert AnswerOk(s.hist, before[i]);
      }
      AnswersAppend(t.hist, before, it);
    }
  }

  /** A response that is dispatched in time finds its own command's entry, whatever happened to the id
      since it was first used. */
  lemma DispatchFindsOwnCommand(r: Rules, cfg: Config, s: Node, locked: bool)
    requires Good(cfg, s) && Enabled(cfg, s, HandlerCheck(locked))
    requires r.peer && r.onTime && Obeys(r, cfg, s, HandlerCheck(locked))
    requires FrameAt(s.core, s.core.ctxFrame.value).kind == TYPE_RESPONSE
    ensures var it := At(s, s.core.ctxFrame.value);
      && Live(s, it.tag) && it.frame.msgId in s.core.inflight && OwnerOf(s, it.frame.msgId) == it.tag
      && (HasResponseCallback(s.core, it.frame) <==> s.hist.allocs[it.tag].callback.Some?)
  {
    var b := s.core.ctxFrame.value;
    assert Unsettled(s)[0] == b && Items(s, Unsettled(s))[0] == At(s, b);
    assert AnswerOk(s.hist, At(s, b));
    assert SettledOk(s, TagOf(s, b));
    assert EntryOk(s, FrameAt(s.core, b).msgId);
  }

  lemma CheckKeepsAnswers(cfg: Config, s: Node, a: Action)
    requires Good(cfg, s) && Enabled(cfg, s, a) && a.HandlerCheck?
    ensures AnswersOk(s.hist, Items(Apply(cfg, s, a), Unsettled(Apply(cfg, s, a))))
  {
    var t := Apply(cfg, s, a);
    UnsettledItemsKept(cfg, s, a);
    CheckMovesOn(cfg, s, a);
    if !InWindow(t) {
      assert Items(t, Unsettled(t)) == Items(t, Unsettled(s))[1..];
      AnswersTail(s.hist, Items(s, Unsettled(s)));
    }
  }

  lemma CheckMovesOn(cfg: Config, s: Node, a: Action)
    requires Good(cfg, s) && Enabled(cfg, s, a) && a.HandlerCheck?
    ensures var t := Apply(cfg, s, a);
      Unsettled(s) != [] && Unsettled(t) == if InWindow(t) then Unsettled(s) else Unsettled(s)[1..]
  {
    var t, b := Apply(cfg, s, a), s.core.ctxFrame.value;
    assert Unsettled(s) == Undispatched(s) == [b] + Undispatched(t);
  }

  lemma CheckKeepsMatched(r: Rules, cfg: Config, s: Node, a: Action)
    requires Good(cfg, s) && Enabled(cfg, s, a) && a.HandlerCheck? && r.peer && r.onTime && Obeys(r, cfg, s, a)
    ensures Matched(Apply(cfg, s, a))
  {
    var t, b := Apply(cfg, s, a), s.core.ctxFrame.value;
    var it := At(s, b);
    ContextUntouched(cfg, s, a);
    CheckKeepsAnswers(cfg, s, a);
    AnswersGrow(s.hist, t.hist, Items(t, Unsettled(t)));
    assert Unsettled(s)[0] == b && Items(s, Unsettled(s))[0] == it;
    assert AnswerOk(s.hist, it);
    if IsResponse(it) {
      DispatchFindsOwnCommand(r, cfg, s, a.locked);
    }
    ExpectedAppend(s.hist.allocs, s.hist.rxOut, s.hist.rxLocked, it, a.locked);
  }

  lemma ClearKeepsAnswers(cfg: Config, s: Node)
    requires Good(cfg, s) && s.work.InCallback?
    ensures var t := HandlerClearStep(s);
      AnswersOk(t.hist, Items(t, Unsettled(t))) && t.hist.cleared <= t.hist.answered && t.hist.answered <= t.hist.wire
  {
    var t := HandlerClearStep(s);
    ClearTakesFirst(cfg, s);
    AnsweredFirst(cfg, s);
    ClearedItems(s, Unsettled(s));
    AnswersSettle(s.hist, t.hist, Items(s, Unsettled(s)));
  }

  lemma ClearedItems(s: Node, q: seq<Block>)
    requires s.work.InCallback? && q != []
    ensures Items(HandlerClearStep(s), q[1..]) == Items(s, q)[1..]
  {
  }

  /** The response whose callback ran is the first unsettled one, and clearing records its tag. */
  lemma AnsweredFirst(cfg: Config, s: Node)
    requires Good(cfg, s) && s.work.InCallback?
    ensures var own, t := At(s, s.work.block), HandlerClearStep(s);
      && Items(s, Unsettled(s)) != [] && Items(s, Unsettled(s))[0] == own && IsResponse(own) && own.tag in s.hist.answered
      && t.hist.cleared == s.hist.cleared + {own.tag} && t.hist.answered == s.hist.answered
      && t.hist.allocs == s.hist.allocs && t.hist.wire == s.hist.wire
  {
    ClearTakesFirst(cfg, s);
    assert AnswerOk(s.hist, Items(s, Unsettled(s))[0]);
  }

  lemma ClearTakesFirst(cfg: Config, s: Node)
    requires Good(cfg, s) && s.work.InCallback?
    ensures Unsettled(s) != [] && Unsettled(s)[0] == s.work.block && Unsettled(HandlerClearStep(s)) == Unsettled(s)[1..]
  {
  }

  /** Settling the first of the waiting responses leaves the others unsettled: their tags are different. */
  lemma AnswersSettle(h: History, h': History, items: seq<Tagged>)
    requires AnswersOk(h, items) && items != [] && IsResponse(items[0])
    requires h'.cleared == h.cleared + {items[0].tag} && h'.answered == h.answered && h'.allocs == h.allocs
    ensures AnswersOk(h', items[1..])
  {
    forall i | 0 <= i < |items| - 1 ensures AnswerOk(h', items[1..][i]) {
      assert AnswerOk(h, items[i + 1]);
    }
  }

  lemma StepKeepsAnswers(r: Rules, cfg: Config, s: Node, a: Action)
    requires Good(cfg, s) && Enabled(cfg, s, a) && r.peer && Obeys(r, cfg, s, a) && !a.HandlerCheck?
    ensures var t := Apply(cfg, s, a);
      AnswersOk(t.hist, Items(t, Unsettled(t))) && t.hist.cleared <= t.hist.answered && t.hist.answered <= t.hist.wire
  {
    if a.UartFinish? {
      ArrivalKeepsAnswers(r, cfg, s, a);
    } else if a.HandlerClear? {
      ClearKeepsAnswers(cfg, s);
    } else {
      QuietStep(cfg, s, a);
    }
  }

  lemma StepKeepsWindowOwner(cfg: Config, s: Node, a: Action)
    requires Good(cfg, s) && Enabled(cfg, s, a) && !a.HandlerCheck?
    ensures var t := Apply(cfg, s, a); InWindow(t) ==> OwnerOf(t, WindowId(t)) == TagOf(t, t.work.block)
  {
    if InWindow(s) && !a.HandlerClear? {
      WindowStep(cfg, s, a);
    } else {
      NoNewWindow(cfg, s, a);
    }
  }

  // ---- the calls -----------------------------------------------------------------------------------

  lemma StepKeepsCallsMatch(cfg: Config, s: Node, a: Action)
    requires Good(cfg, s) && Enabled(cfg, s, a) && !a.HandlerCheck?
    ensures CallsMatch(Apply(cfg, s, a))
  {
    var t := Apply(cfg, s, a);
    NothingDispatched(cfg, s, a);
    if a.HandlerCall? {
      CallIsDecided(cfg, s);
    } else if s.work.Checked? {
      DecidedKept(cfg, s, a);
    } else {
      CallsKept(cfg, s, a);
      NotChecked(cfg, s, a);
    }
    var more := t.hist.allocs[|s.hist.allocs|..];
    assert t.hist.allocs == s.hist.allocs + more;
    ExpectedStable(s.hist, more, s.hist.rxOut, s.hist.rxLocked);
  }

  lemma NothingDispatched(cfg: Config, s: Node, a: Action)
    requires Enabled(cfg, s, a) && !a.HandlerCheck?
    ensures var t := Apply(cfg, s, a);
      t.hist.rxOut == s.hist.rxOut && t.hist.rxLocked == s.hist.rxLocked && s.hist.allocs <= t.hist.allocs
  {
  }

  lemma NotChecked(cfg: Config, s: Node, a: Action)
    requires Enabled(cfg, s, a) && !a.HandlerCheck? && !s.work.Checked?
    ensures !Apply(cfg, s, a).work.Checked?
  {
  }

  /** The call the handler makes is the one it had decided on before it released the mutex. */
  lemma CallIsDecided(cfg: Config, s: Node)
    requires Good(cfg, s) && s.work.Checked?
    ensures HandlerCallStep(s).hist.calls == s.hist.calls + Decided(s)
  {
    var it := At(s, s.work.block);
    assert Items(s, Unsettled(s))[0] == it && AnswerOk(s.hist, it);
    assert EntryOk(s, WindowId(s));
  }

  lemma DecidedKept(cfg: Config, s: Node, a: Action)
    requires Good(cfg, s) && Enabled(cfg, s, a) && s.work.Checked? && !a.HandlerCall? && !a.HandlerCheck?
    ensures var t := Apply(cfg, s, a); Decided(t) == Decided(s) && t.hist.calls == s.hist.calls
  {
    var t, it := Apply(cfg, s, a), At(s, s.work.block);
    assert Items(s, Unsettled(s))[0] == it && AnswerOk(s.hist, it);
    WindowStep(cfg, s, a);
    CallsKept(cfg, s, a);
    StillChecked(cfg, s, a);
  }

  lemma StillChecked(cfg: Config, s: Node, a: Action)
    requires Singleton(s) && Enabled(cfg, s, a) && s.work.Checked? && !a.HandlerCall? && !a.HandlerCheck?
    ensures Apply(cfg, s, a).work == s.work
  {
  }

  /** The handler's own two steps up to the callback, when it gets the mutex. */
  function Dispatched(s: Node): seq<Call> {
    var t := HandlerCheckStep(s, true);
    if t.work.Checked? then HandlerCallStep(t).hist.calls else s.hist.calls
  }

  /** The call that a response to the command `it.tag` should lead to. */
  function OwnCall(allocs: seq<Alloc>, it: Tagged): Call
    requires 0 <= it.tag < |allocs|
  {
    Call(it.tag, allocs[it.tag].callback, allocs[it.tag].userData, it.frame.payload)
  }

  lemma DispatchedOwn(cfg: Config, s: Node, it: Tagged)
    requires Serial(cfg, s) && s.core.ctxFrame.Some? && it == At(s, s.core.ctxFrame.value)
    requires IsResponse(it) && HasId(s, it.tag, it.frame.msgId)
    ensures Dispatched(s) == s.hist.calls + [OwnCall(s.hist.allocs, it)] <==>
      it.tag !in s.hist.cleared && it.tag !in s.hist.expired && s.hist.allocs[it.tag].callback.Some?
  {
    var own := OwnCall(s.hist.allocs, it);
    assert SettledOk(s, it.tag);
    assert |s.hist.calls + [own]| == |s.hist.calls| + 1;
    if it.frame.msgId in s.core.inflight {
      assert EntryOk(s, it.frame.msgId);
      if Dispatched(s) == s.hist.calls + [own] {
        assert Dispatched(s)[|s.hist.calls|] == own;
      }
    }
  }

  /** The call that a response to the command `it.tag` of a run should lead to. */
  function CallAsked(commands: seq<Action>, it: Tagged): Call
    requires 0 <= it.tag < |commands| && commands[it.tag].Command?
  {
    Call(it.tag, commands[it.tag].cb, commands[it.tag].userData, it.frame.payload)
  }

  /** In every run, whatever the peer and the timing: dispatching a response to a command invokes that
      command's callback, with its user data and the payload, exactly when the command has a callback and
      its entry has been neither aged out nor removed. */
  lemma OwnCallbackIffUnsettled(r: Rules, cfg: Config, callers: nat, clock: nat, run: seq<Action>)
    requires Runs(r, cfg, Init(cfg, callers, clock), run)
    ensures var s := Exec(r, cfg, Init(cfg, callers, clock), run);
      var commands := Commands(r, cfg, Init(cfg, callers, clock), run);
      s.core.ctxFrame.Some? ==>
        var it := At(s, s.core.ctxFrame.value);
        IsResponse(it) && HasId(s, it.tag, it.frame.msgId) ==>
          it.tag < |commands| &&
          (Dispatched(s) == s.hist.calls + [CallAsked(commands, it)] <==>
           it.tag !in s.hist.cleared && it.tag !in s.hist.expired && commands[it.tag].cb.Some?)
  {
    var s := Exec(r, cfg, Init(cfg, callers, clock), run);
    InitIsSound(cfg, callers, clock);
    InitIsSerial(cfg, callers, clock);
    AlwaysSerial(r, cfg, Init(cfg, callers, clock), run);
    HistoryAgrees(r, cfg, callers, clock, run);
    if s.core.ctxFrame.Some? {
      var it := At(s, s.core.ctxFrame.value);
      if IsResponse(it) && HasId(s, it.tag, it.frame.msgId) {
        DispatchedOwn(cfg, s, it);
        assert RecordOf(s.hist.allocs[it.tag], Commands(r, cfg, Init(cfg, callers, clock), run)[it.tag]);
      }
    }
  }

  // ---- whole runs -------------------------------------------------------------------------------------

  lemma StepKeepsGood(r: Rules, cfg: Config, s: Node, a: Action)
    requires Good(cfg, s) && Enabled(cfg, s, a) && r.peer && r.onTime && Obeys(r, cfg, s, a)
    ensures Good(cfg, Apply(cfg, s, a))
  {
    StepKeepsSound(cfg, s, a);
    StepKeepsSerial(cfg, s, a);
    StepKeepsTxOrder(cfg, s, a);
    StepKeepsRxOrder(cfg, s, a);
    if a.HandlerCheck? {
      CheckKeepsMatched(r, cfg, s, a);
    } else {
      StepKeepsAnswers(r, cfg, s, a);
      StepKeepsWindowOwner(cfg, s, a);
      StepKeepsCallsMatch(cfg, s, a);
    }
  }

  lemma InitIsGood(cfg: Config, callers: nat, clock: nat)
    ensures Good(cfg, Init(cfg, callers, clock))
  {
    InitIsSound(cfg, callers, clock);
    InitIsSerial(cfg, callers, clock);
  }

  lemma {:induction false} AlwaysGood(r: Rules, cfg: Config, s: Node, run: seq<Action>)
    requires Good(cfg, s) && r.peer && r.onTime && Runs(r, cfg, s, run)
    ensures Good(cfg, Exec(r, cfg, s, run))
    decreases run
  {
    if run != [] {
      StepKeepsGood(r, cfg, s, run[0]);
      AlwaysGood(r, cfg, Apply(cfg, s, run[0]), run[1..]);
    }
  }

  /** The calls that the dispatched frames ask for: one for each response that got the mutex and answers a
      command with a callback. */
  function CallsAsked(commands: seq<Action>, out: seq<Tagged>, locked: seq<bool>): seq<Call>
    requires |out| == |locked| && forall k :: 0 <= k < |commands| ==> commands[k].Command?
  {
    if out == [] then [] else
    var n := |out| - 1;
    var it := out[n];
    CallsAsked(commands, out[..n], locked[..n]) +
    (if locked[n] && IsResponse(it) && 0 <= it.tag < |commands| && commands[it.tag].cb.Some? then [CallAsked(commands, it)] else [])
  }

  lemma {:induction false} ExpectedIsAsked(h: History, commands: seq<Action>, out: seq<Tagged>, locked: seq<bool>)
    requires CommandsAgree(h, commands) && |out| == |locked| && forall k :: 0 <= k < |commands| ==> commands[k].Command?
    ensures Expected(h.allocs, out, locked) == CallsAsked(commands, out, locked)
  {
    if out != [] {
      ExpectedIsAsked(h, commands, out[..|out| - 1], locked[..|out| - 1]);
    }
  }

  /** In every run with such a peer, the callbacks invoked are, in order, exactly those that the arrived
      responses whose handlers got the mutex call for: each response to a command with a callback invokes the
      callback that icmp_command was given, with the user data it was given and the response's payload, once;
      nothing else is ever invoked. Only a call that the handler is about to make can be missing. */
  lemma RightCallbacks(r: Rules, cfg: Config, callers: nat, clock: nat, run: seq<Action>)
    requires r.peer && r.onTime && Runs(r, cfg, Init(cfg, callers, clock), run)
    ensures var init := Init(cfg, callers, clock);
      var t, commands, arrivals, locks := Exec(r, cfg, init, run), Commands(r, cfg, init, run), Arrivals(r, cfg, init, run), Locks(r, cfg, init, run);
      |locks| <= |arrivals| &&
      var asked := CallsAsked(commands, arrivals[..|locks|], locks);
      && t.hist.calls <= asked && |asked| <= |t.hist.calls| + 1
      && (!t.work.Checked? ==> t.hist.calls == asked)
  {
    var init := Init(cfg, callers, clock);
    InitIsGood(cfg, callers, clock);
    AlwaysGood(r, cfg, init, run);
    HistoryAgrees(r, cfg, callers, clock, run);
    var t := Exec(r, cfg, init, run);
    assert t.hist.rxOut == Arrivals(r, cfg, init, run)[..|t.hist.rxOut|];
    ExpectedIsAsked(t.hist, Commands(r, cfg, init, run), t.hist.rxOut, t.hist.rxLocked);
  }
}
