/**
 What is sent is what was asked for: every frame on its way to the PHY is the frame of one call of
 icmp_command, icmp_respond or icmp_notify, with that call's target and payload, and no two frames are of
 the same call.
 */
module Requests {
  import opened Common
  import opened Counting
  import opened Wire
  import opened IcmpState
  import opened IcmpNode
  import opened IcmpRuns
  import opened Recorded
  import opened Ownership
  import opened Fifo
  import opened Pending

  /** The call that a tag stands for. */
  predicate IsCall(h: History, t: int) { 0 <= t < |h.allocs| || 0 <= OtherTag(t) < |h.others| }

  /** The frame is the one that the call of its tag asked for. */
  predicate Asked(h: History, it: Tagged) {
    && IsCall(h, it.tag)
    && (if it.tag >= 0
        then var x := h.allocs[it.tag];
          it.frame.kind == TYPE_COMMAND && it.frame.msgId == x.msgId && it.frame.target == x.target && it.frame.payload == x.payload
        else it.frame == h.others[OtherTag(it.tag)])
  }

  predicate Carries(pc: CallerPc) { pc.Building? || pc.Holding? }

  ghost predicate AllAsked(s: Node) {
    && (forall i :: 0 <= i < |s.callers| && Carries(s.callers[i]) ==> Asked(s.hist, CallerItem(s, s.callers[i])))
    && (forall i :: 0 <= i < |s.hist.txIn| ==> Asked(s.hist, s.hist.txIn[i]))
  }

  function Tags(items: seq<Tagged>): seq<int> { seq(|items|, i requires 0 <= i < |items| => items[i].tag) }

  /** The tags of the frames that are in callers' hands or have been queued. */
  function Issued(s: Node): multiset<int> { multiset(Tags(CallerItems(s))) + multiset(Tags(s.hist.txIn)) }

  predicate IssuedOnce(s: Node, t: int) { Issued(s)[t] <= OneIf(IsCall(s.hist, t)) }

  ghost predicate Requested(s: Node) { AllAsked(s) && forall t: int :: t != NO_TAG ==> IssuedOnce(s, t) }

  // ---- the steps -----------------------------------------------------------------------------------

  /** What a caller's step does to the frame in its hand. */
  lemma ItemMoves(cfg: Config, s: Node, a: Action)
    requires Enabled(cfg, s, a) && CallerAction(a) && !a.Command? && !a.RespondOrNotify?
    ensures var n := Apply(cfg, s, a);
      var before, after := CallerItem(s, s.callers[a.caller]), CallerItem(n, n.callers[a.caller]);
      && n.hist.txIn == s.hist.txIn + (if a.Enqueue? && !TxFull(s.core) then [before] else [])
      && (after != NOTHING ==> after == before && !a.Enqueue?)
      && (Carries(n.callers[a.caller]) ==> Carries(s.callers[a.caller]) && after == before)
      && (a.Enqueue? ==> Carries(s.callers[a.caller]))
      && n.hist.allocs == s.hist.allocs && n.hist.others == s.hist.others
  {
  }

  /** A call that is taken up puts its frame into the caller's hand, under a new tag. */
  lemma CallMoves(cfg: Config, s: Node, a: Action)
    requires Enabled(cfg, s, a) && (a.Command? || a.RespondOrNotify?)
    ensures var n := Apply(cfg, s, a);
      var before, after := CallerItem(s, s.callers[a.caller]), CallerItem(n, n.callers[a.caller]);
      && before == NOTHING && n.hist.txIn == s.hist.txIn && s.hist.allocs <= n.hist.allocs && s.hist.others <= n.hist.others
      && (if n == s then after == NOTHING && !Carries(n.callers[a.caller])
          else !IsCall(s.hist, after.tag) && after.tag != NO_TAG && Asked(n.hist, after))
  {
  }

  lemma OthersMoveNothing(cfg: Config, s: Node, a: Action)
    requires Enabled(cfg, s, a) && !CallerAction(a)
    ensures var n := Apply(cfg, s, a);
      n.hist.txIn == s.hist.txIn && n.hist.allocs == s.hist.allocs && n.hist.others == s.hist.others && n.callers == s.callers
  {
  }

  lemma AskedStays(h: History, h': History, it: Tagged)
    requires Asked(h, it) && h.allocs <= h'.allocs && h.others <= h'.others
    ensures Asked(h', it)
  {
  }

  lemma CallsGrow(cfg: Config, s: Node, a: Action)
    requires Enabled(cfg, s, a)
    ensures var n := Apply(cfg, s, a); s.hist.allocs <= n.hist.allocs && s.hist.others <= n.hist.others
  {
    if a.Command? || a.RespondOrNotify? {
      CallMoves(cfg, s, a);
    } else if CallerAction(a) {
      ItemMoves(cfg, s, a);
    } else {
      OthersMoveNothing(cfg, s, a);
    }
  }

  lemma ItemsAfter(cfg: Config, s: Node, a: Action)
    requires Sound(cfg, s) && Enabled(cfg, s, a)
    ensures var n := Apply(cfg, s, a);
      |n.callers| == |s.callers| &&
      CallerItems(n) == if CallerAction(a) then CallerItems(s)[a.caller := CallerItem(n, n.callers[a.caller])] else CallerItems(s)
  {
    if CallerAction(a) {
      CallerItemsStep(cfg, s, a);
    } else {
      OtherCallersKept(cfg, s, a);
      CallerItemsKept(cfg, s, a);
    }
  }

  lemma CallerAsked(cfg: Config, s: Node, a: Action)
    requires AllAsked(s) && Enabled(cfg, s, a) && CallerAction(a)
    ensures var n := Apply(cfg, s, a); Carries(n.callers[a.caller]) ==> Asked(n.hist, CallerItem(n, n.callers[a.caller]))
  {
    var n := Apply(cfg, s, a);
    if a.Command? || a.RespondOrNotify? {
      CallMoves(cfg, s, a);
    } else {
      ItemMoves(cfg, s, a);
      if Carries(n.callers[a.caller]) {
        AskedStays(s.hist, n.hist, CallerItem(s, s.callers[a.caller]));
      }
    }
  }

  lemma QueuedAsked(cfg: Config, s: Node, a: Action)
    requires AllAsked(s) && Enabled(cfg, s, a)
    ensures var n := Apply(cfg, s, a); forall i :: 0 <= i < |n.hist.txIn| ==> Asked(n.hist, n.hist.txIn[i])
  {
    var n := Apply(cfg, s, a);
    CallsGrow(cfg, s, a);
    if a.Command? || a.RespondOrNotify? {
      CallMoves(cfg, s, a);
    } else if CallerAction(a) {
      ItemMoves(cfg, s, a);
    } else {
      OthersMoveNothing(cfg, s, a);
    }
    forall i | 0 <= i < |n.hist.txIn| ensures Asked(n.hist, n.hist.txIn[i]) {
      AskedStays(s.hist, n.hist, if i < |s.hist.txIn| then s.hist.txIn[i] else CallerItem(s, s.callers[a.caller]));
    }
  }

  lemma StepAsked(cfg: Config, s: Node, a: Action)
    requires Sound(cfg, s) && AllAsked(s) && Enabled(cfg, s, a)
    ensures AllAsked(Apply(cfg, s, a))
  {
    var n := Apply(cfg, s, a);
    ItemsAfter(cfg, s, a);
    OtherCallersKept(cfg, s, a);
    CallsGrow(cfg, s, a);
    forall i | 0 <= i < |n.callers| && Carries(n.callers[i]) ensures Asked(n.hist, CallerItem(n, n.callers[i])) {
      assert CallerItems(n)[i] == CallerItem(n, n.callers[i]) && CallerItems(s)[i] == CallerItem(s, s.callers[i]);
      if CallerAction(a) && i == a.caller {
        CallerAsked(cfg, s, a);
      } else {
        AskedStays(s.hist, n.hist, CallerItem(s, s.callers[i]));
      }
    }
    QueuedAsked(cfg, s, a);
  }

  lemma TagsUpdate(items: seq<Tagged>, i: nat, it: Tagged, t: int)
    requires i < |items|
    ensures multiset(Tags(items[i := it]))[t] + OneIf(items[i].tag == t) == multiset(Tags(items))[t] + OneIf(it.tag == t)
  {
    assert Tags(items[i := it]) == Tags(items)[i := it.tag];
    assert Tags(items)[i] == items[i].tag;
  }

  lemma TagsAppend(items: seq<Tagged>, it: Tagged, t: int)
    ensures multiset(Tags(items + [it]))[t] == multiset(Tags(items))[t] + OneIf(it.tag == t)
  {
    assert Tags(items + [it]) == Tags(items) + [it.tag];
  }

  /** A caller's step puts the tag of the frame it takes up in place of the one it gives away. */
  lemma CallerIssues(cfg: Config, s: Node, a: Action, t: int)
    requires Sound(cfg, s) && Enabled(cfg, s, a) && CallerAction(a)
    ensures var n := Apply(cfg, s, a);
      var before, after := CallerItem(s, s.callers[a.caller]), CallerItem(n, n.callers[a.caller]);
      && (n.hist.txIn == s.hist.txIn ==> Issued(n)[t] + OneIf(before.tag == t) == Issued(s)[t] + OneIf(after.tag == t))
      && (n.hist.txIn == s.hist.txIn + [before] ==> Issued(n)[t] == Issued(s)[t] + OneIf(after.tag == t))
  {
    var n := Apply(cfg, s, a);
    var before, after := CallerItem(s, s.callers[a.caller]), CallerItem(n, n.callers[a.caller]);
    ItemsAfter(cfg, s, a);
    assert CallerItems(s)[a.caller] == before;
    TagsUpdate(CallerItems(s), a.caller, after, t);
    TagsAppend(s.hist.txIn, before, t);
  }

  lemma StepIssued(cfg: Config, s: Node, a: Action, t: int)
    requires Sound(cfg, s) && IssuedOnce(s, t) && t != NO_TAG && Enabled(cfg, s, a)
    ensures IssuedOnce(Apply(cfg, s, a), t)
  {
    var n := Apply(cfg, s, a);
    CallsGrow(cfg, s, a);
    assert IsCall(s.hist, t) ==> IsCall(n.hist, t);
    if a.Command? || a.RespondOrNotify? {
      CallerIssues(cfg, s, a, t);
      CallMoves(cfg, s, a);
    } else if CallerAction(a) {
      CallerIssues(cfg, s, a, t);
      ItemMoves(cfg, s, a);
    } else {
      OthersMoveNothing(cfg, s, a);
      ItemsAfter(cfg, s, a);
    }
  }

  /** Every step keeps: a frame in a caller's hand or enqueued is what its call asked for, and each call has at
      most one. */
  lemma StepRequested(cfg: Config, s: Node, a: Action)
    requires Sound(cfg, s) && Requested(s) && Enabled(cfg, s, a)
    ensures Requested(Apply(cfg, s, a))
  {
    StepAsked(cfg, s, a);
    forall t: int | t != NO_TAG ensures IssuedOnce(Apply(cfg, s, a), t) {
      assert IssuedOnce(s, t);
      StepIssued(cfg, s, a, t);
    }
  }

  lemma {:induction false} AlwaysRequested(r: Rules, cfg: Config, s: Node, run: seq<Action>)
    requires Sound(cfg, s) && Requested(s) && Runs(r, cfg, s, run)
    ensures Requested(Exec(r, cfg, s, run))
    decreases run
  {
    if run != [] {
      StepKeepsSound(cfg, s, run[0]);
      StepRequested(cfg, s, run[0]);
      AlwaysRequested(r, cfg, Apply(cfg, s, run[0]), run[1..]);
    }
  }

  lemma InitIsRequested(cfg: Config, callers: nat, clock: nat)
    ensures Requested(Init(cfg, callers, clock))
  {
    var s := Init(cfg, callers, clock);
    forall t: int | t != NO_TAG ensures IssuedOnce(s, t) {
      assert forall i :: 0 <= i < |Tags(CallerItems(s))| ==> Tags(CallerItems(s))[i] == NO_TAG;
      assert t !in Tags(CallerItems(s));
    }
  }

  // ---- whole runs -----------------------------------------------------------------------------------

  /** The frame that a call of the run asked for: that of an accepted command, with the id it got, or the very
      frame of icmp_respond or icmp_notify. */
  predicate AskedInRun(commands: seq<Action>, others: seq<Frame>, it: Tagged)
    requires forall k :: 0 <= k < |commands| ==> commands[k].Command?
  {
    if it.tag >= 0
    then it.tag < |commands| && it.frame.kind == TYPE_COMMAND && it.frame.target == commands[it.tag].target && it.frame.payload == commands[it.tag].payload
    else 0 <= OtherTag(it.tag) < |others| && it.frame == others[OtherTag(it.tag)]
  }

  lemma RepeatedTag(q: seq<Tagged>, i: nat, j: nat)
    requires i < j < |q| && q[i].tag == q[j].tag
    ensures multiset(Tags(q))[q[i].tag] >= 2
  {
    var t := Tags(q);
    assert t == t[..j] + [t[j]] + t[j + 1..];
    assert t[..j][i] == t[j];
  }

  /** In every run, each frame that was enqueued, and so each one handed to the PHY, is the frame that one call
      of the run asked for, with that call's target and payload, and no two of them are of the same call. */
  lemma SentAsAsked(r: Rules, cfg: Config, callers: nat, clock: nat, run: seq<Action>)
    requires Runs(r, cfg, Init(cfg, callers, clock), run)
    ensures var h := Exec(r, cfg, Init(cfg, callers, clock), run).hist;
      var commands, others := Commands(r, cfg, Init(cfg, callers, clock), run), Others(cfg, run);
      && h.txOut <= h.txIn
      && (forall i :: 0 <= i < |h.txIn| ==> AskedInRun(commands, others, h.txIn[i]))
      && (forall i, j :: 0 <= i < j < |h.txIn| ==> h.txIn[i].tag != h.txIn[j].tag)
  {
    var s0 := Init(cfg, callers, clock);
    InitIsSound(cfg, callers, clock);
    InitIsRequested(cfg, callers, clock);
    AlwaysRequested(r, cfg, s0, run);
    FirstInFirstOut(r, cfg, callers, clock, run);
    HistoryAgrees(r, cfg, callers, clock, run);
    var s, commands := Exec(r, cfg, s0, run), Commands(r, cfg, s0, run);
    forall i | 0 <= i < |s.hist.txIn| ensures AskedInRun(commands, Others(cfg, run), s.hist.txIn[i]) {
      var it := s.hist.txIn[i];
      assert Asked(s.hist, it);
      assert it.tag >= 0 ==> RecordOf(s.hist.allocs[it.tag], commands[it.tag]);
    }
    forall i, j | 0 <= i < j < |s.hist.txIn| ensures s.hist.txIn[i].tag != s.hist.txIn[j].tag {
      assert Asked(s.hist, s.hist.txIn[i]) && IssuedOnce(s, s.hist.txIn[i].tag);
      if s.hist.txIn[i].tag == s.hist.txIn[j].tag {
        RepeatedTag(s.hist.txIn, i, j);
      }
    }
  }
}
