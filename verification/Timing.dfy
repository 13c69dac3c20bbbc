/** The timeout window. The clock only moves forward, so the age of an entry is a plain difference and the
    64-bit unsigned comparison of the source never wraps. */
module Timing {
  import opened Common
  import opened Wire
  import opened IcmpState
  import opened IcmpNode
  import opened IcmpRuns
  import opened Ownership
  import opened Serials
  import opened Fifo
  import opened Pending
  import opened Matching
  import opened Sending

  predicate Timely(cfg: Config, s: Node, m: nat) {
    m < |s.core.table| && s.core.table[m].timestamp != SEND_PENDING ==>
      0 < s.core.table[m].timestamp <= s.clock && s.hist.lastScan <= s.core.table[m].timestamp + cfg.maxAge
  }

  ghost predicate TimesOk(cfg: Config, s: Node) {
    && s.hist.lastScan <= s.clock < CLOCK_LIMIT
    && forall m :: m in s.core.inflight ==> Timely(cfg, s, m)
  }

  /** The scan drops an entry exactly when it has been sent and is older than the limit. */
  lemma ScanIsExact(cfg: Config, s: Node, m: nat)
    requires Shape(cfg, s) && TimesOk(cfg, s) && m in s.core.inflight
    ensures m in ExpiredIds(s.core, s.clock, cfg.maxAge) <==>
            s.core.table[m].timestamp != SEND_PENDING && s.clock - s.core.table[m].timestamp > cfg.maxAge
  {
    assert Timely(cfg, s, m);
    var age := s.clock - s.core.table[m].timestamp;
    if s.core.table[m].timestamp != SEND_PENDING {
      SmallModulo(age, UINT64_RANGE);
    }
  }

  lemma SmallModulo(x: int, n: int)
    requires 0 <= x < n
    ensures x % n == x
  {
  }

  lemma StepKeepsTimes(cfg: Config, s: Node, a: Action)
    requires Sound(cfg, s) && TimesOk(cfg, s) && Enabled(cfg, s, a)
    ensures TimesOk(cfg, Apply(cfg, s, a))
  {
    var n := Apply(cfg, s, a);
    ClockMoves(cfg, s, a);
    if a.Timeout? {
      ScanKeepsTimes(cfg, s, a.locked);
    } else if ChangesIds(a) || a.Stamp? {
      forall m | m in n.core.inflight ensures Timely(cfg, n, m) {
        assert m in s.core.inflight ==> Timely(cfg, s, m);
      }
    } else {
      OtherStepsKeepIds(cfg, s, a);
      TableKept(cfg, s, a);
      forall m | m in n.core.inflight ensures Timely(cfg, n, m) {
        assert Timely(cfg, s, m);
      }
    }
  }

  lemma ClockMoves(cfg: Config, s: Node, a: Action)
    requires Enabled(cfg, s, a)
    ensures var n := Apply(cfg, s, a);
      && (a.Tick? ==> s.clock <= n.clock < CLOCK_LIMIT && n.hist.lastScan == s.hist.lastScan)
      && (!a.Tick? ==> n.clock == s.clock)
      && (!a.Timeout? ==> n.hist.lastScan == s.hist.lastScan)
  {
  }

  lemma ScanKeepsTimes(cfg: Config, s: Node, locked: bool)
    requires Shape(cfg, s) && TimesOk(cfg, s)
    ensures TimesOk(cfg, TimeoutStep(cfg, s, locked))
  {
    var n := TimeoutStep(cfg, s, locked);
    forall m | m in n.core.inflight ensures Timely(cfg, n, m) {
      assert Timely(cfg, s, m);
      ScanIsExact(cfg, s, m);
    }
  }

  lemma {:induction false} AlwaysTimely(r: Rules, cfg: Config, s: Node, run: seq<Action>)
    requires Sound(cfg, s) && TimesOk(cfg, s) && Runs(r, cfg, s, run)
    ensures Sound(cfg, Exec(r, cfg, s, run)) && TimesOk(cfg, Exec(r, cfg, s, run))
    decreases run
  {
    if run != [] {
      StepKeepsSound(cfg, s, run[0]);
      StepKeepsTimes(cfg, s, run[0]);
      AlwaysTimely(r, cfg, Apply(cfg, s, run[0]), run[1..]);
    }
  }

  /** The clock is never further than the period from the last scan. */
  lemma {:induction false} AlwaysScanned(r: Rules, cfg: Config, s: Node, run: seq<Action>)
    requires r.period.Some? && s.clock <= s.hist.lastScan + r.period.value && Runs(r, cfg, s, run)
    ensures var t := Exec(r, cfg, s, run); t.clock <= t.hist.lastScan + r.period.value
    decreases run
  {
    if run != [] {
      ScanStep(r, cfg, s, run[0]);
      AlwaysScanned(r, cfg, Apply(cfg, s, run[0]), run[1..]);
    }
  }

  lemma ScanStep(r: Rules, cfg: Config, s: Node, a: Action)
    requires r.period.Some? && s.clock <= s.hist.lastScan + r.period.value && Enabled(cfg, s, a) && Obeys(r, cfg, s, a)
    ensures var t := Apply(cfg, s, a); t.clock <= t.hist.lastScan + r.period.value
  {
    if !a.Timeout? {
      ClockMoves(cfg, s, a);
    }
  }

  /** With scans at most a period apart, no sent entry is in flight longer than the age limit and one period
      after its stamp: in every run, disciplined or not. */
  lemma NeverTooOld(r: Rules, cfg: Config, callers: nat, clock: nat, run: seq<Action>, m: nat)
    requires clock < CLOCK_LIMIT && r.period.Some? && Runs(r, cfg, Init(cfg, callers, clock), run)
    ensures var t := Exec(r, cfg, Init(cfg, callers, clock), run);
      m in t.core.inflight && m < |t.core.table| && t.core.table[m].timestamp != SEND_PENDING ==>
        t.clock - t.core.table[m].timestamp <= cfg.maxAge + r.period.value
  {
    var s := Init(cfg, callers, clock);
    InitIsSound(cfg, callers, clock);
    AlwaysTimely(r, cfg, s, run);
    AlwaysScanned(r, cfg, s, run);
    var t := Exec(r, cfg, s, run);
    assert m in t.core.inflight ==> Timely(cfg, t, m);
  }

  // ---- one command, from its stamp on ---------------------------------------------------------------

  /** Where the allocation `g`, stamped at time `at`, can stand: still in flight with its stamp, settled by
      its response, or aged out, and then it was older than the limit. */
  ghost predicate Tracked(cfg: Config, s: Node, g: int, at: int) {
    && 0 <= g < |s.hist.allocs|
    && (g in s.hist.cleared
        || (g in s.hist.expired && s.clock - at > cfg.maxAge)
        || StillSent(s, g, at))
  }

  predicate StillSent(s: Node, g: int, at: int) {
    Live(s, g) && s.hist.allocs[g].msgId < |s.core.table| && s.core.table[s.hist.allocs[g].msgId].timestamp == at != SEND_PENDING
  }

  lemma TrackedStep(cfg: Config, s: Node, a: Action, g: int, at: int)
    requires Paced(cfg, s) && TimesOk(cfg, s) && Tracked(cfg, s, g, at) && Enabled(cfg, s, a)
    ensures Tracked(cfg, Apply(cfg, s, a), g, at)
  {
    var n := Apply(cfg, s, a);
    ClockMoves(cfg, s, a);
    assert SettledOk(s, g);
    if !StillSent(s, g, at) {
      SettledForGood(cfg, s, a);
    } else if a.Timeout? {
      TrackedScan(cfg, s, a.locked, g, at);
    } else if a.HandlerClear? {
      TrackedClear(cfg, s, g, at);
    } else if a.Stamp? {
      TrackedStamp(cfg, s, g, at);
    } else if !a.Command? {
      OtherStepsKeepIds(cfg, s, a);
      TableKept(cfg, s, a);
    }
  }

  lemma SettledForGood(cfg: Config, s: Node, a: Action)
    requires Enabled(cfg, s, a)
    ensures var n := Apply(cfg, s, a);
      s.hist.cleared <= n.hist.cleared && s.hist.expired <= n.hist.expired && |s.hist.allocs| <= |n.hist.allocs| && s.clock <= n.clock
  {
  }

  lemma TrackedScan(cfg: Config, s: Node, locked: bool, g: int, at: int)
    requires Paced(cfg, s) && TimesOk(cfg, s) && StillSent(s, g, at)
    ensures Tracked(cfg, TimeoutStep(cfg, s, locked), g, at)
  {
    var m := s.hist.allocs[g].msgId;
    ScanIsExact(cfg, s, m);
    if locked && m in ExpiredIds(s.core, s.clock, cfg.maxAge) {
      assert g == OwnerOf(s, m);
      assert g in TimeoutStep(cfg, s, locked).hist.expired;
    }
  }

  lemma TrackedClear(cfg: Config, s: Node, g: int, at: int)
    requires Paced(cfg, s) && StillSent(s, g, at) && s.work.InCallback?
    ensures Tracked(cfg, HandlerClearStep(s), g, at)
  {
  }

  /** A later stamp goes to another entry: the tracked one is no longer pending. */
  lemma TrackedStamp(cfg: Config, s: Node, g: int, at: int)
    requires Paced(cfg, s) && StillSent(s, g, at) && s.thread.Stamping? && s.clock > 0
    ensures Tracked(cfg, StampStep(s), g, at)
  {
    if FrameAt(s.core, s.thread.block).kind == TYPE_COMMAND {
      StampHitsOwnEntry(cfg, s);
    }
  }

  lemma {:induction false} AlwaysTracked(r: Rules, cfg: Config, s: Node, run: seq<Action>, g: int, at: int)
    requires Paced(cfg, s) && TimesOk(cfg, s) && Tracked(cfg, s, g, at)
    requires r.stampedOnly && Runs(r, cfg, s, run)
    ensures var t := Exec(r, cfg, s, run); Paced(cfg, t) && TimesOk(cfg, t) && Tracked(cfg, t, g, at)
    decreases run
  {
    if run != [] {
      TrackedStep(cfg, s, run[0], g, at);
      StepKeepsPaced(r, cfg, s, run[0]);
      StepKeepsTimes(cfg, s, run[0]);
      AlwaysTracked(r, cfg, Apply(cfg, s, run[0]), run[1..], g, at);
    }
  }

  /** The stamp of a command's frame starts its window: its own entry gets the present time. */
  lemma StampStartsWindow(cfg: Config, s: Node)
    requires Paced(cfg, s) && s.thread.Stamping? && s.clock > 0 && FrameAt(s.core, s.thread.block).kind == TYPE_COMMAND
    ensures StillSent(StampStep(s), TagOf(s, s.thread.block), s.clock)
  {
    StampHitsOwnEntry(cfg, s);
    var it := At(s, s.thread.block);
    assert LatestOf(s.hist.allocs, it.frame.msgId, s.hist.owner[it.frame.msgId]);
  }

  lemma TimeoutWindow(r: Rules, cfg: Config, s: Node, run: seq<Action>, g: int, at: int)
    requires Paced(cfg, s) && TimesOk(cfg, s) && StillSent(s, g, at)
    requires r.stampedOnly && r.period.Some? && s.clock <= s.hist.lastScan + r.period.value
    requires Runs(r, cfg, s, run)
    ensures var t := Exec(r, cfg, s, run);
      g !in t.hist.cleared ==>
        && (t.clock - at <= cfg.maxAge ==> StillSent(t, g, at))
        && (t.clock - at > cfg.maxAge + r.period.value ==> g in t.hist.expired && !Live(t, g))
  {
    AlwaysTracked(r, cfg, s, run, g, at);
    AlwaysScanned(r, cfg, s, run);
    var t := Exec(r, cfg, s, run);
    assert SettledOk(t, g);
    if StillSent(t, g, at) {
      assert Timely(cfg, t, t.hist.allocs[g].msgId);
    }
  }

  // ---- whole runs ----------------------------------------------------------------------------------

  /** In every run whose responses come after the stamp or from a well-behaved peer, with scans at most a
      period apart, whether sends fail or not: when `before` has led to a state in which the command `g` has
      been stamped at time `at`, then however the run goes on, while `g` is unanswered it is in flight with
      that stamp up to the age limit, and it is aged out once the limit and one period have passed. */
  lemma TimeoutWindowInRuns(r: Rules, cfg: Config, callers: nat, clock: nat, before: seq<Action>, after: seq<Action>, g: int, at: int)
    requires clock < CLOCK_LIMIT && Answered(r) && r.period.Some?
    requires Runs(r, cfg, Init(cfg, callers, clock), before)
    requires StillSent(Exec(r, cfg, Init(cfg, callers, clock), before), g, at)
    requires Runs(r, cfg, Exec(r, cfg, Init(cfg, callers, clock), before), after)
    ensures Runs(r, cfg, Init(cfg, callers, clock), before + after)
    ensures var t := Exec(r, cfg, Init(cfg, callers, clock), before + after);
      g !in t.hist.cleared ==>
        && (t.clock - at <= cfg.maxAge ==> StillSent(t, g, at))
        && (t.clock - at > cfg.maxAge + r.period.value ==> g in t.hist.expired && !Live(t, g))
  {
    var init := Init(cfg, callers, clock);
    var s := Exec(r, cfg, init, before);
    RunsAppend(r, cfg, init, before, after);
    PacedFromStart(r, cfg, callers, clock, before);
    InitIsSound(cfg, callers, clock);
    AlwaysTimely(r, cfg, init, before);
    AlwaysScanned(r, cfg, init, before);
    if r.stampedOnly {
      TimeoutWindow(r, cfg, s, after, g, at);
    } else {
      InitIsGood(cfg, callers, clock);
      AlwaysGood(r, cfg, init, before);
      PeerRunsAreStamped(r, cfg, s, after);
      TimeoutWindow(r.(stampedOnly := true), cfg, s, after, g, at);
    }
  }

  /** The stamp starts the window: in every such run, the step that stamps a command puts the present time
      into that command's own entry. */
  lemma StampsStartWindows(r: Rules, cfg: Config, callers: nat, clock: nat, run: seq<Action>)
    requires Answered(r) && Runs(r, cfg, Init(cfg, callers, clock), run)
    ensures var s := Exec(r, cfg, Init(cfg, callers, clock), run);
      s.thread.Stamping? && s.clock > 0 && FrameAt(s.core, s.thread.block).kind == TYPE_COMMAND ==>
        StillSent(StampStep(s), TagOf(s, s.thread.block), s.clock)
  {
    PacedFromStart(r, cfg, callers, clock, run);
    var s := Exec(r, cfg, Init(cfg, callers, clock), run);
    if s.thread.Stamping? && s.clock > 0 && FrameAt(s.core, s.thread.block).kind == TYPE_COMMAND {
      StampStartsWindow(cfg, s);
    }
  }

  // ---- the lower half without any rule ----------------------------------------------------------------

  /** The command `g`, stamped at `at`, has not been aged out too early, and is still in flight, with that
      stamp or a later one, unless it has been removed. */
  ghost predicate NotEarly(cfg: Config, s: Node, g: int, at: int) {
    && 0 <= g < |s.hist.allocs| && 0 < at <= s.clock
    && (g in s.hist.expired ==> s.clock - at > cfg.maxAge)
    && (Live(s, g) ==> StampedSince(s, s.hist.allocs[g].msgId, at))
  }

  predicate StampedSince(s: Node, m: nat, at: int) { m < |s.core.table| && s.core.table[m].timestamp >= at }

  lemma NotEarlyScan(cfg: Config, s: Node, locked: bool, g: int, at: int)
    requires Sound(cfg, s) && Serial(cfg, s) && TimesOk(cfg, s) && NotEarly(cfg, s, g, at)
    ensures NotEarly(cfg, TimeoutStep(cfg, s, locked), g, at)
  {
    var n, aged := TimeoutStep(cfg, s, locked), ExpiredIds(s.core, s.clock, cfg.maxAge);
    if g in n.hist.expired && g !in s.hist.expired {
      var m :| m in aged && g == OwnerOf(s, m);
      assert LatestOf(s.hist.allocs, m, s.hist.owner[m]);
      ScanIsExact(cfg, s, m);
    }
  }

  lemma NotEarlyStep(cfg: Config, s: Node, a: Action, g: int, at: int)
    requires Sound(cfg, s) && Serial(cfg, s) && TimesOk(cfg, s) && NotEarly(cfg, s, g, at) && Enabled(cfg, s, a)
    ensures NotEarly(cfg, Apply(cfg, s, a), g, at)
  {
    ClockMoves(cfg, s, a);
    if a.Timeout? {
      NotEarlyScan(cfg, s, a.locked, g, at);
    } else if a.Command? || a.HandlerClear? || a.Stamp? {
      NotEarlyWrite(cfg, s, a, g, at);
    } else {
      OtherStepsKeepIds(cfg, s, a);
      TableKept(cfg, s, a);
      ExpiredKept(cfg, s, a);
    }
  }

  lemma NotEarlyWrite(cfg: Config, s: Node, a: Action, g: int, at: int)
    requires Sound(cfg, s) && Serial(cfg, s) && NotEarly(cfg, s, g, at)
    requires Enabled(cfg, s, a) && (a.Command? || a.HandlerClear? || a.Stamp?)
    ensures NotEarly(cfg, Apply(cfg, s, a), g, at)
  {
  }

  lemma ExpiredKept(cfg: Config, s: Node, a: Action)
    requires Enabled(cfg, s, a) && !a.Timeout?
    ensures Apply(cfg, s, a).hist.expired == s.hist.expired
  {
  }

  lemma {:induction false} AlwaysNotEarly(r: Rules, cfg: Config, s: Node, run: seq<Action>, g: int, at: int)
    requires Sound(cfg, s) && Serial(cfg, s) && TimesOk(cfg, s) && NotEarly(cfg, s, g, at) && Runs(r, cfg, s, run)
    ensures Serial(cfg, Exec(r, cfg, s, run)) && NotEarly(cfg, Exec(r, cfg, s, run), g, at)
    decreases run
  {
    if run != [] {
      NotEarlyStep(cfg, s, run[0], g, at);
      StepKeepsSound(cfg, s, run[0]);
      StepKeepsSerial(cfg, s, run[0]);
      StepKeepsTimes(cfg, s, run[0]);
      AlwaysNotEarly(r, cfg, Apply(cfg, s, run[0]), run[1..], g, at);
    }
  }

  /** In every run, under no rule at all: a command that has been stamped is not aged out while its age is at
      most the limit; until then it is in flight or its response has been handled. */
  lemma NeverDroppedEarly(r: Rules, cfg: Config, callers: nat, clock: nat, before: seq<Action>, after: seq<Action>, g: int, at: int)
    requires clock < CLOCK_LIMIT && Runs(r, cfg, Init(cfg, callers, clock), before)
    requires StillSent(Exec(r, cfg, Init(cfg, callers, clock), before), g, at)
    requires Runs(r, cfg, Exec(r, cfg, Init(cfg, callers, clock), before), after)
    ensures var t := Exec(r, cfg, Exec(r, cfg, Init(cfg, callers, clock), before), after);
      t.clock - at <= cfg.maxAge ==> g !in t.hist.expired && (g in t.hist.cleared || Live(t, g))
  {
    var init := Init(cfg, callers, clock);
    var s := Exec(r, cfg, init, before);
    InitIsSound(cfg, callers, clock);
    InitIsSerial(cfg, callers, clock);
    AlwaysTimely(r, cfg, init, before);
    AlwaysSerial(r, cfg, init, before);
    assert SettledOk(s, g) && Timely(cfg, s, s.hist.allocs[g].msgId);
    AlwaysNotEarly(r, cfg, s, after, g, at);
    assert SettledOk(Exec(r, cfg, s, after), g);
  }
}
