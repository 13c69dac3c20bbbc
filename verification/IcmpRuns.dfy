/** Runs of an ICMP node, free or under the rules that a property assumes of its environment. */
module IcmpRuns {
  import opened Common
  import opened Wire
  import opened IcmpState
  import opened IcmpNode

  /** Each rule restricts the next action by the state it is taken in:
      - `peer`: a response that arrives answers a command that the PHY has sent, with its message id, and
        is the first one for that command;
      - `onTime`: no response to a command that has been aged out is dispatched, which is what
        lib/icmp/Kconfig asks of ICMP hosts;
      - `sendsSucceed`: a command that got a message id also gets a frame and a place in the queue;
      - `stampedOnly`: a response that finds a callback finds a stamped entry;
      - `period`: the clock never gets further ahead of the last timeout scan than this. */
  datatype Rules = Rules(peer: bool, onTime: bool, sendsSucceed: bool, stampedOnly: bool, period: Option<nat>)

  const FREE := Rules(false, false, false, false, None)

  /** The command with serial number `t` was given the message id `m`. */
  predicate HasId(s: Node, t: int, m: nat) { 0 <= t < |s.hist.allocs| && s.hist.allocs[t].msgId == m }

  /** A command got an id, but no block or no place in the queue. */
  predicate SendFails(cfg: Config, s: Node, a: Action)
    requires Enabled(cfg, s, a)
  {
    || (a.TakeFrame? && s.callers[a.caller].frame.kind == TYPE_COMMAND && SlabFull(cfg, s.core))
    || (a.Enqueue? && FrameAt(s.core, s.callers[a.caller].block).kind == TYPE_COMMAND && TxFull(s.core))
  }

  predicate Obeys(r: Rules, cfg: Config, s: Node, a: Action)
    requires Enabled(cfg, s, a)
  {
    match a
    case UartFinish(_, Some(f), t) =>
      r.peer && f.kind == TYPE_RESPONSE ==> t in s.hist.wire && t !in s.hist.answered && HasId(s, t, f.msgId)
    case TakeFrame(_, _) => r.sendsSucceed ==> !SendFails(cfg, s, a)
    case Enqueue(_) => r.sendsSucceed ==> !SendFails(cfg, s, a)
    case HandlerCheck(_) =>
      s.core.ctxFrame.Some? ==>
        var b := s.core.ctxFrame.value;
        var f := FrameAt(s.core, b);
        && (r.onTime && f.kind == TYPE_RESPONSE ==> TagOf(s, b) !in s.hist.expired)
        && (r.stampedOnly && HasResponseCallback(s.core, f) ==> s.core.table[f.msgId].timestamp != SEND_PENDING)
    case Tick(d) => r.period.Some? ==> s.clock + d <= s.hist.lastScan + r.period.value
    case _ => true
  }

  predicate Runs(r: Rules, cfg: Config, s: Node, run: seq<Action>)
    decreases run
  {
    run == [] || (Enabled(cfg, s, run[0]) && Obeys(r, cfg, s, run[0]) && Runs(r, cfg, Apply(cfg, s, run[0]), run[1..]))
  }

  function Exec(r: Rules, cfg: Config, s: Node, run: seq<Action>): Node
    requires Runs(r, cfg, s, run)
    decreases run
  {
    if run == [] then s else Exec(r, cfg, Apply(cfg, s, run[0]), run[1..])
  }

  /** Every run is also a free run, with the same outcome. */
  lemma {:induction false} RunsAreFree(r: Rules, cfg: Config, s: Node, run: seq<Action>)
    requires Runs(r, cfg, s, run)
    ensures Runs(FREE, cfg, s, run) && Exec(FREE, cfg, s, run) == Exec(r, cfg, s, run)
    decreases run
  {
    if run != [] {
      RunsAreFree(r, cfg, Apply(cfg, s, run[0]), run[1..]);
    }
  }

  lemma {:induction false} RunsAppend(r: Rules, cfg: Config, s: Node, a: seq<Action>, b: seq<Action>)
    requires Runs(r, cfg, s, a) && Runs(r, cfg, Exec(r, cfg, s, a), b)
    ensures Runs(r, cfg, s, a + b) && Exec(r, cfg, s, a + b) == Exec(r, cfg, Exec(r, cfg, s, a), b)
    decreases a
  {
    if a == [] {
      assert a + b == b;
    } else {
      assert (a + b)[0] == a[0] && (a + b)[1..] == a[1..] + b;
      RunsAppend(r, cfg, Apply(cfg, s, a[0]), a[1..], b);
    }
  }
}
