/**
 lib/icmp/icmp.c itself: its globals as fields, its critical sections as methods over them. Each method is
 proved against the shared-state functions that the transition system of module IcmpNode is made of, and
 the whole operations (a command, a loop iteration, the dispatch handler) against that system's steps taken
 one after the other. A callback is given by its invocation; a kernel lock by whether it is obtained.
 */
module IcmpServer {
  import opened Common
  import opened Counting
  import opened Wire
  import opened Bitmap
  import IS = IcmpState
  import opened IcmpState
  import opened IcmpNode
  import opened Drain

  class Server {
    const cfg: Config
    var inflight: bv32
    const table: array<Entry>
    const dispatchCb: array<Option<Callback>>
    var slab: map<Block, Frame>
    var txQueue: seq<Block>
    var rxQueue: seq<Block>
    var workSem: nat
    var ctxFrame: Option<Block>
    var ctxCb: Option<Callback>
    var workPending: bool

    ghost predicate Valid()
      reads this
    {
      table.Length == cfg.ids && dispatchCb.Length == cfg.targets && Fits(inflight, cfg.ids)
    }

    /** The fields as the shared state of the model: the bitmap is the set of its bits. */
    ghost function View(): Core
      reads this, table, dispatchCb
    {
      Core(Bits(inflight, cfg.ids), table[..], dispatchCb[..], slab, txQueue, rxQueue, workSem, ctxFrame, ctxCb, workPending)
    }

    constructor (cfg: Config)
      ensures Valid() && this.cfg == cfg && fresh(table) && fresh(dispatchCb)
      ensures forall callers, clock :: View() == Init(cfg, callers, clock).core
    {
      this.cfg := cfg;
      inflight := 0;
      table := new Entry[cfg.ids](_ => CLEARED);
      dispatchCb := new Option<Callback>[cfg.targets](_ => None);
      slab, txQueue, rxQueue, workSem := map[], [], [], 1;
      ctxFrame, ctxCb, workPending := None, None, false;
      new;
      ZeroIsEmpty(cfg.ids);
      ZeroIsEmpty(32);
      assert table[..] == seq(cfg.ids, _ => CLEARED);
      assert dispatchCb[..] == seq(cfg.targets, _ => None);
    }

    /** icmp_register_target, against the step: only the given slot changes, and only when both arguments are
        valid. */
    method RegisterTarget(ghost s: Node, target: byte, callback: Option<Callback>) returns (r: int)
      requires Valid() && s.core == View()
      modifies dispatchCb
      ensures Valid()
      ensures r == if target >= cfg.targets || callback.None? then -EINVAL else 0
      ensures View() == if target < cfg.targets then Apply(cfg, s, Register(target, callback)).core else s.core
      ensures forall t :: 0 <= t < cfg.targets ==> dispatchCb[t] == if t == target && callback.Some? then callback else old(dispatchCb[t])
    {
      if target >= cfg.targets {
        return -EINVAL;
      }
      if callback == None {
        return -EINVAL;
      }
      dispatchCb[target] := callback;
      return 0;
    }

    /** The mutex region of icmp_command: the least free id, or -EAGAIN with nothing changed. */
    method ReserveId(cb: Option<Callback>, userData: int) returns (r: int)
      requires Valid()
      modifies this`inflight, table
      ensures Valid()
      ensures match LeastFree(old(View()).inflight, cfg.ids)
              case None => r == -EAGAIN && View() == old(View())
              case Some(m) => r == m && View() == IS.ReserveId(old(View()), m, cb, userData)
      ensures r >= 0 ==> r < cfg.ids && r !in old(View()).inflight && View().inflight == old(View()).inflight + {r}
      ensures r >= 0 ==> table[r].timestamp == 0 && table[r].callback == cb && table[r].userData == userData
      ensures forall m :: 0 <= m < cfg.ids && m != r ==> table[m] == old(table[m])
    {
      r := AllocateMsgId(inflight, cfg.ids);
      if r < 0 {
        return r;
      }
      SetRefines(inflight, r, cfg.ids);
      inflight := Or(inflight, Mask(r));
      table[r] := Entry(SEND_PENDING, cb, userData);
    }

    /** icmp_frame_alloc and the writes that fill the frame. */
    method AllocFrame(f: Frame) returns (r: int, b: Block)
      requires Valid()
      modifies this`slab
      ensures Valid()
      ensures r == (if SlabFull(cfg, old(View())) then -ENOMEM else 0)
      ensures View() == if r == 0 then IS.AllocFrame(old(View()), b, f) else old(View())
      ensures b !in old(slab)
    {
      FreshBlockExists(slab.Keys);
      b :| b !in slab;
      if |slab| >= cfg.slabFrames {
        return -ENOMEM, b;
      }
      slab := slab[b := f];
      return 0, b;
    }

    /** icmp_tx_enqueue with K_NO_WAIT. */
    method TxEnqueue(b: Block) returns (r: int)
      requires Valid()
      modifies this`txQueue
      ensures Valid()
      ensures r == if TxFull(old(View())) then -ENOMSG else 0
      ensures View() == if r == 0 then PutTx(old(View()), b) else old(View())
    {
      if |txQueue| >= QUEUE_MAX_ITEMS {
        return -ENOMSG;
      }
      txQueue := txQueue + [b];
      return 0;
    }

    /** The frame is the last one in the sending queue, in block `b`. */
    ghost predicate Queued(b: Block, f: Frame)
      reads this
    {
      txQueue != [] && txQueue[|txQueue| - 1] == b && b in slab && slab[b] == f
    }

    /** icmp_send_frame; a frame whose enqueue fails stays allocated. */
    method SendFrame(f: Frame) returns (r: int, b: Block)
      requires Valid()
      modifies this`slab, this`txQueue
      ensures Valid() && b !in old(slab)
      ensures r == if SlabFull(cfg, old(View())) then -ENOMEM else if TxFull(old(View())) then -ENOMSG else 0
      ensures View() == if SlabFull(cfg, old(View())) then old(View())
                        else if TxFull(old(View())) then IS.AllocFrame(old(View()), b, f)
                        else PutTx(IS.AllocFrame(old(View()), b, f), b)
      ensures r == 0 ==> Queued(b, f)
    {
      r, b := AllocFrame(f);
      if r != 0 {
        return r, b;
      }
      r := TxEnqueue(b);
    }

    /** icmp_command, against the three steps a caller takes; `lockError` is 0 when the mutex is obtained.
        A failed send leaves the entry it has made. */
    method Command(ghost s: Node, ghost i: nat, target: byte, payload: seq<byte>, lockError: int, cb: Option<Callback>, userData: int)
      returns (r: int, ghost b: Block)
      requires Valid() && s.core == View() && i < |s.callers| && s.callers[i].Idle? && lockError <= 0
      modifies this`inflight, this`slab, this`txQueue, table
      ensures Valid() && b !in old(slab)
      ensures View() == CallerSteps(cfg, s, IcmpNode.Command(i, lockError == 0, target, payload, cb, userData), b).core
      ensures if |payload| > cfg.maxPayload then r == -EINVAL
              else if lockError != 0 then r == lockError
              else if LeastFree(s.core.inflight, cfg.ids).None? then r == -EAGAIN
              else if SlabFull(cfg, s.core) then r == -ENOMEM
              else if TxFull(s.core) then r == -ENOMSG
              else r == 0
      ensures |payload| > cfg.maxPayload || lockError != 0 || LeastFree(s.core.inflight, cfg.ids).None? ==> View() == s.core
      ensures r == 0 ==>
                var m := LeastFree(s.core.inflight, cfg.ids).value;
                Queued(b, Frame(1, m, target, payload)) && View().inflight == s.core.inflight + {m}
                && table[m].callback == cb && table[m].userData == userData
    {
      FreshBlockExists(slab.Keys);
      b :| b !in slab;
      ghost var a := IcmpNode.Command(i, lockError == 0, target, payload, cb, userData);
      if |payload| > cfg.maxPayload {
        CommandStepsCore(cfg, s, a, b);
        return -EINVAL, b;
      }
      if lockError != 0 {
        CommandStepsCore(cfg, s, a, b);
        return lockError, b;
      }
      var msgId := ReserveId(cb, userData);
      if msgId < 0 {
        CommandStepsCore(cfg, s, a, b);
        return msgId, b;
      }
      r, b := SendFrame(Frame(TYPE_COMMAND, msgId, target, payload));
      CommandStepsCore(cfg, s, a, b);
    }

    /** icmp_respond, against the caller's steps. */
    method Respond(ghost s: Node, ghost i: nat, target: byte, msgId: byte, payload: seq<byte>) returns (r: int, ghost b: Block)
      requires Valid() && s.core == View() && i < |s.callers| && s.callers[i].Idle?
      modifies this`slab, this`txQueue
      ensures Valid() && b !in old(slab)
      ensures r == if |payload| > cfg.maxPayload then -EINVAL else SendResult(cfg, s.core)
      ensures View() == CallerSteps(cfg, s, RespondOrNotify(i, Frame(TYPE_RESPONSE, msgId, target, payload)), b).core
      ensures r == 0 ==> Queued(b, Frame(2, msgId, target, payload))
    {
      FreshBlockExists(slab.Keys);
      b :| b !in slab;
      ghost var f := Frame(TYPE_RESPONSE, msgId, target, payload);
      if |payload| > cfg.maxPayload {
        OtherStepsCore(cfg, s, i, f, b);
        return -EINVAL, b;
      }
      r, b := SendFrame(Frame(TYPE_RESPONSE, msgId, target, payload));
      OtherStepsCore(cfg, s, i, f, b);
    }

    /** icmp_notify, against the caller's steps. */
    method Notify(ghost s: Node, ghost i: nat, target: byte, payload: seq<byte>) returns (r: int, ghost b: Block)
      requires Valid() && s.core == View() && i < |s.callers| && s.callers[i].Idle?
      modifies this`slab, this`txQueue
      ensures Valid() && b !in old(slab)
      ensures r == if |payload| > cfg.maxPayload then -EINVAL else SendResult(cfg, s.core)
      ensures View() == CallerSteps(cfg, s, RespondOrNotify(i, Frame(TYPE_NOTIFY, NOTIFY_MSG_ID, target, payload)), b).core
      ensures r == 0 ==> Queued(b, Frame(3, 255, target, payload))
    {
      FreshBlockExists(slab.Keys);
      b :| b !in slab;
      ghost var f := Frame(TYPE_NOTIFY, NOTIFY_MSG_ID, target, payload);
      if |payload| > cfg.maxPayload {
        OtherStepsCore(cfg, s, i, f, b);
        return -EINVAL, b;
      }
      r, b := SendFrame(Frame(TYPE_NOTIFY, NOTIFY_MSG_ID, target, payload));
      OtherStepsCore(cfg, s, i, f, b);
    }

    /** The UART callback from its allocation on, against its two steps: the frame that was unpacked is queued,
        if there is room, and one that was not is freed. */
    method UartReceive(ghost s: Node, ghost i: nat, unpacked: Option<Frame>, ghost tag: int) returns (r: int, ghost b: Block)
      requires Valid() && s.core == View() && i < |s.callers| && s.callers[i].Idle?
      requires unpacked.Some? ==> unpacked.value.target < cfg.targets && (unpacked.value.kind == TYPE_RESPONSE ==> unpacked.value.msgId < 32)
      modifies this`slab, this`rxQueue
      ensures Valid() && b !in old(slab)
      ensures r == if SlabFull(cfg, s.core) then -ENOMEM else 0
      ensures View() == if r == 0 then Apply(cfg, Apply(cfg, s, UartTakeFrame(i, b)), IcmpNode.UartFinish(i, unpacked, tag)).core else s.core
      ensures r == 0 && unpacked.None? ==> slab == old(slab) && rxQueue == old(rxQueue)
      ensures r == 0 && unpacked.Some? && |old(rxQueue)| < 8 ==> rxQueue == old(rxQueue) + [b] && slab == old(slab)[b := unpacked.value]
    {
      var block;
      r, block := AllocFrame(Frame(0, 0, 0, []));
      b := block;
      if r == 0 {
        UartFinish(block, unpacked);
        assert unpacked.None? ==> slab == old(slab);
        UartStepsCore(cfg, s, i, b, unpacked, tag);
      }
    }

    /** What follows the allocation. */
    method UartFinish(b: Block, unpacked: Option<Frame>)
      requires Valid() && b in slab
      modifies this`slab, this`rxQueue
      ensures Valid()
      ensures View() == UartFinishCore(old(View()), b, unpacked)
    {
      if unpacked == None {
        slab := slab - {b};
        return;
      }
      slab := slab[b := unpacked.value];
      if |rxQueue| < QUEUE_MAX_ITEMS {
        rxQueue := rxQueue + [b];
      }
    }

    // ---- the timeout handler ---------------------------------------------------------------------

    /** icmp_inflight_timeout_handler, against the step. */
    method TimeoutHandler(ghost s: Node, locked: bool, now: int)
      requires Valid() && s.core == View() && s.clock == now
      modifies this`inflight, table
      ensures Valid()
      ensures View() == TimeoutStep(cfg, s, locked).core
      ensures !locked ==> View() == s.core
    {
      if locked {
        ScanInflight(now);
      }
    }

    /** Its part under the mutex: the scan of a shifting copy removes exactly the entries that are in flight,
        stamped and too old, and changes no other. */
    method ScanInflight(now: int)
      requires Valid()
      modifies this`inflight, table
      ensures Valid()
      ensures View() == ExpireIds(old(View()), now, cfg.maxAge)
      ensures View().inflight == set m |
                m in old(View()).inflight && !(old(table[m]).timestamp != 0 && (now - old(table[m]).timestamp) % UINT64_RANGE > cfg.maxAge)
    {
      if inflight == 0 {
        ZeroIsEmpty(cfg.ids);
        TableExpired(View(), table[..], now, cfg.maxAge);
        return;
      }
      ghost var was, entries, aged := inflight, table[..], ExpiredIds(View(), now, cfg.maxAge);
      var bitmap := inflight;
      for bit := 0 to cfg.ids
        invariant Valid() && bitmap == Shifted(was, bit)
        invariant Bits(inflight, cfg.ids) == Bits(was, cfg.ids) - (set m | m in aged && m < bit)
        invariant forall j :: 0 <= j < cfg.ids ==> table[j] == if j < bit && j in aged then CLEARED else entries[j]
      {
        LowBitOfCopy(was, bit, cfg.ids);
        if bitmap & 1 == 0 {
          bitmap := Half(bitmap);
          continue;
        }
        if table[bit].timestamp == SEND_PENDING {
          bitmap := Half(bitmap);
          continue;
        }
        if (now - table[bit].timestamp) % UINT64_RANGE > cfg.maxAge {
          ClearEntry(bit);
        }
        bitmap := Half(bitmap);
      }
      assert (set m | m in aged && m < cfg.ids) == aged;
      TableExpired(old(View()), table[..], now, cfg.maxAge);
    }

    /** One id's bit and entry. */
    method ClearEntry(m: nat)
      requires Valid() && m < cfg.ids
      modifies this`inflight, table
      ensures Valid() && Bits(inflight, cfg.ids) == Bits(old(inflight), cfg.ids) - {m}
      ensures table[m] == Entry(0, None, 0) && forall j :: 0 <= j < cfg.ids && j != m ==> table[j] == old(table[j])
    {
      ClearRefines(inflight, m, cfg.ids);
      inflight := AndNot(inflight, Mask(m));
      table[m] := CLEARED;
    }

    // ---- the dispatch handler ----------------------------------------------------------------------

    /** icmp_dispatch_handler up to the unlock: whether the response path is taken, and on the other path
        which target callback is invoked. */
    method HandlerCheck(locked: bool) returns (hit: bool, invoked: Option<Callback>)
      requires Valid() && ctxFrame.Some? && ctxFrame.value in slab
      requires slab[ctxFrame.value].kind == TYPE_RESPONSE ==> slab[ctxFrame.value].msgId < 32
      modifies this`workPending
      ensures Valid()
      ensures View() == old(View()).(workPending := false)
      ensures hit <==> locked && HasResponseCallback(old(View()), slab[ctxFrame.value])
      ensures hit ==> var f := slab[ctxFrame.value]; f.kind == 2 && f.msgId < cfg.ids && table[f.msgId].callback.Some?
      ensures invoked == if locked && !hit then ctxCb else None
    {
      workPending := false;
      if !locked {
        return false, None;
      }
      var f := slab[ctxFrame.value];
      if f.kind == TYPE_RESPONSE {
        IsBitSetRefines(inflight, f.msgId, cfg.ids);
        if Meets(inflight, Mask(f.msgId)) && table[f.msgId].callback != None {
          return true, None;
        }
      }
      return false, ctxCb;
    }

    /** The relock and the clear after the callback. */
    method HandlerClear(f: Frame)
      requires Valid() && f.msgId < cfg.ids
      modifies this`inflight, table
      ensures Valid() && View() == ClearId(old(View()), f.msgId)
    {
      ClearEntry(f.msgId);
      assert table[..] == old(table[..])[f.msgId := CLEARED];
    }

    /** icmp_dispatch_handler up to the callback that it invokes, against the handler's steps: `call` is the
        response callback, `target` the other one. */
    method DispatchBegin(ghost s: Node, locked: bool)
      returns (frame: Option<Block>, call: Option<(Option<Callback>, int, seq<byte>)>, target: Option<Callback>)
      requires Valid() && s.core == View() && s.work.NotRunning? && workPending
      requires ctxFrame.Some? ==> ctxFrame.value in slab && (slab[ctxFrame.value].kind == TYPE_RESPONSE ==> slab[ctxFrame.value].msgId < 32)
      modifies this`workPending
      ensures Valid() && View() == RunToCallback(s, locked).core && frame == ctxFrame
      ensures Reached(RunToCallback(s, locked), frame, call.Some?)
      ensures call.Some? ==>
                RunToCallback(s, locked).hist.calls == s.hist.calls +
                   [Call(OwnerOf(s, s.core.slab[frame.value].msgId), call.value.0, call.value.1, call.value.2)]
      ensures call.None? ==> RunToCallback(s, locked).hist.calls == s.hist.calls
      ensures target == if frame.Some? && locked && call.None? then ctxCb else None
    {
      frame, call, target := ctxFrame, None, None;
      if frame == None {
        workPending := false;
        return;
      }
      var f := slab[frame.value];
      var hit;
      hit, target := HandlerCheck(locked);
      if hit {
        var te := table[f.msgId];
        call := Some((te.callback, te.userData, f.payload));
      }
    }

    /** icmp_dispatch_handler from the end of the callback on, whatever state the callback and the other threads
        have left. */
    method DispatchEnd(ghost u: Node, frame: Option<Block>, responded: bool)
      requires Valid() && u.core == View() && Reached(u, frame, responded)
      requires responded ==> slab[frame.value].msgId < cfg.ids
      modifies this`inflight, table, this`slab, this`workSem
      ensures Valid() && View() == FinishHandler(u).core
    {
      if frame.Some? {
        if responded {
          HandlerClear(slab[frame.value]);
        }
        slab := slab - {ctxFrame.value};
      }
      workSem := 1;
    }

    /** icmp_dispatch_handler from start to end when nothing else happens in between. */
    method DispatchHandler(ghost s: Node, locked: bool) returns (call: Option<(Option<Callback>, int, seq<byte>)>, target: Option<Callback>)
      requires Valid() && s.core == View() && s.work.NotRunning? && workPending
      requires ctxFrame.Some? ==> ctxFrame.value in slab && (slab[ctxFrame.value].kind == TYPE_RESPONSE ==> slab[ctxFrame.value].msgId < 32)
      modifies this, table
      ensures Valid() && View() == RunHandler(s, locked).core
      ensures call.Some? ==> s.core.ctxFrame.Some? && s.core.ctxFrame.value in s.core.slab
      ensures call.Some? ==>
                RunHandler(s, locked).hist.calls == s.hist.calls +
                   [Call(OwnerOf(s, s.core.slab[s.core.ctxFrame.value].msgId), call.value.0, call.value.1, call.value.2)]
      ensures call.None? ==> RunHandler(s, locked).hist.calls == s.hist.calls
      ensures target == if old(ctxFrame).Some? && locked && call.None? then old(ctxCb) else None
    {
      var frame;
      frame, call, target := DispatchBegin(s, locked);
      DispatchEnd(RunToCallback(s, locked), frame, call.Some?);
    }

    // ---- the ICMP thread -----------------------------------------------------------------------------

    /** icmp_dispatch: the work context is filled and the work item submitted. */
    method Dispatch(b: Block)
      requires Valid() && b in slab && slab[b].target < cfg.targets
      modifies this`ctxFrame, this`ctxCb, this`workPending
      ensures Valid() && View() == SetContext(old(View()), b)
      ensures ctxFrame == Some(b) && ctxCb == dispatchCb[slab[b].target] && workPending
    {
      ctxFrame := Some(b);
      ctxCb := dispatchCb[slab[b].target];
      workPending := true;
    }

    /** update_inflight_timestamp. */
    method UpdateTimestamp(f: Frame, now: int)
      requires Valid() && (f.kind == TYPE_COMMAND ==> f.msgId < cfg.ids)
      modifies table
      ensures Valid() && View() == if f.kind == TYPE_COMMAND then StampId(old(View()), f.msgId, now) else old(View())
      ensures f.kind == 1 ==> table[f.msgId] == old(table[f.msgId]).(timestamp := now)
      ensures forall m :: 0 <= m < cfg.ids && !(f.kind == 1 && m == f.msgId) ==> table[m] == old(table[m])
    {
      if f.kind == TYPE_COMMAND {
        table[f.msgId] := table[f.msgId].(timestamp := now);
      }
    }

    /** One iteration of icmp_thread_function, against the thread's steps: at most one frame is sent and at
        most one dispatched, the latter only while no work item is under way. `toPhy` is the frame given to
        the PHY, whose send has the outcome `sent`. */
    method ThreadIteration(ghost s: Node, now: nat, sent: bool) returns (toPhy: Option<Frame>)
      requires Valid() && s.core == View() && s.thread.Top? && s.clock == now > 0 && workSem <= 1
      requires txQueue != [] ==> txQueue[0] in slab && (slab[txQueue[0]].kind == TYPE_COMMAND ==> slab[txQueue[0]].msgId < cfg.ids)
      requires rxQueue != [] ==> rxQueue[0] in slab && slab[rxQueue[0]].target < cfg.targets
      requires txQueue != [] && rxQueue != [] ==> txQueue[0] != rxQueue[0]
      modifies this, table
      ensures Valid() && View() == RunRx(RunTx(s, sent)).core
      ensures toPhy.None? <==> s.core.tx == []
      ensures toPhy.Some? ==> toPhy.value == old(slab[txQueue[0]]) && txQueue == old(txQueue)[1..]
      ensures RunTx(s, sent).hist.txOut == s.hist.txOut + (if toPhy.None? then [] else [Tagged(TagOf(s, s.core.tx[0]), toPhy.value)])
    {
      toPhy := None;
      if txQueue != [] {
        var txFrame := txQueue[0];
        toPhy := Some(slab[txFrame]);
        txQueue := txQueue[1..];
        UpdateTimestamp(slab[txFrame], now);
        slab := slab - {txFrame};
      }
      assert View() == RunTx(s, sent).core;
      if workSem == 1 {
        workSem := 0;
        if rxQueue != [] {
          var rxFrame := rxQueue[0];
          rxQueue := rxQueue[1..];
          Dispatch(rxFrame);
        } else {
          workSem := 1;
        }
      }
    }
  }

  lemma FreshBlockExists(keys: set<Block>)
    ensures exists b: Block :: b !in keys
  {
    FreeBlockExists(|keys| + 1, keys);
  }

  function SendResult(cfg: Config, c: Core): int {
    if SlabFull(cfg, c) then -ENOMEM else if TxFull(c) then -ENOMSG else 0
  }

  function SendCore(cfg: Config, c: Core, b: Block, f: Frame): Core {
    if SlabFull(cfg, c) then c else
    if TxFull(c) then AllocFrame(c, b, f) else PutTx(AllocFrame(c, b, f), b)
  }

  /** The steps of a caller in icmp_command, icmp_respond or icmp_notify, one after the other: `a` is the first,
      and `b` the block that the second gets. */
  function CallerSteps(cfg: Config, s: Node, a: Action, b: Block): Node
    requires (a.Command? || a.RespondOrNotify?) && Enabled(cfg, s, a) && b !in s.core.slab
  {
    var s1 := Apply(cfg, s, a);
    if !s1.callers[a.caller].Building? then s1 else
    var s2 := Apply(cfg, s1, TakeFrame(a.caller, b));
    if !s2.callers[a.caller].Holding? then s2 else
    Apply(cfg, s2, Enqueue(a.caller))
  }

  lemma TableExpired(c: Core, table: seq<Entry>, now: int, maxAge: nat)
    requires |table| == |c.table|
    requires forall j :: 0 <= j < |table| ==> table[j] == if j in ExpiredIds(c, now, maxAge) then CLEARED else c.table[j]
    ensures table == ExpireIds(c, now, maxAge).table
  {
  }

  function UartFinishCore(c: Core, b: Block, unpacked: Option<Frame>): Core {
    match unpacked
    case None => FreeFrame(c, b)
    case Some(f) => if RxFull(c) then IS.AllocFrame(c, b, f) else PutRx(IS.AllocFrame(c, b, f), b)
  }

  lemma UartStepsCore(cfg: Config, s: Node, i: nat, b: Block, unpacked: Option<Frame>, tag: int)
    requires Enabled(cfg, s, UartTakeFrame(i, b)) && !SlabFull(cfg, s.core)
    requires unpacked.Some? ==> unpacked.value.target < cfg.targets && (unpacked.value.kind == TYPE_RESPONSE ==> unpacked.value.msgId < 32)
    ensures Apply(cfg, Apply(cfg, s, UartTakeFrame(i, b)), UartFinish(i, unpacked, tag)).core ==
            UartFinishCore(IS.AllocFrame(s.core, b, Frame(0, 0, 0, [])), b, unpacked)
  {
  }

  /** What those steps do to the shared state. */
  lemma CommandStepsCore(cfg: Config, s: Node, a: Action, b: Block)
    requires a.Command? && Enabled(cfg, s, a) && b !in s.core.slab
    ensures CallerSteps(cfg, s, a, b).core ==
      if |a.payload| > cfg.maxPayload || !a.locked then s.core else
      match LeastFree(s.core.inflight, cfg.ids)
      case None => s.core
      case Some(m) => SendCore(cfg, IS.ReserveId(s.core, m, a.cb, a.userData), b, Frame(TYPE_COMMAND, m, a.target, a.payload))
  {
  }

  lemma OtherStepsCore(cfg: Config, s: Node, i: nat, f: Frame, b: Block)
    requires Enabled(cfg, s, RespondOrNotify(i, f)) && b !in s.core.slab
    ensures CallerSteps(cfg, s, RespondOrNotify(i, f), b).core ==
      if |f.payload| > cfg.maxPayload then s.core else SendCore(cfg, s.core, b, f)
  {
  }
}
