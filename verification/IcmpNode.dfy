/**
 One ICMP node as a transition system. Each action is one atomic step of one of its threads: a region
 under the in-flight mutex, one kernel call on a slab, queue, semaphore or work item, or one callback.
 Any number of caller contexts (application threads, callbacks, the UART interrupt) step concurrently
 with the ICMP thread and with the system workqueue, whose two handlers exclude each other.

 `History` records what happened and is never read by a step.
 */
module IcmpNode {
  import opened Common
  import opened Wire
  import opened IcmpState

  /** Where a caller stands: about to allocate a frame, holding a filled frame that it will enqueue for
      sending, or holding a frame that the UART receives into. */
  datatype CallerPc = Idle | Building(frame: Frame, serial: int) | Holding(block: Block) | Receiving(block: Block)

  /** Where icmp_thread_function stands in its loop. */
  datatype ThreadPc = Top | Stamping(block: Block) | Sending(block: Block) | Releasing(block: Block) | Polling | RxPolling | Dispatching(block: Block)

  /** Where icmp_dispatch_handler stands; `Checked` and `InCallback` are the window without the mutex. */
  datatype WorkPc = NotRunning | Checked(block: Block) | InCallback(block: Block) | Freeing | Giving

  /** One successful allocation of a message id, with what its command asks for. Its index in the history
      is its serial number. */
  datatype Alloc = Alloc(msgId: nat, callback: Option<Callback>, userData: int, target: byte, payload: seq<byte>)

  /** One invocation of a response callback, made for the allocation `serial`. */
  datatype Call = Call(serial: int, callback: Option<Callback>, userData: int, payload: seq<byte>)

  /** What became of a dispatched frame: a response callback, its target's callback, or neither. */
  datatype Delivery = ToResponse(call: Call) | ToTarget(callback: Callback, payload: seq<byte>) | Dropped

  /** A frame with the serial number of the command it is, or answers; a frame that answers no command has
      a negative tag. */
  datatype Tagged = Tagged(tag: int, frame: Frame)

  const NO_TAG: int := -1

  /** The tag of the `k`th frame that icmp_respond or icmp_notify asked for, and back. */
  function OtherTag(k: int): int { -2 - k }

  datatype History = History(
    allocs: seq<Alloc>,
    others: seq<Frame>,          // what icmp_respond and icmp_notify were asked to send
    owner: map<nat, nat>,        // the serial number of the latest allocation of each id
    tag: map<Block, int>,        // the tags of the allocated blocks
    calls: seq<Call>,
    leaked: seq<Block>,          // blocks that a failed enqueue left allocated and unreachable
    stamped: set<int>,           // commands whose own frame has been stamped
    wire: set<int>,              // commands the PHY has accepted
    answered: set<int>,          // commands whose response has been received
    cleared: set<int>,           // allocations removed after their response callback
    expired: set<int>,           // allocations removed by the timeout handler
    lastScan: nat,               // when the timeout handler last ran
    txIn: seq<Tagged>, txOut: seq<Tagged>,
    rxIn: seq<Tagged>, rxOut: seq<Tagged>,
    rxLocked: seq<bool>,         // whether the dispatch of each frame of rxOut got the mutex
    handed: seq<Option<Callback>>,  // the target callback found at each hand-over to the work context
    deliveries: seq<Delivery>)   // what became of the dispatched frames

  datatype Node = Node(core: Core, callers: seq<CallerPc>, thread: ThreadPc, work: WorkPc, clock: nat, hist: History)

  datatype Action =
    | Command(caller: nat, locked: bool, target: byte, payload: seq<byte>, cb: Option<Callback>, userData: int)
    | RespondOrNotify(caller: nat, frame: Frame)
    | TakeFrame(caller: nat, block: Block)
    | Enqueue(caller: nat)
    | UartTakeFrame(caller: nat, block: Block)
    | UartFinish(caller: nat, unpacked: Option<Frame>, tag: int)
    | TxDequeue
    | Stamp
    | PhySend(ok: bool)
    | TxFree
    | SemTake
    | RxDequeue
    | SubmitWork
    | HandlerCheck(locked: bool)
    | HandlerCall
    | HandlerClear
    | HandlerFree
    | HandlerGive
    | Timeout(locked: bool)
    | Register(slot: nat, targetCb: Option<Callback>)
    | Tick(ms: nat)

  const CLOCK_LIMIT: nat := 0x8000_0000_0000_0000

  function Init(cfg: Config, callers: nat, clock: nat): Node {
    Node(
      Core({}, seq(cfg.ids, _ => CLEARED), seq(cfg.targets, _ => None), map[], [], [], 1, None, None, false),
      seq(callers, _ => Idle), Top, NotRunning, clock,
      History([], [], map[], map[], [], [], {}, {}, {}, {}, {}, clock, [], [], [], [], [], [], []))
  }

  predicate BlockFree(cfg: Config, c: Core, b: Block) { !SlabFull(cfg, c) ==> b !in c.slab }

  /** When an action can be the next step. What it requires of a frame that was received is what the
      source relies on without a check: its target and its message id index arrays and words. */
  predicate Enabled(cfg: Config, s: Node, a: Action) {
    match a
    case Command(i, _, _, _, _, _) => i < |s.callers| && s.callers[i].Idle?
    case RespondOrNotify(i, f) => i < |s.callers| && s.callers[i].Idle? && (f.kind == TYPE_RESPONSE || (f.kind == TYPE_NOTIFY && f.msgId == NOTIFY_MSG_ID))
    case TakeFrame(i, b) => i < |s.callers| && s.callers[i].Building? && BlockFree(cfg, s.core, b)
    case Enqueue(i) => i < |s.callers| && s.callers[i].Holding?
    case UartTakeFrame(i, b) => i < |s.callers| && s.callers[i].Idle? && BlockFree(cfg, s.core, b)
    case UartFinish(i, r, _) => i < |s.callers| && s.callers[i].Receiving?
                                && (r.Some? ==> r.value.target < cfg.targets && (r.value.kind == TYPE_RESPONSE ==> r.value.msgId < 32))
    case TxDequeue => s.thread.Top?
    case Stamp => s.thread.Stamping? && s.clock > 0
    case PhySend(_) => s.thread.Sending?
    case TxFree => s.thread.Releasing?
    case SemTake => s.thread.Polling?
    case RxDequeue => s.thread.RxPolling?
    case SubmitWork => s.thread.Dispatching?
    case HandlerCheck(_) => s.work.NotRunning? && s.core.workPending
    case HandlerCall => s.work.Checked?
    case HandlerClear => s.work.InCallback?
    case HandlerFree => s.work.Freeing?
    case HandlerGive => s.work.Giving?
    case Timeout(_) => s.work.NotRunning?
    case Register(t, _) => t < |s.core.targets|
    case Tick(d) => s.clock + d < CLOCK_LIMIT
  }

  function TagOf(s: Node, b: Block): int { if b in s.hist.tag then s.hist.tag[b] else NO_TAG }

  function At(s: Node, b: Block): Tagged { Tagged(TagOf(s, b), FrameAt(s.core, b)) }

  function OwnerOf(s: Node, m: nat): int { if m in s.hist.owner then s.hist.owner[m] else NO_TAG }

  // ---- the callers -----------------------------------------------------------------------------

  /** icmp_command up to the end of its mutex region. */
  function CommandStep(cfg: Config, s: Node, a: Action): Node
    requires a.Command? && Enabled(cfg, s, a)
  {
    if |a.payload| > cfg.maxPayload || !a.locked then s else
    match LeastFree(s.core.inflight, cfg.ids)
    case None => s
    case Some(m) =>
      var serial := |s.hist.allocs|;
      s.(core := ReserveId(s.core, m, a.cb, a.userData),
         callers := s.callers[a.caller := Building(Frame(TYPE_COMMAND, m, a.target, a.payload), serial)],
         hist := s.hist.(allocs := s.hist.allocs + [Alloc(m, a.cb, a.userData, a.target, a.payload)], owner := s.hist.owner[m := serial]))
  }

  /** icmp_respond and icmp_notify up to the call of icmp_send_frame. */
  function RespondOrNotifyStep(cfg: Config, s: Node, a: Action): Node
    requires a.RespondOrNotify? && Enabled(cfg, s, a)
  {
    if |a.frame.payload| > cfg.maxPayload then s else
    s.(callers := s.callers[a.caller := Building(a.frame, OtherTag(|s.hist.others|))],
       hist := s.hist.(others := s.hist.others + [a.frame]))
  }

  /** icmp_frame_alloc in icmp_send_frame, and the private writes that fill the frame. */
  function TakeFrameStep(cfg: Config, s: Node, a: Action): Node
    requires a.TakeFrame? && Enabled(cfg, s, a)
  {
    if SlabFull(cfg, s.core) then s.(callers := s.callers[a.caller := Idle]) else
    var pc := s.callers[a.caller];
    s.(core := AllocFrame(s.core, a.block, pc.frame),
       callers := s.callers[a.caller := Holding(a.block)],
       hist := s.hist.(tag := s.hist.tag[a.block := pc.serial]))
  }

  /** icmp_tx_enqueue; icmp_send_frame does not free the frame when it fails. */
  function EnqueueStep(cfg: Config, s: Node, a: Action): Node
    requires a.Enqueue? && Enabled(cfg, s, a)
  {
    var b := s.callers[a.caller].block;
    var idle := s.callers[a.caller := Idle];
    if TxFull(s.core) then s.(callers := idle, hist := s.hist.(leaked := s.hist.leaked + [b])) else
    s.(core := PutTx(s.core, b), callers := idle, hist := s.hist.(txIn := s.hist.txIn + [At(s, b)]))
  }

  function UartTakeFrameStep(cfg: Config, s: Node, a: Action): Node
    requires a.UartTakeFrame? && Enabled(cfg, s, a)
  {
    if SlabFull(cfg, s.core) then s else
    s.(core := AllocFrame(s.core, a.block, Frame(0, 0, 0, [])),
       callers := s.callers[a.caller := Receiving(a.block)],
       hist := s.hist.(tag := s.hist.tag[a.block := NO_TAG]))
  }

  /** icmp_frame_unpack into the frame, then icmp_frame_free or icmp_rx_enqueue, whose result is ignored. */
  function UartFinishStep(cfg: Config, s: Node, a: Action): Node
    requires a.UartFinish? && Enabled(cfg, s, a)
  {
    var b := s.callers[a.caller].block;
    var idle := s.callers[a.caller := Idle];
    if a.unpacked.None? then s.(core := FreeFrame(s.core, b), callers := idle) else
    var c := AllocFrame(s.core, b, a.unpacked.value);
    var h := s.hist.(tag := s.hist.tag[b := a.tag],
                     answered := if a.unpacked.value.kind == TYPE_RESPONSE then s.hist.answered + {a.tag} else s.hist.answered);
    if RxFull(s.core) then s.(core := c, callers := idle, hist := h.(leaked := h.leaked + [b])) else
    s.(core := PutRx(c, b), callers := idle, hist := h.(rxIn := h.rxIn + [Tagged(a.tag, a.unpacked.value)]))
  }

  // ---- the ICMP thread ---------------------------------------------------------------------------

  function TxDequeueStep(s: Node): Node {
    if s.core.tx == [] then s.(thread := Polling) else
    s.(core := s.core.(tx := s.core.tx[1..]), thread := Stamping(s.core.tx[0]))
  }

  function StampStep(s: Node): Node
    requires s.thread.Stamping?
  {
    var b := s.thread.block;
    var f := FrameAt(s.core, b);
    if f.kind != TYPE_COMMAND then s.(thread := Sending(b)) else
    s.(core := StampId(s.core, f.msgId, s.clock), thread := Sending(b),
       hist := s.hist.(stamped := s.hist.stamped + {TagOf(s, b)}))
  }

  function PhySendStep(s: Node, ok: bool): Node
    requires s.thread.Sending?
  {
    var b := s.thread.block;
    s.(thread := Releasing(b),
       hist := s.hist.(txOut := s.hist.txOut + [At(s, b)],
                       wire := if ok && FrameAt(s.core, b).kind == TYPE_COMMAND then s.hist.wire + {TagOf(s, b)} else s.hist.wire))
  }

  function TxFreeStep(s: Node): Node
    requires s.thread.Releasing?
  {
    s.(core := FreeFrame(s.core, s.thread.block), thread := Polling)
  }

  function SemTakeStep(s: Node): Node {
    if s.core.sem == 0 then s.(thread := Top) else
    s.(core := s.core.(sem := 0), thread := RxPolling)
  }

  function RxDequeueStep(s: Node): Node {
    if s.core.rx == [] then s.(core := GiveSem(s.core), thread := Top) else
    s.(core := s.core.(rx := s.core.rx[1..]), thread := Dispatching(s.core.rx[0]))
  }

  function SubmitWorkStep(s: Node): Node
    requires s.thread.Dispatching?
  {
    var c := SetContext(s.core, s.thread.block);
    s.(core := c, thread := Top, hist := s.hist.(handed := s.hist.handed + [c.ctxCb]))
  }

  // ---- the system workqueue -------------------------------------------------------------------------

  /** What the handler does with a frame that has no response callback. */
  function Default(c: Core, f: Frame, locked: bool): Delivery {
    if locked && c.ctxCb.Some? then ToTarget(c.ctxCb.value, f.payload) else Dropped
  }

  /** icmp_dispatch_handler up to the unlock, and on the default path through the target callback. */
  function HandlerCheckStep(s: Node, locked: bool): Node {
    var c := s.core.(workPending := false);
    match c.ctxFrame
    case None => s.(core := c, work := Giving)
    case Some(b) =>
      var f := FrameAt(c, b);
      var hit := locked && HasResponseCallback(c, f);
      s.(core := c,
         work := if hit then Checked(b) else Freeing,
         hist := s.hist.(rxOut := s.hist.rxOut + [At(s, b)], rxLocked := s.hist.rxLocked + [locked],
                         deliveries := if hit then s.hist.deliveries else s.hist.deliveries + [Default(c, f, locked)]))
  }

  /** The table entry is read again, after the unlock, and its callback invoked. */
  function HandlerCallStep(s: Node): Node
    requires s.work.Checked?
  {
    var b := s.work.block;
    var f := FrameAt(s.core, b);
    var te := if f.msgId < |s.core.table| then s.core.table[f.msgId] else CLEARED;
    var call := Call(OwnerOf(s, f.msgId), te.callback, te.userData, f.payload);
    s.(work := InCallback(b),
       hist := s.hist.(calls := s.hist.calls + [call], deliveries := s.hist.deliveries + [ToResponse(call)]))
  }

  function HandlerClearStep(s: Node): Node
    requires s.work.InCallback?
  {
    var m := FrameAt(s.core, s.work.block).msgId;
    s.(core := ClearId(s.core, m), work := Freeing,
       hist := s.hist.(cleared := if m in s.core.inflight then s.hist.cleared + {OwnerOf(s, m)} else s.hist.cleared))
  }

  function HandlerFreeStep(s: Node): Node {
    s.(core := match s.core.ctxFrame case None => s.core case Some(b) => FreeFrame(s.core, b), work := Giving)
  }

  function HandlerGiveStep(s: Node): Node { s.(core := GiveSem(s.core), work := NotRunning) }

  function TimeoutStep(cfg: Config, s: Node, locked: bool): Node {
    if !locked then s else
    var aged := ExpiredIds(s.core, s.clock, cfg.maxAge);
    s.(core := ExpireIds(s.core, s.clock, cfg.maxAge),
       hist := s.hist.(expired := s.hist.expired + (set m | m in aged :: OwnerOf(s, m)), lastScan := s.clock))
  }

  function Apply(cfg: Config, s: Node, a: Action): Node
    requires Enabled(cfg, s, a)
  {
    match a
    case Command(_, _, _, _, _, _) => CommandStep(cfg, s, a)
    case RespondOrNotify(_, _) => RespondOrNotifyStep(cfg, s, a)
    case TakeFrame(_, _) => TakeFrameStep(cfg, s, a)
    case Enqueue(_) => EnqueueStep(cfg, s, a)
    case UartTakeFrame(_, _) => UartTakeFrameStep(cfg, s, a)
    case UartFinish(_, _, _) => UartFinishStep(cfg, s, a)
    case TxDequeue => TxDequeueStep(s)
    case Stamp => StampStep(s)
    case PhySend(ok) => PhySendStep(s, ok)
    case TxFree => TxFreeStep(s)
    case SemTake => SemTakeStep(s)
    case RxDequeue => RxDequeueStep(s)
    case SubmitWork => SubmitWorkStep(s)
    case HandlerCheck(locked) => HandlerCheckStep(s, locked)
    case HandlerCall => HandlerCallStep(s)
    case HandlerClear => HandlerClearStep(s)
    case HandlerFree => HandlerFreeStep(s)
    case HandlerGive => HandlerGiveStep(s)
    case Timeout(locked) => TimeoutStep(cfg, s, locked)
    case Register(t, cb) => if cb.None? then s else s.(core := s.core.(targets := s.core.targets[t := cb]))
    case Tick(d) => s.(clock := s.clock + d)
  }
}
