/**
 The state that the threads of lib/icmp share, as one value, and what each of its critical sections
 does to it. The kernel's objects are given by their contracts: a slab is a finite map from allocated
 blocks to their contents, a message queue is a bounded sequence.
 */
module IcmpState {
  import opened Common
  import opened Wire

  type Block = nat
  type Callback = nat

  const QUEUE_MAX_ITEMS: nat := 8
  const SEND_PENDING: int := 0
  const UINT64_RANGE: int := 0x1_0000_0000_0000_0000

  /** The Kconfig choices: the width of the in-flight bitmap, the slab size, the payload limit, the
      number of targets and the age limit in milliseconds. */
  datatype Settings = Settings(ids: nat, slabFrames: nat, maxPayload: byte, targets: nat, maxAge: nat)

  type Config = s: Settings | s.ids == 8 || s.ids == 16 || s.ids == 32 witness Settings(8, 8, 64, 5, 1000)

  /** An in-flight table entry; a NULL callback is None and NULL user data is 0. */
  datatype Entry = Entry(timestamp: int, callback: Option<Callback>, userData: int)

  const CLEARED := Entry(0, None, 0)

  datatype Core = Core(
    inflight: set<nat>, table: seq<Entry>, targets: seq<Option<Callback>>,
    slab: map<Block, Frame>, tx: seq<Block>, rx: seq<Block>,
    sem: nat, ctxFrame: Option<Block>, ctxCb: Option<Callback>, workPending: bool)

  // ---- message ids ------------------------------------------------------------------------

  function LeastFreeFrom(used: set<nat>, k: nat, n: nat): (r: Option<nat>)
    requires k <= n
    ensures r.None? <==> forall j: nat :: k <= j < n ==> j in used
    ensures r.Some? ==> k <= r.value < n && r.value !in used && forall j: nat :: k <= j < r.value ==> j in used
    decreases n - k
  {
    if k == n then None else if k !in used then Some(k) else LeastFreeFrom(used, k + 1, n)
  }

  function LeastFree(used: set<nat>, n: nat): (r: Option<nat>)
    ensures r.None? <==> forall j: nat :: j < n ==> j in used
    ensures r.Some? ==> r.value < n && r.value !in used && forall j: nat :: j < r.value ==> j in used
  {
    LeastFreeFrom(used, 0, n)
  }

  function ReserveId(c: Core, m: nat, cb: Option<Callback>, userData: int): Core
  {
    if m < |c.table| then c.(inflight := c.inflight + {m}, table := c.table[m := Entry(SEND_PENDING, cb, userData)]) else c
  }

  function ClearId(c: Core, m: nat): Core {
    if m < |c.table| then c.(inflight := c.inflight - {m}, table := c.table[m := CLEARED]) else c
  }

  function StampId(c: Core, m: nat, now: int): Core {
    if m < |c.table| then c.(table := c.table[m := c.table[m].(timestamp := now)]) else c
  }

  /** The comparison is made on 64-bit unsigned values, so a stamp from the future would wrap. */
  predicate TimedOut(e: Entry, now: int, maxAge: nat) {
    e.timestamp != SEND_PENDING && (now - e.timestamp) % UINT64_RANGE > maxAge
  }

  function ExpiredIds(c: Core, now: int, maxAge: nat): set<nat> {
    set m | m in c.inflight && m < |c.table| && TimedOut(c.table[m], now, maxAge)
  }

  function ExpireIds(c: Core, now: int, maxAge: nat): Core {
    var aged := ExpiredIds(c, now, maxAge);
    c.(inflight := c.inflight - aged,
       table := seq(|c.table|, i requires 0 <= i < |c.table| => if i in aged then CLEARED else c.table[i]))
  }

  // ---- frames ------------------------------------------------------------------------------

  /** The contents of a block; blocks that are not allocated are never looked at. */
  function FrameAt(c: Core, b: Block): Frame {
    if b in c.slab then c.slab[b] else Frame(0, 0, 0, [])
  }

  predicate SlabFull(cfg: Config, c: Core) { |c.slab| >= cfg.slabFrames }

  function AllocFrame(c: Core, b: Block, f: Frame): Core { c.(slab := c.slab[b := f]) }

  function FreeFrame(c: Core, b: Block): Core { c.(slab := c.slab - {b}) }

  predicate TxFull(c: Core) { |c.tx| >= QUEUE_MAX_ITEMS }

  predicate RxFull(c: Core) { |c.rx| >= QUEUE_MAX_ITEMS }

  function PutTx(c: Core, b: Block): Core { c.(tx := c.tx + [b]) }

  function PutRx(c: Core, b: Block): Core { c.(rx := c.rx + [b]) }

  // ---- dispatching ---------------------------------------------------------------------------

  /** The test that icmp_dispatch_handler makes under the mutex. */
  predicate HasResponseCallback(c: Core, f: Frame) {
    f.kind == TYPE_RESPONSE && f.msgId in c.inflight && f.msgId < |c.table| && c.table[f.msgId].callback.Some?
  }

  function GiveSem(c: Core): Core { c.(sem := 1) }

  function SetContext(c: Core, b: Block): Core {
    var t := FrameAt(c, b).target;
    c.(ctxFrame := Some(b), ctxCb := if t < |c.targets| then c.targets[t] else None, workPending := true)
  }
}
