/**
 The cellular uplink, lib/cellular: a pool of packets and a queue of the same capacity, any number of
 concurrent senders, and the cellular thread that sends and frees.
 */
module Cellular {
  import opened Common
  import opened Counting
  import opened Wire

  type Packet = nat

  /** The thread polls the queue, holds a packet that it sends, or holds one that it frees. */
  datatype Thread = Polling | Sending(packet: Packet) | Freeing(packet: Packet)

  /** The payloads of the allocated packets; the packets that senders hold, each with the data its sender
      was called with; the queue and the thread; the data of the enqueued packets and the payloads handed to
      send(), in order; and the packets that a failed enqueue left allocated and unreachable. */
  datatype Uplink = Uplink(
    pool: map<Packet, seq<byte>>, filling: map<Packet, seq<byte>>, queue: seq<Packet>, thread: Thread,
    accepted: seq<seq<byte>>, sent: seq<seq<byte>>, leaked: set<Packet>)

  datatype Action =
    | Take(packet: Packet, data: seq<byte>)
    | Put(packet: Packet)
    | Dequeue
    | Send
    | Free

  const START := Uplink(map[], map[], [], Polling, [], [], {})

  /** `n` is the configured number of queue items, which sizes both the pool and the queue. */
  predicate Enabled(n: nat, s: Uplink, a: Action) {
    match a
    case Take(p, _) => |s.pool| < n ==> p !in s.pool
    case Put(p) => p in s.filling
    case Dequeue => s.thread.Polling?
    case Send => s.thread.Sending?
    case Free => s.thread.Freeing?
  }

  function Payload(s: Uplink, p: Packet): seq<byte> { if p in s.pool then s.pool[p] else [] }

  /** cellular_packet_alloc, and the private copy into the packet. */
  function TakeStep(n: nat, s: Uplink, p: Packet, data: seq<byte>): Uplink {
    if |s.pool| >= n then s else s.(pool := s.pool[p := data], filling := s.filling[p := data])
  }

  /** cellular_uplink_enqueue; the packet is not freed when it fails. */
  function PutStep(n: nat, s: Uplink, p: Packet): Uplink
    requires p in s.filling
  {
    if |s.queue| >= n then s.(filling := s.filling - {p}, leaked := s.leaked + {p})
    else s.(filling := s.filling - {p}, queue := s.queue + [p], accepted := s.accepted + [s.filling[p]])
  }

  function DequeueStep(s: Uplink): Uplink {
    if s.queue == [] then s else s.(queue := s.queue[1..], thread := Sending(s.queue[0]))
  }

  /** send(); whether it succeeds makes no difference. */
  function SendStep(s: Uplink): Uplink
    requires s.thread.Sending?
  {
    s.(thread := Freeing(s.thread.packet), sent := s.sent + [Payload(s, s.thread.packet)])
  }

  function FreeStep(s: Uplink): Uplink
    requires s.thread.Freeing?
  {
    s.(thread := Polling, pool := s.pool - {s.thread.packet})
  }

  function Next(n: nat, s: Uplink, a: Action): Uplink
    requires Enabled(n, s, a)
  {
    match a
    case Take(p, data) => TakeStep(n, s, p, data)
    case Put(p) => PutStep(n, s, p)
    case Dequeue => DequeueStep(s)
    case Send => SendStep(s)
    case Free => FreeStep(s)
  }

  predicate Runs(n: nat, s: Uplink, run: seq<Action>)
    decreases run
  {
    run == [] || (Enabled(n, s, run[0]) && Runs(n, Next(n, s, run[0]), run[1..]))
  }

  function Exec(n: nat, s: Uplink, run: seq<Action>): Uplink
    requires Runs(n, s, run)
    decreases run
  {
    if run == [] then s else Exec(n, Next(n, s, run[0]), run[1..])
  }

  // ---- ownership ---------------------------------------------------------------------------------

  predicate InHand(s: Uplink, p: Packet) { !s.thread.Polling? && s.thread.packet == p }

  /** A packet is in one place exactly when it is allocated, and otherwise in none. */
  predicate OwnedOnce(s: Uplink, p: Packet) {
    OneIf(p in s.filling) + Count(s.queue, p) + OneIf(InHand(s, p)) == OneIf(p in s.pool)
  }

  /** The packets in all those places. */
  function InPlaces(s: Uplink): nat { |s.filling| + |s.queue| + OneIf(!s.thread.Polling?) }

  /** The packets that senders hold contain what they were called with. */
  ghost predicate Intact(s: Uplink) { forall p :: p in s.filling ==> Payload(s, p) == s.filling[p] }

  ghost predicate Owned(n: nat, s: Uplink) {
    && s.leaked == {}
    && (forall p: Packet :: OwnedOnce(s, p))
    && Intact(s)
    && InPlaces(s) == |s.pool| <= n
  }

  lemma Sizes(pool: map<Packet, seq<byte>>, p: Packet, data: seq<byte>)
    ensures |pool[p := data]| == |pool| + OneIf(p !in pool)
    ensures |pool - {p}| == |pool| - OneIf(p in pool)
  {
    assert |pool| == |pool.Keys|;
    assert |pool[p := data]| == |pool[p := data].Keys| && pool[p := data].Keys == pool.Keys + {p};
    assert |pool - {p}| == |(pool - {p}).Keys| && (pool - {p}).Keys == pool.Keys - {p};
  }

  /** A sender that holds a packet finds room in the queue. */
  lemma QueueRoom(n: nat, s: Uplink, p: Packet)
    requires Owned(n, s) && p in s.filling
    ensures |s.queue| < n
  {
    assert s.filling.Keys != {};
  }

  lemma TakeKeepsIntact(n: nat, s: Uplink, p: Packet, data: seq<byte>)
    requires Intact(s) && (|s.pool| < n ==> p !in s.pool)
    ensures Intact(TakeStep(n, s, p, data))
  {
    var t := TakeStep(n, s, p, data);
    forall q | q in t.filling ensures Payload(t, q) == t.filling[q] {
      if q != p {
        assert q in s.filling;
      }
    }
  }

  lemma TakeKeepsOwned(n: nat, s: Uplink, p: Packet, data: seq<byte>)
    requires Owned(n, s) && (|s.pool| < n ==> p !in s.pool)
    ensures Owned(n, TakeStep(n, s, p, data))
  {
    if |s.pool| < n {
      var t := TakeStep(n, s, p, data);
      Sizes(s.pool, p, data);
      Sizes(s.filling, p, data);
      TakeKeepsIntact(n, s, p, data);
      assert OwnedOnce(s, p);
      forall q: Packet ensures OwnedOnce(t, q) { assert OwnedOnce(s, q); }
    }
  }

  lemma PutKeepsOwned(n: nat, s: Uplink, p: Packet)
    requires Owned(n, s) && p in s.filling
    ensures Owned(n, PutStep(n, s, p))
  {
    var t := PutStep(n, s, p);
    QueueRoom(n, s, p);
    Sizes(s.filling, p, []);
    forall q: Packet ensures OwnedOnce(t, q) {
      assert OwnedOnce(s, q);
      CountPut(s.queue, p, q);
    }
  }

  lemma DequeueKeepsOwned(n: nat, s: Uplink)
    requires Owned(n, s) && s.thread.Polling?
    ensures Owned(n, DequeueStep(s))
  {
    forall q: Packet ensures OwnedOnce(DequeueStep(s), q) { assert OwnedOnce(s, q); }
  }

  lemma FreeKeepsOwned(n: nat, s: Uplink)
    requires Owned(n, s) && s.thread.Freeing?
    ensures s.thread.packet in s.pool && Owned(n, FreeStep(s))
  {
    assert OwnedOnce(s, s.thread.packet);
    Sizes(s.pool, s.thread.packet, []);
    forall q: Packet ensures OwnedOnce(FreeStep(s), q) { assert OwnedOnce(s, q); }
  }

  lemma SendKeepsOwned(n: nat, s: Uplink)
    requires Owned(n, s) && s.thread.Sending?
    ensures Owned(n, SendStep(s))
  {
    forall q: Packet ensures OwnedOnce(SendStep(s), q) { assert OwnedOnce(s, q); }
  }

  lemma StepKeepsOwned(n: nat, s: Uplink, a: Action)
    requires Owned(n, s) && Enabled(n, s, a)
    ensures Owned(n, Next(n, s, a))
  {
    match a {
      case Take(p, data) => TakeKeepsOwned(n, s, p, data);
      case Put(p) => PutKeepsOwned(n, s, p);
      case Dequeue => DequeueKeepsOwned(n, s);
      case Send => SendKeepsOwned(n, s);
      case Free => FreeKeepsOwned(n, s);
    }
  }

  // ---- order --------------------------------------------------------------------------------------

  function Payloads(s: Uplink, q: seq<Packet>): seq<seq<byte>> {
    seq(|q|, i requires 0 <= i < |q| => Payload(s, q[i]))
  }

  /** What the thread has dequeued and not yet handed to send(). */
  function Dequeued(s: Uplink): seq<seq<byte>> { if s.thread.Sending? then [Payload(s, s.thread.packet)] else [] }

  ghost predicate InOrder(s: Uplink) { s.accepted == s.sent + Dequeued(s) + Payloads(s, s.queue) }

  /** Packets that are queued or about to be sent keep their payload while another one changes. */
  lemma SamePayloads(n: nat, s: Uplink, t: Uplink, p: Packet)
    requires Owned(n, s) && p !in s.queue && t.queue == s.queue
    requires forall q: Packet :: q != p ==> Payload(t, q) == Payload(s, q)
    ensures Payloads(t, t.queue) == Payloads(s, s.queue)
  {
  }

  lemma QueuedIsAllocated(n: nat, s: Uplink, p: Packet)
    requires Owned(n, s)
    ensures p in s.queue ==> p in s.pool && !InHand(s, p)
    ensures InHand(s, p) ==> p in s.pool
  {
    assert OwnedOnce(s, p);
    if p in s.queue {
      var i :| 0 <= i < |s.queue| && s.queue[i] == p;
      CountMember(s.queue, i);
    }
  }

  lemma TakeKeepsOrder(n: nat, s: Uplink, p: Packet, data: seq<byte>)
    requires Owned(n, s) && InOrder(s) && (|s.pool| < n ==> p !in s.pool)
    ensures InOrder(TakeStep(n, s, p, data))
  {
    if |s.pool| < n {
      QueuedIsAllocated(n, s, p);
      SamePayloads(n, s, TakeStep(n, s, p, data), p);
    }
  }

  lemma PutKeepsOrder(n: nat, s: Uplink, p: Packet)
    requires Owned(n, s) && InOrder(s) && p in s.filling
    ensures InOrder(PutStep(n, s, p))
  {
    var t := PutStep(n, s, p);
    QueueRoom(n, s, p);
    assert Payloads(t, t.queue) == Payloads(s, s.queue) + [Payload(s, p)];
  }

  lemma DequeueKeepsOrder(s: Uplink)
    requires InOrder(s) && s.thread.Polling?
    ensures InOrder(DequeueStep(s))
  {
    if s.queue != [] {
      var t := DequeueStep(s);
      assert Payloads(s, s.queue) == [Payload(s, s.queue[0])] + Payloads(t, t.queue);
    }
  }

  lemma FreeKeepsOrder(n: nat, s: Uplink)
    requires Owned(n, s) && InOrder(s) && s.thread.Freeing?
    ensures InOrder(FreeStep(s))
  {
    QueuedIsAllocated(n, s, s.thread.packet);
    SamePayloads(n, s, FreeStep(s), s.thread.packet);
  }

  lemma StepKeepsOrder(n: nat, s: Uplink, a: Action)
    requires Owned(n, s) && InOrder(s) && Enabled(n, s, a)
    ensures InOrder(Next(n, s, a))
  {
    match a {
      case Take(p, data) => TakeKeepsOrder(n, s, p, data);
      case Put(p) => PutKeepsOrder(n, s, p);
      case Dequeue => DequeueKeepsOrder(s);
      case Send => assert Payloads(SendStep(s), s.queue) == Payloads(s, s.queue);
      case Free => FreeKeepsOrder(n, s);
    }
  }

  lemma {:induction false} AlwaysInOrder(n: nat, s: Uplink, run: seq<Action>)
    requires Owned(n, s) && InOrder(s) && Runs(n, s, run)
    ensures Owned(n, Exec(n, s, run)) && InOrder(Exec(n, s, run))
    decreases run
  {
    if run != [] {
      StepKeepsOwned(n, s, run[0]);
      StepKeepsOrder(n, s, run[0]);
      AlwaysInOrder(n, Next(n, s, run[0]), run[1..]);
    }
  }

  // ---- in terms of the actions ---------------------------------------------------------------------

  lemma {:induction false} LastStep(n: nat, s: Uplink, run: seq<Action>)
    requires Runs(n, s, run) && run != []
    ensures var k := |run| - 1;
      && Runs(n, s, run[..k]) && Enabled(n, Exec(n, s, run[..k]), run[k])
      && Exec(n, s, run) == Next(n, Exec(n, s, run[..k]), run[k])
    decreases run
  {
    var k := |run| - 1;
    if k == 0 {
      assert run[..0] == [] && run[1..] == [];
    } else {
      LastStep(n, Next(n, s, run[0]), run[1..]);
      assert run[1..][..k - 1] == run[..k][1..];
    }
  }

  /** The data that a packet was last taken for, in a run in which the pool had room. */
  function LastTaken(n: nat, s: Uplink, run: seq<Action>, p: Packet): seq<byte>
    requires Runs(n, s, run)
    decreases |run|
  {
    if run == [] then [] else
    var k, a := |run| - 1, run[|run| - 1];
    LastStep(n, s, run);
    if a.Take? && a.packet == p && |Exec(n, s, run[..k]).pool| < n then a.data else LastTaken(n, s, run[..k], p)
  }

  /** The data of the senders that have enqueued their packets, in that order. */
  function Enqueued(n: nat, s: Uplink, run: seq<Action>): seq<seq<byte>>
    requires Runs(n, s, run)
    decreases |run|
  {
    if run == [] then [] else
    var k, a := |run| - 1, run[|run| - 1];
    LastStep(n, s, run);
    Enqueued(n, s, run[..k]) + (if a.Put? then [LastTaken(n, s, run[..k], a.packet)] else [])
  }

  lemma EnqueuedStep(n: nat, s: Uplink, a: Action)
    requires Owned(n, s) && Enabled(n, s, a)
    ensures var t := Next(n, s, a);
      && t.accepted == s.accepted + (if a.Put? then [s.filling[a.packet]] else [])
      && forall p :: p in t.filling ==>
           if a.Take? && a.packet == p && |s.pool| < n then t.filling[p] == a.data else p in s.filling && t.filling[p] == s.filling[p]
  {
    if a.Put? {
      QueueRoom(n, s, a.packet);
    }
  }

  /** In every run, what is accepted is what the senders were called with, each packet's data when it is
      enqueued, and a packet that a sender holds is for the data it was last taken for. */
  lemma {:induction false} AcceptedIsEnqueued(n: nat, run: seq<Action>)
    requires Runs(n, START, run)
    ensures var s := Exec(n, START, run);
      s.accepted == Enqueued(n, START, run) && forall p :: p in s.filling ==> s.filling[p] == LastTaken(n, START, run, p)
    decreases |run|
  {
    if run != [] {
      var k := |run| - 1;
      LastStep(n, START, run);
      AcceptedIsEnqueued(n, run[..k]);
      AlwaysInOrder(n, START, run[..k]);
      EnqueuedStep(n, Exec(n, START, run[..k]), run[k]);
    }
  }

  /** Whatever the senders and the thread do: the allocated packets are those being filled, queued and in
      the thread's hand, at most `n`; none leaks; a sender that got a packet finds room in the queue; the
      packet the thread frees is allocated; and the payloads handed to send() are the senders' data, in the
      order of their enqueues, up to the ones still on their way. */
  lemma UplinkLosesNothing(n: nat, run: seq<Action>)
    requires Runs(n, START, run)
    ensures var s := Exec(n, START, run);
      && s.leaked == {}
      && |s.pool| == |s.filling| + |s.queue| + (if s.thread.Polling? then 0 else 1) <= n
      && (s.filling != map[] ==> |s.queue| < n)
      && (!s.thread.Polling? ==> s.thread.packet in s.pool)
      && s.sent <= Enqueued(n, START, run)
      && |Enqueued(n, START, run)| - |s.sent| == |s.queue| + (if s.thread.Sending? then 1 else 0)
  {
    AlwaysInOrder(n, START, run);
    AcceptedIsEnqueued(n, run);
    var s := Exec(n, START, run);
    if s.filling != map[] {
      assert s.filling.Keys != {};
      var p :| p in s.filling;
      QueueRoom(n, s, p);
    }
    if !s.thread.Polling? {
      QueuedIsAllocated(n, s, s.thread.packet);
    }
  }

  // ---- the source's form ------------------------------------------------------------------------

  /** A sender that runs alone from its allocation to its enqueue. */
  ghost function Sent(n: nat, s: Uplink, p: Packet, data: seq<byte>): Uplink
    requires |s.pool| < n
  {
    PutStep(n, TakeStep(n, s, p, data), p)
  }

  /** Its data is accepted, as the last one, and waits in the packet it got. */
  lemma SendEffect(n: nat, s: Uplink, p: Packet, data: seq<byte>)
    requires Owned(n, s) && |s.pool| < n && p !in s.pool
    ensures |s.queue| < n
    ensures var t := Sent(n, s, p, data);
      Owned(n, t) && t.accepted == s.accepted + [data] && t.queue == s.queue + [p] && t.pool == s.pool[p := data]
  {
    var t := TakeStep(n, s, p, data);
    TakeKeepsOwned(n, s, p, data);
    QueueRoom(n, t, p);
    PutKeepsOwned(n, t, p);
  }

  /** The uplink half of the module, between two iterations of its thread; other senders may hold packets.
      `slots` is the pool's memory: the used part of each packet's buffer. */
  class Link {
    const items: nat
    const bufferSize: nat
    const slots: array<seq<byte>>
    var used: set<Packet>
    var queue: seq<Packet>
    ghost var filling: map<Packet, seq<byte>>
    ghost var accepted: seq<seq<byte>>
    ghost var sent: seq<seq<byte>>
    ghost var leaked: set<Packet>

    ghost predicate Valid()
      reads this
    {
      slots.Length == items && forall p :: p in used ==> p < items
    }

    ghost function Pool(): map<Packet, seq<byte>>
      reads this, slots
      requires Valid()
    {
      map p | p in used :: slots[p]
    }

    ghost function View(): Uplink
      reads this, slots
      requires Valid()
    {
      Uplink(Pool(), filling, queue, Polling, accepted, sent, leaked)
    }

    constructor (items: nat, bufferSize: nat)
      ensures Valid() && View() == START && this.items == items && this.bufferSize == bufferSize && fresh(slots)
    {
      this.items, this.bufferSize := items, bufferSize;
      slots := new seq<byte>[items](_ => []);
      used, queue, filling, accepted, sent, leaked := {}, [], map[], [], [], {};
    }

    /** cellular_packet_alloc, and the copy into the packet. */
    method AllocAndFill(data: seq<byte>) returns (r: int, p: Packet)
      requires Valid()
      modifies this`used, this`filling, slots
      ensures Valid() && r == if |old(used)| < items then 0 else -ENOMEM
      ensures r == 0 ==> p !in old(used) && p in filling && View() == TakeStep(items, old(View()), p, data)
      ensures r != 0 ==> View() == old(View())
    {
      ghost var before := Pool();
      assert |before| == |before.Keys| && before.Keys == used;
      if |used| >= items {
        return -ENOMEM, 0;
      }
      FreeBlockExists(items, used);
      p :| IsBlock(items, p) && p !in used;
      used := used + {p};
      slots[p] := data;
      filling := filling[p := data];
      r := 0;
      assert Pool() == before[p := data];
    }

    /** cellular_uplink_enqueue with K_NO_WAIT. */
    method Enqueue(p: Packet) returns (r: int)
      requires Valid() && p in filling
      modifies this`queue, this`filling, this`accepted, this`leaked
      ensures Valid() && r == if |old(queue)| < items then 0 else -ENOMSG
      ensures View() == PutStep(items, old(View()), p)
    {
      if |queue| >= items {
        filling, leaked := filling - {p}, leaked + {p};
        return -ENOMSG;
      }
      accepted := accepted + [filling[p]];
      queue, filling := queue + [p], filling - {p};
      return 0;
    }

    /** cellular_send_packet: invalid data and a full pool are refused and change nothing; otherwise the
        data is accepted, for the enqueue cannot fail. */
    method SendPacket(data: Option<seq<byte>>) returns (r: int, ghost p: Packet)
      requires Valid() && Owned(items, View())
      modifies this`used, this`queue, this`filling, this`accepted, this`leaked, slots
      ensures Valid() && Owned(items, View())
      ensures data.None? || |data.value| == 0 || |data.value| > bufferSize ==> r == -EINVAL && View() == old(View())
      ensures data.Some? && 0 < |data.value| <= bufferSize ==>
        (if |old(View()).pool| < items
         then r == 0 && p !in old(used) && View() == Sent(items, old(View()), p, data.value)
         else r == -ENOMEM && View() == old(View()))
    {
      p := 0;
      if data.None? || |data.value| == 0 || |data.value| > bufferSize {
        return -EINVAL, p;
      }
      ghost var before := View();
      assert |before.pool.Keys| == |before.pool| && before.pool.Keys == used;
      var packet;
      r, packet := AllocAndFill(data.value);
      p := packet;
      if r != 0 {
        return;
      }
      SendEffect(items, before, p, data.value);
      r := Enqueue(packet);
    }

    /** The uplink half of one iteration of cellular_thread_function; a failed send changes nothing else. */
    method ServeUplink() returns (served: Option<seq<byte>>)
      requires Valid() && Owned(items, View())
      modifies this`used, this`queue, this`sent
      ensures Valid() && Owned(items, View())
      ensures served.None? <==> old(queue) == []
      ensures View() == if served.None? then old(View()) else FreeStep(SendStep(DequeueStep(old(View()))))
      ensures served.Some? ==> served.value == old(slots[queue[0]]) && sent == old(sent) + [served.value] && queue == old(queue)[1..]
    {
      if queue == [] {
        return None;
      }
      ghost var before := View();
      ThreadRound(items, before);
      QueuedIsAllocated(items, before, queue[0]);
      var p := queue[0];
      queue := queue[1..];
      sent := sent + [slots[p]];
      served := Some(slots[p]);
      used := used - {p};
      assert Pool() == before.pool - {p};
    }
  }

  lemma ThreadRound(n: nat, s: Uplink)
    requires Owned(n, s) && s.thread.Polling? && s.queue != []
    ensures Owned(n, FreeStep(SendStep(DequeueStep(s))))
  {
    DequeueKeepsOwned(n, s);
    SendKeepsOwned(n, DequeueStep(s));
    FreeKeepsOwned(n, SendStep(DequeueStep(s)));
  }
}
