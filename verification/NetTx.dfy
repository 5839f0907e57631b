/**
 The transmit side of the virtio-net device: packets go to the TAP through io_uring, or
 synchronously when the submission queue is full or there is no ring.
 */
module NetTx {
  import opened Wrappers
  import opened Virtio

  const TX_RING_SIZE: nat := 64
  const HEADER: nat := 12        // bytes of the virtio-net header

  type Packet = seq<nat>

  /** A chain: its head and the bytes read from each of its descriptors. */
  datatype Chain = Chain(head: nat, descs: seq<Packet>)

  /** A head outside the table yields a chain without descriptors. */
  function Descs(c: Chain, size: nat): seq<Packet> {
    if c.head < size then c.descs else []
  }

  function Joined(ds: seq<Packet>): Packet {
    if ds == [] then [] else Joined(ds[..|ds| - 1]) + ds[|ds| - 1]
  }

  function TotalLen(ds: seq<Packet>): nat {
    if ds == [] then 0 else (TotalLen(ds[..|ds| - 1]) + |ds[|ds| - 1]|) % U32
  }

  /** What a chain sends: the bytes after the header, if there are any. */
  function Payload(c: Chain, size: nat): Option<Packet> {
    var p := Joined(Descs(c, size));
    if |p| > HEADER then Some(p[HEADER..]) else None
  }

  datatype Queue = Queue(ready: bool, size: nat, avail: seq<Chain>, nextAvail: nat, used: seq<UsedElem>)

  const NEW_QUEUE: Queue := Queue(false, QUEUE_MAX, [], 0, [])

  datatype Device = Device(hasTap: bool, hasRing: bool, pending: map<nat, Packet>, nextUd: nat, isr: bool)

  /** io_uring: queued ids, the ids the kernel works on, the completion queue. An entry holds a
      pointer to the buffer that `tx_pending` keeps under its id. */
  datatype Ring = Ring(sq: seq<nat>, kernel: multiset<nat>, cq: seq<nat>)

  /** A write to the TAP: the number of the packet, and the bytes that were written. */
  datatype Write = Write(k: nat, bytes: Packet)

  /** History, over all resets: the packets taken from the queue for sending, and the writes to the
      TAP in the order in which they happen. `base` is the number of packets at the last reset. */
  datatype History = History(asked: seq<Packet>, tap: seq<Write>, base: nat)

  datatype State = State(q: Queue, d: Device, r: Ring, h: History)

  function Init(hasTap: bool, hasRing: bool): State {
    State(NEW_QUEUE, Device(hasTap, hasRing, map[], 0, false), Ring([], multiset{}, []), History([], [], 0))
  }

  function Outstanding(r: Ring): multiset<nat> {
    multiset(r.sq) + r.kernel + multiset(r.cq)
  }

  /** A packet that is taken, and one that is taken and written at once. */
  function Asked(h: History, payload: Packet): History {
    h.(asked := h.asked + [payload])
  }

  function Written(h: History, payload: Packet): History {
    h.(asked := h.asked + [payload], tap := h.tap + [Write(|h.asked|, payload)])
  }

  /** One packet with a payload. */
  function Emit(s: State, payload: Packet): State {
    if s.d.hasTap && s.d.hasRing then
      var ud := s.d.nextUd;
      if |s.r.sq| < TX_RING_SIZE then
        s.(d := s.d.(nextUd := ud + 1, pending := s.d.pending[ud := payload]),
           r := s.r.(sq := s.r.sq + [ud]), h := Asked(s.h, payload))
      else
        s.(d := s.d.(nextUd := ud + 1, pending := s.d.pending - {ud}), h := Written(s.h, payload))
    else if s.d.hasTap then s.(h := Written(s.h, payload))
    else s
  }

  function Send(s: State, c: Chain): State {
    match Payload(c, s.q.size)
    case None => s
    case Some(p) => Emit(s, p)
  }

  function UsedOf(c: Chain, size: nat): UsedElem {
    UsedElem(c.head, TotalLen(Descs(c, size)))
  }

  /** The loop over the available ring, with the elements collected for the used ring. */
  function Drain(s: State, used: seq<UsedElem>): (State, seq<UsedElem>)
    decreases |s.q.avail| - s.q.nextAvail
  {
    if s.q.nextAvail >= |s.q.avail| then (s, used)
    else
      var c := s.q.avail[s.q.nextAvail];
      Drain(Send(s, c).(q := s.q.(nextAvail := s.q.nextAvail + 1)), used + [UsedOf(c, s.q.size)])
  }

  function Submit(r: Ring, take: nat): Ring {
    var k := if take < |r.sq| then take else |r.sq|;
    r.(sq := r.sq[k..], kernel := r.kernel + multiset(r.sq[..k]))
  }

  /** What the kernel finds at the buffer of an entry: nothing, if it has been freed. */
  function BufferAt(pending: map<nat, Packet>, ud: nat): Packet {
    if ud in pending then pending[ud] else []
  }

  /** The kernel writes the buffer of an entry to the TAP and completes the entry. */
  function Complete(s: State, ud: nat): State {
    if ud in s.r.kernel then
      s.(r := s.r.(kernel := s.r.kernel - multiset{ud}, cq := s.r.cq + [ud]),
         h := s.h.(tap := s.h.tap + [Write(ud, BufferAt(s.d.pending, ud))]))
    else s
  }

  function CompleteAll(s: State, uds: seq<nat>): State
    decreases |uds|
  {
    if uds == [] then s else CompleteAll(Complete(s, uds[0]), uds[1..])
  }

  /** Completed entries release their buffers. */
  function Release(pending: map<nat, Packet>, cq: seq<nat>): map<nat, Packet>
    decreases |cq|
  {
    if cq == [] then pending else Release(pending - {cq[0]}, cq[1..])
  }

  /** The submission at the end: the kernel takes `take` entries and finishes those in `now`
      before the completion queue is drained. */
  function Flush(s: State, take: nat, now: seq<nat>): State {
    if !s.d.hasRing then s
    else
      var t := CompleteAll(s.(r := Submit(s.r, take)), now);
      t.(r := t.r.(cq := []), d := t.d.(pending := Release(t.d.pending, t.r.cq)))
  }

  /** `process_tx` */
  function ProcessTx(s: State, take: nat, now: seq<nat>): State {
    if !s.q.ready then s
    else
      var (s1, used) := Drain(s, []);
      var s2 := Flush(s1, take, now);
      if used == [] then s2
      else s2.(q := s2.q.(used := s2.q.used + Accepted(used, s2.q.size)), d := s2.d.(isr := true))
  }

  /** The driver enables the queue with a size; a queue in use keeps its size. */
  function Activate(q: Queue, n: nat): Queue {
    q.(ready := true, size := if q.nextAvail == 0 then SetSize(q.size, n) else q.size)
  }

  /** `reset` clears the queue; the ring, the buffers and the ids stay. */
  function Reset(s: State): State {
    State(NEW_QUEUE, s.d.(isr := false), s.r, s.h.(base := |s.h.asked|))
  }

  // ---------------------------------------------------------------------------------------
  // The device
  // ---------------------------------------------------------------------------------------

  class VirtioNetDevice {
    var queueTx: Queue
    const hasTap: bool
    const hasRing: bool
    var txPending: map<nat, Packet>
    var txNextUd: nat
    var interruptStatus: bool
    var ring: Ring
    ghost var history: History

    ghost function Abs(): State
      reads this
    {
      State(queueTx, Device(hasTap, hasRing, txPending, txNextUd, interruptStatus), ring, history)
    }

    constructor (tap: bool, uring: bool)
      ensures Abs() == Init(tap, uring)
    {
      hasTap, hasRing := tap, uring;
      queueTx, txPending, txNextUd, interruptStatus := NEW_QUEUE, map[], 0, false;
      ring, history := Ring([], multiset{}, []), History([], [], 0);
    }

    method ActivateQueue(num: nat)
      modifies this
      ensures Abs() == old(Abs()).(q := Activate(old(queueTx), num))
      ensures queueTx.ready && (ValidSize(num % U16) && old(queueTx.nextAvail) == 0 ==> queueTx.size == num % U16)
    {
      if queueTx.nextAvail == 0 {
        queueTx := queueTx.(size := SetSize(queueTx.size, num));
      }
      queueTx := queueTx.(ready := true);
    }

    method DeviceReset()
      modifies this
      ensures queueTx == Queue(false, QUEUE_MAX, [], 0, []) && !interruptStatus
      ensures txPending == old(txPending) && txNextUd == old(txNextUd) && ring == old(ring)
      ensures Abs() == Reset(old(Abs()))
    {
      interruptStatus := false;
      queueTx := Queue(false, QUEUE_MAX, [], 0, []);
      history := history.(base := |history.asked|);
    }

    /** The packet of one chain is put together and handed to the ring or the TAP. */
    method SendChain(chain: Chain) returns (total: nat)
      modifies this
      ensures Abs() == Send(old(Abs()), chain) && total == TotalLen(Descs(chain, old(queueTx.size)))
    {
      var ds := Descs(chain, queueTx.size);
      var packet := [];
      total := 0;
      for i := 0 to |ds|
        invariant packet == Joined(ds[..i]) && total == TotalLen(ds[..i])
        invariant Abs() == old(Abs())
      {
        assert ds[..i + 1][..i] == ds[..i];
        packet := packet + ds[i];
        total := (total + |ds[i]|) % U32;
      }
      assert ds[..|ds|] == ds;
      if |packet| > HEADER {
        var payload := packet[HEADER..];
        if hasTap && hasRing {
          var ud := txNextUd;
          txNextUd := txNextUd + 1;
          txPending := txPending[ud := payload];
          if |ring.sq| < TX_RING_SIZE {
            ring := ring.(sq := ring.sq + [ud]);
            history := Asked(history, payload);
          } else {
            txPending := txPending - {ud};
            assert txPending == old(txPending) - {ud};
            history := Written(history, packet[HEADER..]);
          }
        } else if hasTap {
          history := Written(history, payload);
        }
      }
    }

    /** `now` are the entries that the kernel completes while the submission call runs. */
    method FlushRing(take: nat, now: seq<nat>)
      modifies this
      ensures Abs() == Flush(old(Abs()), take, now)
    {
      hide CompleteAll, Submit;
      if hasRing {
        ghost var t := CompleteAll(Abs().(r := Submit(ring, take)), now);
        CompleteAllKeeps(Abs().(r := Submit(ring, take)), now);
        KernelWorks(take, now);
        while ring.cq != []
          invariant ring == t.r.(cq := ring.cq) && Release(txPending, ring.cq) == Release(t.d.pending, t.r.cq)
          invariant Abs() == t.(r := ring, d := t.d.(pending := txPending))
          decreases |ring.cq|
        {
          txPending := txPending - {ring.cq[0]};
          ring := ring.(cq := ring.cq[1..]);
        }
      }
    }

    /** The kernel's part: it takes entries, writes their buffers and completes them. */
    method KernelWorks(take: nat, now: seq<nat>)
      modifies this`ring, this`history
      ensures Abs() == CompleteAll(old(Abs()).(r := Submit(old(ring), take)), now)
    {
      hide Submit;
      ring := Submit(ring, take);
      for i := 0 to |now|
        invariant CompleteAll(Abs(), now[i..]) == CompleteAll(old(Abs()).(r := Submit(old(ring), take)), now)
      {
        assert now[i..][0] == now[i] && now[i..][1..] == now[i + 1..];
        if now[i] in ring.kernel {
          ring := ring.(kernel := ring.kernel - multiset{now[i]}, cq := ring.cq + [now[i]]);
          history := history.(tap := history.tap + [Write(now[i], BufferAt(txPending, now[i]))]);
        }
      }
      assert now[|now|..] == [];
    }

    method ProcessTxQueue(take: nat, now: seq<nat>)
      modifies this
      ensures Abs() == ProcessTx(old(Abs()), take, now)
    {
      hide Flush, TotalLen, CompleteAll, Submit;
      if !queueTx.ready {
        return;
      }
      var used: seq<UsedElem> := [];
      while queueTx.nextAvail < |queueTx.avail|
        invariant Drain(Abs(), used) == Drain(old(Abs()), [])
        decreases |queueTx.avail| - queueTx.nextAvail
      {
        var chain := queueTx.avail[queueTx.nextAvail];
        ghost var size := queueTx.size;
        var total := SendChain(chain);
        queueTx := queueTx.(nextAvail := queueTx.nextAvail + 1);
        used := used + [UsedElem(chain.head, total)];
      }
      FlushRing(take, now);
      if used == [] {
        return;
      }
      var usedRing := AddAllUsed(queueTx.used, used, queueTx.size);
      queueTx := queueTx.(used := usedRing);
      interruptStatus := true;
    }
  }

  /** The kernel changes only the ring and the writes. */
  lemma {:induction false} CompleteAllKeeps(s: State, uds: seq<nat>)
    ensures var t := CompleteAll(s, uds); t == s.(r := t.r, h := t.h) && t.r.sq == s.r.sq && t.h.asked == s.h.asked
    ensures CompleteAll(s, uds).h.base == s.h.base
    decreases |uds|
  {
    if uds != [] {
      CompleteAllKeeps(Complete(s, uds[0]), uds[1..]);
    }
  }
}
