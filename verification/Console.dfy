/**
 The virtio-console device: a hand-written split ring with 16-bit cursors, through which the
 host sends short messages to the guest.
 */
module Console {
  import opened Wrappers
  import opened Virtio

  type Data = seq<nat>

  /** A descriptor's buffer; writable tells whether its address is guest memory. */
  datatype Buffer = Buffer(gpa: nat, len: nat, writable: bool)

  /** The receiveq in guest memory. */
  datatype Ring = Ring(size: nat, availIdx: nat, availRing: seq<nat>, table: map<nat, Buffer>,
                       usedIdx: nat, usedRing: seq<UsedElem>, bytes: map<nat, Data>)

  /** `mapped` tells whether the three ring addresses are set. */
  datatype Device = Device(ready: bool, mapped: bool, lastAvail: nat, pending: Option<Data>, isr: bool)

  /** One successful injection: the descriptor taken and its buffer, the slot of the used ring, the message. */
  datatype Injection = Injection(desc: nat, buffer: Buffer, slot: nat, data: Data)

  /** History: descriptors the guest made available and injections since the last reset, messages
      injected before it, messages handed to `try_inject`, and messages replaced while waiting. */
  datatype History = History(offered: seq<nat>, log: seq<Injection>, earlier: multiset<Data>,
                             sent: multiset<Data>, dropped: multiset<Data>)

  function Messages(log: seq<Injection>): seq<Data> {
    seq(|log|, i requires 0 <= i < |log| => log[i].data)
  }

  datatype State = State(d: Device, r: Ring, h: History)

  ghost predicate WellFormed(r: Ring) {
    && 0 < r.size == |r.availRing| == |r.usedRing|
    && r.availIdx < U16 && r.usedIdx < U16
  }

  function Min(a: nat, b: nat): nat {
    if a < b then a else b
  }

  /** The buffer `inject_to_receiveq` would fill; None where it returns false. */
  function Target(d: Device, r: Ring): Option<nat>
    requires 0 < r.size == |r.availRing|
  {
    if !d.mapped || r.availIdx == d.lastAvail then None
    else
      var desc := r.availRing[d.lastAvail % r.size];
      if desc in r.table && r.table[desc].writable then Some(desc) else None
  }

  /** `inject_to_receiveq` on a target. */
  function Publish(r: Ring, desc: nat, data: Data): Ring
    requires 0 < r.size == |r.usedRing| && desc in r.table
  {
    var b := r.table[desc];
    var n := Min(|data|, b.len);
    r.(bytes := r.bytes[b.gpa := data[..n]],
       usedRing := r.usedRing[r.usedIdx % r.size := UsedElem(desc, n)],
       usedIdx := (r.usedIdx + 1) % U16)
  }

  function Inject(s: State, data: Data): (State, bool)
    requires WellFormed(s.r)
  {
    match Target(s.d, s.r)
    case None => (s, false)
    case Some(desc) =>
      (State(s.d.(lastAvail := (s.d.lastAvail + 1) % U16, isr := true), Publish(s.r, desc, data),
             s.h.(log := s.h.log + [Injection(desc, s.r.table[desc], s.r.usedIdx % s.r.size, data)])), true)
  }

  /** A message that waits is replaced by the next one that cannot be injected at once. */
  function Store(s: State, data: Data): State {
    s.(d := s.d.(pending := Some(data)),
       h := s.h.(dropped := s.h.dropped + Waiting(s.d)))
  }

  function Waiting(d: Device): multiset<Data> {
    if d.pending.Some? then multiset{d.pending.value} else multiset{}
  }

  function TryInject(s: State, data: Data): State
    requires WellFormed(s.r)
  {
    var s1 := s.(h := s.h.(sent := s.h.sent + multiset{data}));
    if !s.d.ready then Store(s1, data)
    else
      var (t, ok) := Inject(s1, data);
      if ok then t else Store(t, data)
  }

  function PollPending(s: State): State
    requires WellFormed(s.r)
  {
    if s.d.ready && s.d.pending.Some? then
      var (t, ok) := Inject(s.(d := s.d.(pending := None)), s.d.pending.value);
      if ok then t else t.(d := t.d.(pending := s.d.pending))
    else s
  }

  /** The guest resets the device and sets up a new ring. The device forgets that the queue is ready;
      its cursor and a waiting message stay. */
  function Reset(s: State, ring: Ring): State {
    s.(d := s.d.(ready := false), r := ring,
       h := s.h.(offered := [], log := [], earlier := s.h.earlier + multiset(Messages(s.h.log))))
  }

  /** The guest makes a descriptor available. */
  function Offer(s: State, desc: nat, b: Buffer): State
    requires WellFormed(s.r)
  {
    s.(r := s.r.(table := s.r.table[desc := b],
                 availRing := s.r.availRing[s.r.availIdx % s.r.size := desc],
                 availIdx := (s.r.availIdx + 1) % U16),
       h := s.h.(offered := s.h.offered + [desc]))
  }

  // ---------------------------------------------------------------------------------------
  // The device
  // ---------------------------------------------------------------------------------------

  class VirtioConsoleDevice {
    var queueReady: bool
    var mapped: bool
    var lastAvail: nat
    var pendingInject: Option<Data>
    var interruptStatus: bool
    var ring: Ring               // guest memory
    ghost var history: History

    ghost function Abs(): State
      reads this
    {
      State(Device(queueReady, mapped, lastAvail, pendingInject, interruptStatus), ring, history)
    }

    method InjectToReceiveq(data: Data) returns (ok: bool)
      requires WellFormed(ring)
      modifies this
      ensures (Abs(), ok) == Inject(old(Abs()), data)
      ensures WellFormed(ring)
    {
      if !mapped {
        return false;
      }
      if ring.availIdx == lastAvail {
        return false;
      }
      var desc := ring.availRing[lastAvail % ring.size];
      if desc !in ring.table {
        return false;
      }
      var buffer := ring.table[desc];
      var writeLen := Min(|data|, buffer.len);
      if !buffer.writable {
        return false;
      }
      ring := ring.(bytes := ring.bytes[buffer.gpa := data[..writeLen]]);
      lastAvail := (lastAvail + 1) % U16;
      var usedIdx := ring.usedIdx;
      ring := ring.(usedRing := ring.usedRing[usedIdx % ring.size := UsedElem(desc, writeLen)]);
      ring := ring.(usedIdx := (usedIdx + 1) % U16);
      interruptStatus := true;
      history := history.(log := history.log + [Injection(desc, buffer, usedIdx % ring.size, data)]);
      return true;
    }

    method TryInjectData(data: Data)
      requires WellFormed(ring)
      modifies this
      ensures Abs() == TryInject(old(Abs()), data)
    {
      history := history.(sent := history.sent + multiset{data});
      if !queueReady {
        history := history.(dropped := history.dropped + Waiting(Abs().d));
        pendingInject := Some(data);
        return;
      }
      var ok := InjectToReceiveq(data);
      if !ok {
        history := history.(dropped := history.dropped + Waiting(Abs().d));
        pendingInject := Some(data);
      }
    }

    /** Status 0 is written; `newRing` is what the guest sets up afterwards. */
    method DriverReset(newRing: Ring)
      modifies this
      ensures !queueReady && ring == newRing
      ensures lastAvail == old(lastAvail) && pendingInject == old(pendingInject) && mapped == old(mapped)
      ensures interruptStatus == old(interruptStatus)
      ensures Abs() == Reset(old(Abs()), newRing)
    {
      queueReady := false;
      ring := newRing;
      history := history.(offered := [], log := [], earlier := history.earlier + multiset(Messages(history.log)));
    }

    method PollPendingData()
      requires WellFormed(ring)
      modifies this
      ensures Abs() == PollPending(old(Abs()))
    {
      if queueReady {
        if pendingInject.Some? {
          var data := pendingInject.value;
          pendingInject := None;
          var ok := InjectToReceiveq(data);
          if !ok {
            pendingInject := Some(data);
          }
        }
      }
    }
  }

  // ---------------------------------------------------------------------------------------
  // Arithmetic of wrapping cursors
  // ---------------------------------------------------------------------------------------

  lemma MultiplePeriod(n: nat, m: nat, q: nat)
    ensures n * m * q == n * (m * q)
  {
  }

  /** A 16-bit cursor picks the slot of the full count, for a size that divides 65536. */
  lemma WrappedSlot(n: nat, k: nat)
    requires n > 0 && U16 % n == 0
    ensures (k % U16) % n == k % n
  {
    var m, q, r := U16 / n, k / U16, k % U16;
    assert n * m == U16;
    MultiplePeriod(n, m, q);
    assert k == n * (m * q) + r;
    ModPeriod(n, m * q, r);
  }

  /** Only for such sizes: otherwise the two part at the first wrap. */
  lemma WrappedSlotExact(n: nat)
    requires n > 0
    ensures (forall k: nat :: (k % U16) % n == k % n) <==> U16 % n == 0
  {
    if U16 % n == 0 {
      forall k: nat
        ensures (k % U16) % n == k % n
      {
        WrappedSlot(n, k);
      }
    } else {
      var k: nat := U16;
      assert (k % U16) % n != k % n;
    }
  }

  /** Counts less than n apart use different slots. */
  lemma SlotsDiffer(n: nat, a: nat, b: nat)
    requires a < b < a + n
    ensures a % n != b % n
  {
    var d := b - a;
    if a % n == b % n {
      var q := b / n - a / n;
      assert b == n * (b / n) + b % n && a == n * (a / n) + a % n;
      assert d == n * q by { Distribute(n, b / n, a / n); }
      Between(n, q);
    }
  }
}
