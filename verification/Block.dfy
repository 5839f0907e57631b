/**
 The virtio-block device: asynchronous requests through io_uring.

 `State` holds the fields of `VirtioBlockDevice`, the guest's rings, the io_uring queues and
 a few history variables. The class at the end has the device's loops; each is proved equal
 to a function on `State`, and what the device promises is proved about runs of those
 functions.
 */
module Block {
  import opened Wrappers
  import opened Virtio

  /** Cap on requests in flight, checked after a chain has been popped. */
  const PENDING_CAP: nat := 1024

  /** Entries of the io_uring submission queue. */
  const RING_SIZE: nat := 128

  // ---------------------------------------------------------------------------------------
  // Descriptor chains
  // ---------------------------------------------------------------------------------------

  datatype Header = Header(reqType: nat, sector: nat)

  /** A descriptor, with what reading guest memory at its address would give. */
  datatype Desc = Desc(addr: nat, len: nat, header: Option<Header>, host: Option<nat>)

  datatype Chain = Chain(head: nat, descs: seq<Desc>)

  datatype Op = ReadFile | WriteFile

  datatype Request = Request(head: nat, len: nat, statusAddr: nat, op: Op, hostPtr: nat, offset: nat)

  datatype Entry = Entry(op: Op, hostPtr: nat, len: nat, offset: nat)

  datatype Pending = Pending(head: nat, len: nat, statusAddr: nat)

  /** The request a popped chain asks for; None where the device drops the chain. A head
      outside the table yields a chain without descriptors. */
  function Parse(c: Chain, size: nat): (r: Option<Request>)
    ensures r.Some? ==> r.value.head == c.head < size
  {
    if c.head >= size || |c.descs| < 3 || c.descs[0].header.None? || c.descs[1].host.None? then None
    else
      var h := c.descs[0].header.value;
      Some(Request(c.head, c.descs[1].len, c.descs[2].addr,
                   if h.reqType == 0 then ReadFile else WriteFile,
                   c.descs[1].host.value, h.sector * 512 % 0x1_0000_0000_0000_0000))
  }

  /** The requests of a sequence of chains; malformed chains and those at the positions `skip` are
      left out. */
  function Requests(cs: seq<Chain>, skip: set<nat>, size: nat): seq<Request> {
    if cs == [] then []
    else
      var i := |cs| - 1;
      Requests(cs[..i], skip, size) +
      (if i in skip then [] else match Parse(cs[i], size) case None => [] case Some(r) => [r])
  }

  function PendingOf(r: Request): Pending {
    Pending(r.head, r.len, r.statusAddr)
  }

  function EntryOf(r: Request): Entry {
    Entry(r.op, r.hostPtr, r.len, r.offset)
  }

  function UsedOf(r: Request): UsedElem {
    UsedElem(r.head, (r.len + 1) % U32)
  }

  // ---------------------------------------------------------------------------------------
  // State and steps
  // ---------------------------------------------------------------------------------------

  /** The virtqueue: the driver's offers since the last reset, how many were popped, the used ring. */
  datatype Queue = Queue(ready: bool, size: nat, avail: seq<Chain>, nextAvail: nat, used: seq<UsedElem>)

  /** The fields of the device, and the addresses written with VIRTIO_BLK_S_OK. */
  datatype Device = Device(pending: map<nat, Pending>, nextUd: nat, isr: bool, status: seq<nat>)

  /** io_uring: the submission queue, the operation behind each id, the ids the kernel works
      on, and the completion queue. */
  datatype Ring = Ring(sq: seq<nat>, entries: map<nat, Entry>, kernel: multiset<nat>, cq: seq<nat>)

  /** Where a request is: in `pending`, at a position of the used ring, or given up because
      the submission queue stayed full. */
  datatype Fate = InFlight | Done(pos: nat) | Lost

  datatype Record = Record(req: Request, fate: Fate)

  /** History, not part of the device: `base` is next_ud at the last reset, `log` holds the
      requests that were given an id since, `asked` lists them in order, `order[i]` is the id of
      the request at position i of the used ring, and `capDropped` are the positions of the chains
      popped while the cap was reached. */
  datatype History = History(base: nat, log: map<nat, Record>, asked: seq<Request>, order: seq<nat>,
                             capDropped: set<nat>)

  function Logged(h: History, ud: nat, rec: Record): History {
    h.(log := h.log[ud := rec], asked := h.asked + [rec.req])
  }

  /** `owed` are the heads the driver has offered and not got back. */
  datatype State = State(q: Queue, d: Device, r: Ring, h: History, owed: set<nat>)

  function Init(): State {
    State(Queue(false, QUEUE_MAX, [], 0, []), Device(map[], 0, false, []), Ring([], map[], multiset{}, []),
          History(0, map[], [], [], {}), {})
  }

  /** Ids the ring still has to report: queued, running, or completed and not polled. */
  function Outstanding(r: Ring): multiset<nat> {
    multiset(r.sq) + r.kernel + multiset(r.cq)
  }

  /** `io_uring_enter`: the kernel takes the first `take` entries. */
  function Submit(r: Ring, take: nat): Ring {
    var k := if take < |r.sq| then take else |r.sq|;
    r.(sq := r.sq[k..], kernel := r.kernel + multiset(r.sq[..k]))
  }

  /** How many entries the next submission takes: as listed, all of them past the list. */
  function Take(takes: seq<nat>): nat {
    if takes == [] then RING_SIZE else takes[0]
  }

  /** A full submission queue is submitted before the next push. */
  function MakeRoom(r: Ring, takes: seq<nat>): (Ring, seq<nat>) {
    if |r.sq| < RING_SIZE then (r, takes)
    else (Submit(r, Take(takes)), if takes == [] then [] else takes[1..])
  }

  function Pop(q: Queue): Queue {
    q.(nextAvail := q.nextAvail + 1)
  }

  /** One well-formed chain is given an id and pushed on the submission queue. */
  function Issue(s: State, req: Request, takes: seq<nat>): (State, seq<nat>, bool) {
    var ud := s.d.nextUd;
    var (r, left) := MakeRoom(s.r, takes);
    if |r.sq| >= RING_SIZE then
      (State(Pop(s.q), s.d.(nextUd := ud + 1, pending := s.d.pending - {ud}), r,
             Logged(s.h, ud, Record(req, Lost)), s.owed), left, false)
    else
      (State(Pop(s.q), s.d.(nextUd := ud + 1, pending := s.d.pending[ud := PendingOf(req)]),
             r.(sq := r.sq + [ud], entries := r.entries[ud := EntryOf(req)]),
             Logged(s.h, ud, Record(req, InFlight)), s.owed), left, true)
  }

  /** The loop over the available ring. */
  function Drain(s: State, takes: seq<nat>, submitted: nat): (State, seq<nat>, nat)
    decreases |s.q.avail| - s.q.nextAvail
  {
    if s.q.nextAvail >= |s.q.avail| then (s, takes, submitted)
    else
      var c := s.q.avail[s.q.nextAvail];
      if |s.d.pending| >= PENDING_CAP then
        (s.(q := Pop(s.q), h := s.h.(capDropped := s.h.capDropped + {s.q.nextAvail})), takes, submitted)
      else
        match Parse(c, s.q.size)
        case None => Drain(s.(q := Pop(s.q)), takes, submitted)
        case Some(req) =>
          var (s', left, ok) := Issue(s, req, takes);
          Drain(s', left, if ok then submitted + 1 else submitted)
  }

  /** `process_queue` with a ring. */
  function Kick(s: State, iterOk: bool, takes: seq<nat>): State {
    if !s.q.ready || !iterOk then s
    else
      var (s', left, submitted) := Drain(s, takes, 0);
      if submitted > 0 then s'.(r := Submit(s'.r, Take(left))) else s'
  }

  /** The request behind id `ud` is returned to the driver. */
  function Finish(s: State, ud: nat): State
    requires ud in s.d.pending
  {
    var p := s.d.pending[ud];
    State(if p.head < s.q.size then s.q.(used := s.q.used + [UsedElem(p.head, (p.len + 1) % U32)]) else s.q,
          s.d.(pending := s.d.pending - {ud}, isr := true, status := s.d.status + [p.statusAddr]),
          s.r,
          if ud in s.h.log
          then s.h.(log := s.h.log[ud := s.h.log[ud].(fate := Done(|s.h.order|))], order := s.h.order + [ud])
          else s.h,
          s.owed - {p.head})
  }

  /** One turn of the completion loop. */
  function ReapOne(s: State): State
    requires s.r.cq != []
  {
    var s1 := if s.r.cq[0] in s.d.pending then Finish(s, s.r.cq[0]) else s;
    s1.(r := s1.r.(cq := s1.r.cq[1..]))
  }

  /** `poll_completions` with a ring. */
  function Reap(s: State): State
    decreases |s.r.cq|
  {
    if s.r.cq == [] then s
    else Reap(ReapOne(s))
  }

  /** `reset`: the queue, the registers and `pending` are cleared; the ring and `next_ud` are not. */
  function Reset(s: State): State {
    State(Init().q, Init().d.(nextUd := s.d.nextUd), s.r, Init().h.(base := s.d.nextUd), {})
  }

  datatype Event =
    | Offer(chain: Chain)                        // the driver makes a chain available
    | Activate(num: nat)                         // the driver enables the queue with a size
    | ProcessQueue(iterOk: bool, takes: seq<nat>)
    | Complete(ud: nat)                          // the kernel finishes a request
    | PollCompletions
    | DeviceReset

  function Next(s: State, e: Event): State {
    match e
    case Offer(c) => s.(q := s.q.(avail := s.q.avail + [c]), owed := s.owed + {c.head})
    case Activate(n) => if s.q.ready then s else s.(q := s.q.(ready := true, size := SetSize(s.q.size, n)))
    case ProcessQueue(iterOk, takes) => Kick(s, iterOk, takes)
    case Complete(ud) =>
      if ud in s.r.kernel then s.(r := s.r.(kernel := s.r.kernel - multiset{ud}, cq := s.r.cq + [ud])) else s
    case PollCompletions => Reap(s)
    case DeviceReset => Reset(s)
  }

  function Run(s: State, es: seq<Event>): State
    decreases |es|
  {
    if es == [] then s else Run(Next(s, es[0]), es[1..])
  }

  // ---------------------------------------------------------------------------------------
  // The device
  // ---------------------------------------------------------------------------------------

  class VirtioBlockDevice {
    var queue: Queue                  // the virtqueue in guest memory
    var pending: map<nat, Pending>
    var nextUd: nat
    var interruptStatus: bool
    var statusOk: seq<nat>            // status bytes written in guest memory
    var ring: Ring                    // io_uring
    ghost var history: History
    ghost var owed: set<nat>

    ghost function Abs(): State
      reads this
    {
      State(queue, Device(pending, nextUd, interruptStatus, statusOk), ring, history, owed)
    }

    constructor ()
      ensures Abs() == Init()
    {
      queue := Queue(false, QUEUE_MAX, [], 0, []);
      pending, nextUd, interruptStatus, statusOk := map[], 0, false, [];
      ring := Ring([], map[], multiset{}, []);
      history, owed := History(0, map[], [], [], {}), {};
    }

    method ActivateQueue(num: nat)
      requires !queue.ready
      modifies this
      ensures queue == old(queue).(ready := true, size := if ValidSize(num % U16) then num % U16 else old(queue.size))
      ensures Abs() == Next(old(Abs()), Activate(num))
    {
      queue := queue.(ready := true, size := SetSize(queue.size, num));
    }

    method DeviceReset()
      modifies this
      ensures pending == map[] && queue == Queue(false, QUEUE_MAX, [], 0, []) && !interruptStatus
      ensures nextUd == old(nextUd) && ring == old(ring)
      ensures Abs() == Reset(old(Abs()))
    {
      interruptStatus, statusOk := false, [];
      queue := Queue(false, QUEUE_MAX, [], 0, []);
      pending := map[];
      history, owed := History(nextUd, map[], [], [], {}), {};
    }

    /** The body of the loop for one well-formed chain, just popped. */
    method IssueRequest(request: Request, takes: seq<nat>) returns (left: seq<nat>, pushed: bool)
      modifies this
      ensures (Abs().(q := Pop(Abs().q)), left, pushed) == Issue(old(Abs()), request, takes)
    {
      var ud := nextUd;
      nextUd := nextUd + 1;
      pending := pending[ud := PendingOf(request)];
      left := takes;
      if |ring.sq| >= RING_SIZE {
        ring := Submit(ring, Take(left));
        left := if left == [] then [] else left[1..];
      }
      pushed := |ring.sq| < RING_SIZE;
      if pushed {
        ring := ring.(sq := ring.sq + [ud], entries := ring.entries[ud := EntryOf(request)]);
      } else {
        pending := pending - {ud};
        assert pending == old(pending) - {ud};
      }
      history := Logged(history, ud, Record(request, if pushed then InFlight else Lost));
    }

    method ProcessQueue(iterOk: bool, takes: seq<nat>)
      modifies this
      ensures Abs() == Kick(old(Abs()), iterOk, takes)
    {
      if !queue.ready || !iterOk {
        return;
      }
      var left := takes;
      var submitted := 0;
      while queue.nextAvail < |queue.avail|
        invariant Drain(Abs(), left, submitted) == Drain(old(Abs()), takes, 0)
        decreases |queue.avail| - queue.nextAvail
      {
        var chain := queue.avail[queue.nextAvail];
        if |pending| >= PENDING_CAP {
          history := history.(capDropped := history.capDropped + {queue.nextAvail});
          queue := Pop(queue);
          break;
        }
        var request := Parse(chain, queue.size);
        if request.Some? {
          var pushed;
          left, pushed := IssueRequest(request.value, left);
          submitted := if pushed then submitted + 1 else submitted;
        }
        queue := Pop(queue);
      }
      if submitted > 0 {
        ring := Submit(ring, Take(left));
      }
    }

    /** The body of the completion loop for an id that is pending. */
    method FinishRequest(ud: nat)
      requires ud in pending
      modifies this
      ensures Abs().(d := Abs().d.(isr := true)) == Finish(old(Abs()), ud)
      ensures interruptStatus == old(interruptStatus)
    {
      var p := pending[ud];
      pending := pending - {ud};
      statusOk := statusOk + [p.statusAddr];
      if p.head < queue.size {
        queue := queue.(used := queue.used + [UsedElem(p.head, (p.len + 1) % U32)]);
      }
      if ud in history.log {
        history := history.(log := history.log[ud := history.log[ud].(fate := Done(|history.order|))],
                            order := history.order + [ud]);
      }
      owed := owed - {p.head};
    }

    method PollCompletions()
      modifies this
      ensures Abs() == Reap(old(Abs()))
    {
      var fired := false;
      while ring.cq != []
        invariant Reap(WithInterrupt(Abs(), fired)) == Reap(old(Abs()))
        decreases |ring.cq|
      {
        var ud := ring.cq[0];
        if ud in pending {
          FinishRequest(ud);
          fired := true;
        }
        ring := ring.(cq := ring.cq[1..]);
      }
      if fired {
        interruptStatus := true;
      }
    }
  }

  function WithInterrupt(s: State, fired: bool): State {
    s.(d := s.d.(isr := s.d.isr || fired))
  }
}
