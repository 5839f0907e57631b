/**
 Which queues lose no request: with a submission queue of 128 entries, and as long as the device
 is not reset, exactly those of at most 128 entries.
 */
module BlockBounds {
  import opened Wrappers
  import opened Virtio
  import opened Block
  import opened BlockRuns

  ghost predicate NoResets(es: seq<Event>) {
    forall i :: 0 <= i < |es| ==> !es[i].DeviceReset?
  }

  lemma {:induction false} SeqInSet(s: seq<nat>, t: set<nat>)
    requires forall x :: x in s ==> multiset(s)[x] == 1 && x in t
    ensures |s| <= |t|
    decreases |s|
  {
    if s != [] {
      var x := s[|s| - 1];
      var init := s[..|s| - 1];
      assert s == init + [x];
      assert multiset(s) == multiset(init) + multiset{x};
      assert x in s;
      forall y | y in init
        ensures multiset(init)[y] == 1 && y in t - {x}
      {
        assert y in s && y in multiset(init);
      }
      SeqInSet(init, t - {x});
    }
  }

  /** Without a reset every queued entry has its pending request. */
  lemma QueuedArePending(s: State)
    requires RingOk(Outstanding(s.r), s.d.pending.Keys, s.h.base, s.d.nextUd) && s.h.base == 0
    ensures |s.r.sq| <= |s.d.pending|
  {
    forall x | x in s.r.sq
      ensures multiset(s.r.sq)[x] == 1 && x in s.d.pending.Keys
    {
      assert x in Outstanding(s.r);
    }
    SeqInSet(s.r.sq, s.d.pending.Keys);
  }

  /** A device that was not reset, with a driver that re-offers only returned heads, and a queue no
      larger than the submission queue. */
  ghost predicate SmallQueue(s: State) {
    Inv(s) && DriverInv(s) && NoneLost(s) && s.h.base == 0 && s.q.ready && s.q.size <= RING_SIZE
  }

  lemma IssueSmall(s: State, req: Request, takes: seq<nat>)
    requires SmallQueue(s) && s.q.nextAvail < |s.q.avail| && Parse(s.q.avail[s.q.nextAvail], s.q.size) == Some(req)
    ensures SmallQueue(Issue(s, req, takes).0)
  {
    hide RingOk, UsedOk, PoppedOk, LogOk, PendingOk, EntriesOk, Outstanding, HeadsOk;
    PendingBelowQueue(s);
    QueuedArePending(s);
    IssueInv(s, req, takes);
    IssueHeads(s, req, takes);
    IssueLoses(s, req, takes);
  }

  lemma SkipSmall(s: State)
    requires SmallQueue(s) && s.q.nextAvail < |s.q.avail| && Parse(s.q.avail[s.q.nextAvail], s.q.size).None?
    ensures SmallQueue(s.(q := Pop(s.q)))
  {
    hide Inv;
    SkipInv(s);
  }

  lemma {:induction false} DrainSmall(s: State, takes: seq<nat>, submitted: nat)
    requires SmallQueue(s)
    ensures SmallQueue(Drain(s, takes, submitted).0)
    decreases |s.q.avail| - s.q.nextAvail
  {
    hide SmallQueue, Issue;
    if s.q.nextAvail < |s.q.avail| {
      SmallMeans(s);
      match Parse(s.q.avail[s.q.nextAvail], s.q.size)
      case None =>
        SkipSmall(s);
        DrainSmall(s.(q := Pop(s.q)), takes, submitted);
      case Some(req) =>
        IssueSmall(s, req, takes);
        IssueMoves(s, req, takes);
        var (t, left, ok) := Issue(s, req, takes);
        DrainSmall(t, left, if ok then submitted + 1 else submitted);
    }
  }

  lemma SmallMeans(s: State)
    requires SmallQueue(s)
    ensures |s.d.pending| < PENDING_CAP
  {
    hide Inv, NoneLost;
    PendingBelowQueue(s);
  }

  lemma IssueMoves(s: State, req: Request, takes: seq<nat>)
    ensures Issue(s, req, takes).0.q == Pop(s.q)
  {
  }

  lemma SubmitSmall(s: State, take: nat)
    requires SmallQueue(s)
    ensures SmallQueue(s.(r := Submit(s.r, take)))
  {
    SubmitOutstanding(s.r, take);
  }

  lemma {:induction false} ReapSmall(s: State)
    requires SmallQueue(s)
    ensures SmallQueue(Reap(s))
    decreases |s.r.cq|
  {
    hide Inv, DriverInv, NoneLost;
    ReapInv(s);
    ReapHeads(s);
    ReapLosesNone(s);
    ReapKeeps(s);
  }

  lemma {:induction false} ReapKeeps(s: State)
    ensures var t := Reap(s); t.h.base == s.h.base && t.q.ready == s.q.ready && t.q.size == s.q.size
    decreases |s.r.cq|
  {
    if s.r.cq != [] {
      ReapKeeps(ReapOne(s));
    }
  }

  lemma OneEvent(s: State, e: Event)
    ensures Run(s, [e]) == Next(s, e)
    ensures Disciplined(s, [e]) <==> (e.Offer? ==> s.q.ready && e.chain.head < s.q.size && e.chain.head !in s.owed)
  {
    hide Next;
    assert [e][1..] == [];
  }

  lemma KickSmall(s: State, iterOk: bool, takes: seq<nat>)
    requires SmallQueue(s)
    ensures SmallQueue(Kick(s, iterOk, takes))
  {
    hide SmallQueue, Drain, Submit;
    DrainSmall(s, takes, 0);
    var (t, left, submitted) := Drain(s, takes, 0);
    SubmitSmall(t, Take(left));
  }

  lemma OtherSmall(s: State, e: Event)
    requires SmallQueue(s) && (e.Offer? || e.Activate? || e.Complete?)
    requires Inv(Next(s, e)) && DriverInv(Next(s, e))
    ensures SmallQueue(Next(s, e))
  {
    hide Inv, DriverInv;
  }

  lemma NextSmall(s: State, e: Event)
    requires SmallQueue(s) && !e.DeviceReset? && Disciplined(s, [e])
    ensures SmallQueue(Next(s, e))
  {
    hide SmallQueue, Kick, Reap, Disciplined, Run;
    match e
    case ProcessQueue(iterOk, takes) => KickSmall(s, iterOk, takes);
    case PollCompletions => ReapSmall(s);
    case _ =>
      SmallParts(s);
      NextInv(s, e);
      DisciplinedRun(s, [e]);
      OneEvent(s, e);
      OtherSmall(s, e);
  }

  lemma SmallParts(s: State)
    requires SmallQueue(s)
    ensures Inv(s) && DriverInv(s)
  {
  }

  lemma {:induction false} SmallQueuesLoseNothing(s: State, es: seq<Event>)
    requires SmallQueue(s) && NoResets(es) && Disciplined(s, es)
    ensures SmallQueue(Run(s, es))
    decreases |es|
  {
    hide SmallQueue, Next;
    if es != [] {
      assert Disciplined(s, [es[0]]) by { assert [es[0]][1..] == []; }
      NextSmall(s, es[0]);
      assert forall i :: 0 <= i < |es[1..]| ==> es[1..][i] == es[i + 1];
      SmallQueuesLoseNothing(Next(s, es[0]), es[1..]);
    }
  }

  // A batch of 129 requests while the kernel takes nothing.

  function ReadChain(head: nat): Chain {
    Chain(head, [Desc(0, 16, Some(Header(0, 0)), Some(0)), Desc(0, 512, None, Some(0)), Desc(0, 1, None, Some(0))])
  }

  function Batch(n: nat): (cs: seq<Chain>)
    ensures |cs| == n && forall i :: 0 <= i < n ==> cs[i] == ReadChain(i)
  {
    seq(n, i requires 0 <= i < n => ReadChain(i))
  }

  function Offers(n: nat): seq<Event> {
    if n == 0 then [] else Offers(n - 1) + [Offer(ReadChain(n - 1))]
  }

  lemma {:induction false} RunSplit(s: State, a: seq<Event>, b: seq<Event>)
    ensures Run(s, a + b) == Run(Run(s, a), b)
    ensures Disciplined(s, a) && Disciplined(Run(s, a), b) ==> Disciplined(s, a + b)
    decreases |a|
  {
    hide Next;
    if a == [] {
      assert a + b == b;
    } else {
      assert (a + b)[0] == a[0] && (a + b)[1..] == a[1..] + b;
      RunSplit(Next(s, a[0]), a[1..], b);
    }
  }

  function Large(): State {
    Init().(q := Init().q.(ready := true))
  }

  function Upto(n: nat): (r: set<nat>)
    ensures forall i: nat :: i in r <==> i < n
  {
    if n == 0 then {} else Upto(n - 1) + {n - 1}
  }

  /** The state after the driver has offered n chains. */
  function Offered(n: nat): State {
    Large().(q := Large().q.(avail := Batch(n)), owed := Upto(n))
  }

  lemma OfferOne(n: nat)
    requires n < QUEUE_MAX
    ensures Next(Offered(n), Offer(ReadChain(n))) == Offered(n + 1)
    ensures Disciplined(Offered(n), [Offer(ReadChain(n))])
  {
    hide ReadChain;
    HeadOf(n);
    OneEvent(Offered(n), Offer(ReadChain(n)));
    assert Batch(n + 1) == Batch(n) + [ReadChain(n)];
  }

  lemma {:induction false} OffersRun(n: nat)
    requires n <= QUEUE_MAX
    ensures Run(Large(), Offers(n)) == Offered(n) && Disciplined(Large(), Offers(n)) && NoResets(Offers(n))
  {
    hide ReadChain, Next, Run, Disciplined;
    if n > 0 {
      OffersRun(n - 1);
      var e := Offer(ReadChain(n - 1));
      OfferOne(n - 1);
      OneEvent(Offered(n - 1), e);
      RunSplit(Large(), Offers(n - 1), [e]);
    } else {
      NoOffers();
    }
  }

  lemma NoOffers()
    ensures Run(Large(), []) == Large() == Offered(0) && Disciplined(Large(), [])
  {
    assert Batch(0) == [];
  }

  lemma HeadOf(n: nat)
    ensures ReadChain(n).head == n
    ensures n < QUEUE_MAX ==> Parse(ReadChain(n), QUEUE_MAX).Some?
  {
  }

  /** If more well-formed chains wait than the submission queue has room for, and the kernel takes
      nothing at first, one of them is lost. */
  lemma {:induction false} DrainLosesOne(s: State, submitted: nat)
    requires Inv(s) && s.q.ready && s.q.nextAvail < |s.q.avail| && |s.r.sq| + (|s.q.avail| - s.q.nextAvail) > RING_SIZE
    requires forall i :: s.q.nextAvail <= i < |s.q.avail| ==> Parse(s.q.avail[i], s.q.size).Some?
    requires |s.d.pending| + (|s.q.avail| - s.q.nextAvail) <= PENDING_CAP
    ensures var t := Drain(s, [0], submitted).0; !NoneLost(t) && t.h.base == s.h.base
    decreases |s.q.avail| - s.q.nextAvail
  {
    hide Inv, Issue, Parse;
    var req := Parse(s.q.avail[s.q.nextAvail], s.q.size).value;
    var (t, left, ok) := Issue(s, req, [0]);
    IssueInv(s, req, [0]);
    IssueRoom(s, req);
    IssueMoves(s, req, [0]);
    if |s.r.sq| == RING_SIZE {
      DrainLater(t, left, submitted);
      DrainBase(t, left, submitted);
      LostStays(t, Drain(t, left, submitted).0, s.d.nextUd);
    } else {
      DrainLosesOne(t, submitted + 1);
    }
  }

  lemma IssueRoom(s: State, req: Request)
    requires Inv(s)
    ensures var (t, left, ok) := Issue(s, req, [0]);
            && t.h.base == s.h.base && |s.r.sq| <= RING_SIZE
            && if |s.r.sq| == RING_SIZE then !ok && s.d.nextUd in t.h.log && t.h.log[s.d.nextUd].fate == Lost
               else ok && left == [0] && |t.r.sq| == |s.r.sq| + 1 && |t.d.pending| <= |s.d.pending| + 1
  {
    hide RingOk, UsedOk, PoppedOk, LogOk, PendingOk, EntriesOk;
    var t := Issue(s, req, [0]).0;
    if |s.r.sq| < RING_SIZE {
      assert t.d.pending.Keys == s.d.pending.Keys + {s.d.nextUd};
      assert |t.d.pending.Keys| == |t.d.pending| && |s.d.pending.Keys| == |s.d.pending|;
    }
  }

  lemma {:induction false} DrainBase(s: State, takes: seq<nat>, submitted: nat)
    ensures Drain(s, takes, submitted).0.h.base == s.h.base
    decreases |s.q.avail| - s.q.nextAvail
  {
    hide Parse;
    if s.q.nextAvail < |s.q.avail| && |s.d.pending| < PENDING_CAP {
      match Parse(s.q.avail[s.q.nextAvail], s.q.size)
      case None => DrainBase(s.(q := Pop(s.q)), takes, submitted);
      case Some(req) =>
        var (t, left, ok) := Issue(s, req, takes);
        DrainBase(t, left, if ok then submitted + 1 else submitted);
    }
  }

  lemma LostStays(s: State, t: State, ud: nat)
    requires Later(s, t) && s.h.base == t.h.base && ud in s.h.log && s.h.log[ud].fate == Lost
    ensures !NoneLost(t)
  {
  }

  /** 129 requests offered at once to a queue of 256, with a kernel that takes nothing when the
      submission queue is full: the last one is lost. */
  function Overload(): seq<Event> {
    [Activate(256)] + Offers(129) + [ProcessQueue(true, [0])]
  }

  lemma OverloadLosesOne()
    ensures Disciplined(Init(), Overload()) && NoResets(Overload()) && !NoneLost(Run(Init(), Overload()))
  {
    hide ReadChain, Inv, NoneLost, Drain, NoResets, Run, Disciplined, Kick;
    var a, e := Activate(256), ProcessQueue(true, [0]);
    OneEvent(Init(), a);
    OneEvent(Offered(129), e);
    OffersRun(129);
    RunSplit(Init(), [a], Offers(129));
    RunSplit(Init(), [a] + Offers(129), [e]);
    BatchIsGood(129);
    BatchIsWhole();
    DrainLosesOne(Offered(129), 0);
    DrainSubmitted(Offered(129));
    KickLoses(Offered(129));
    OverloadResetsNothing();
  }

  lemma BatchIsWhole()
    ensures var t := Offered(129); |t.q.avail| == 129 && t.q.nextAvail == 0 && t.r.sq == [] && t.d.pending == map[] && t.q.size == QUEUE_MAX
  {
  }

  lemma DrainSubmitted(s: State)
    requires Inv(s) && s.q.ready
    ensures |Drain(s, [0], 0).0.r.sq| <= RING_SIZE
  {
    DrainInv(s, [0], 0);
  }

  lemma OverloadResetsNothing()
    ensures NoResets(Overload())
  {
    hide Next;
    OffersRun(129);
  }

  lemma BatchIsGood(n: nat)
    requires n <= QUEUE_MAX
    ensures Inv(Offered(n)) && forall i :: 0 <= i < n ==> Parse(Offered(n).q.avail[i], QUEUE_MAX).Some?
  {
    hide ReadChain;
    forall i | 0 <= i < n
      ensures Parse(Offered(n).q.avail[i], QUEUE_MAX).Some?
    {
      HeadOf(i);
    }
    assert Offered(n).q.avail[..0] == [];
  }

  lemma KickLoses(t: State)
    requires t.q.ready && !NoneLost(Drain(t, [0], 0).0) && |Drain(t, [0], 0).0.r.sq| <= RING_SIZE
    ensures !NoneLost(Kick(t, true, [0]))
  {
    hide Drain;
  }

  /** As long as the device is not reset, a queue size is safe, for every disciplined driver and
      whatever the kernel takes, exactly if it is at most 128. */
  lemma LossBound(n: nat)
    requires ValidSize(n)
    ensures (forall es :: NoResets(es) && Disciplined(Init(), [Activate(n)] + es) ==>
               NoneLost(Run(Init(), [Activate(n)] + es)))
            <==> n <= 128
  {
    hide Disciplined, NoneLost, Run, NoResets, SmallQueue;
    var s := Next(Init(), Activate(n));
    if n <= RING_SIZE {
      assert SmallQueue(s) by { ActivatedSmall(n); }
      forall es | NoResets(es) && Disciplined(Init(), [Activate(n)] + es)
        ensures NoneLost(Run(Init(), [Activate(n)] + es))
      {
        FirstStep(n, es);
        SmallQueuesLoseNothing(s, es);
        SmallLosesNone(Run(s, es));
      }
    } else {
      var es := Offers(129) + [ProcessQueue(true, [0])];
      assert Overload() == [Activate(n)] + es;
      OverloadLosesOne();
      assert NoResets(es) by { TailResetsNothing(n, es); }
    }
  }

  lemma TailResetsNothing(n: nat, es: seq<Event>)
    requires NoResets([Activate(n)] + es)
    ensures NoResets(es)
  {
    assert forall i :: 0 <= i < |es| ==> es[i] == ([Activate(n)] + es)[i + 1];
  }

  lemma SmallLosesNone(s: State)
    requires SmallQueue(s)
    ensures NoneLost(s)
  {
  }

  lemma ActivatedSmall(n: nat)
    requires ValidSize(n) && n <= RING_SIZE
    ensures SmallQueue(Next(Init(), Activate(n)))
  {
    hide Inv;
    InitInv();
    NextInv(Init(), Activate(n));
  }

  lemma FirstStep(n: nat, es: seq<Event>)
    requires Disciplined(Init(), [Activate(n)] + es)
    ensures var s := Next(Init(), Activate(n));
            Disciplined(s, es) && Run(Init(), [Activate(n)] + es) == Run(s, es)
  {
    hide Next;
    assert ([Activate(n)] + es)[1..] == es;
  }
}
