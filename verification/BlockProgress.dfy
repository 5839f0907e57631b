/**
 That the block device gets its work done: a kick hands every request it accepts to the kernel,
 which is asked for what the chain says, and once the kernel has finished a poll returns them all.
 */
module BlockProgress {
  import opened Wrappers
  import opened Virtio
  import opened Block
  import opened BlockRuns

  /** Every submission takes the whole queue. */
  predicate TakesAll(takes: seq<nat>) {
    forall j :: 0 <= j < |takes| ==> takes[j] >= 128
  }

  // ---------------------------------------------------------------------------------------
  // A kick
  // ---------------------------------------------------------------------------------------

  /** What draining the available ring did: `n` requests were accepted, and all of them are pending. */
  ghost predicate Accepted(s: State, t: State, n: nat) {
    && t.d.nextUd == s.d.nextUd + n && |t.r.sq| <= 128
    && t.r.cq == s.r.cq && t.h.base == s.h.base && t.q.ready == s.q.ready
    && s.d.pending.Keys <= t.d.pending.Keys
    && (forall ud :: s.d.nextUd <= ud < t.d.nextUd ==> ud in t.d.pending)
  }

  lemma AcceptedThrough(s: State, t: State, u: State, n: nat, m: nat)
    requires Accepted(s, t, n) && Accepted(t, u, m)
    ensures Accepted(s, u, n + m)
  {
  }

  lemma IssueAccepts(s: State, req: Request, takes: seq<nat>)
    requires Inv(s) && TakesAll(takes)
    ensures var (t, left, ok) := Issue(s, req, takes); ok && TakesAll(left) && Accepted(s, t, 1) && t.q == Pop(s.q)
  {
    hide RingOk, UsedOk, PoppedOk, EntriesOk, PendingOk, LogOk;
    assert s.d.nextUd !in s.d.pending by { NextIsFree(s); }
  }

  lemma NextIsFree(s: State)
    requires PendingOk(s.d.pending, s.h.log) && LogOk(s.h, s.d.nextUd, s.q.size)
    ensures s.d.nextUd !in s.d.pending
  {
  }

  lemma {:induction false} DrainAccepts(s: State, takes: seq<nat>, submitted: nat)
    requires Inv(s) && s.q.ready && TakesAll(takes)
    ensures var (t, left, n) := Drain(s, takes, submitted);
            n >= submitted && TakesAll(left) && Accepted(s, t, n - submitted)
    decreases |s.q.avail| - s.q.nextAvail
  {
    hide Inv, Issue, TakesAll, Accepted;
    assert Accepted(s, s, 0) && |s.r.sq| <= 128 by { NothingAccepted(s); }
    if s.q.nextAvail < |s.q.avail| {
      SkipInv(s);
      SkipAccepts(s);
      if |s.d.pending| < PENDING_CAP {
        match Parse(s.q.avail[s.q.nextAvail], s.q.size)
        case None =>
          var u := s.(q := Pop(s.q));
          DrainAccepts(u, takes, submitted);
          var (t, left, n) := Drain(u, takes, submitted);
          AcceptedThrough(s, u, t, 0, n - submitted);
        case Some(req) =>
          IssueInv(s, req, takes);
          IssueAccepts(s, req, takes);
          var (u, rest, ok) := Issue(s, req, takes);
          DrainAccepts(u, rest, submitted + 1);
          var (t, left, n) := Drain(u, rest, submitted + 1);
          AcceptedThrough(s, u, t, 1, n - submitted - 1);
      }
    }
  }

  lemma NothingAccepted(s: State)
    requires Inv(s)
    ensures Accepted(s, s, 0) && |s.r.sq| <= 128
  {
  }

  lemma SkipAccepts(s: State)
    requires Inv(s)
    ensures Accepted(s, s.(q := Pop(s.q)), 0)
    ensures Accepted(s, s.(q := Pop(s.q), h := s.h.(capDropped := s.h.capDropped + {s.q.nextAvail})), 0)
  {
  }

  lemma SubmitsAll(r: Ring, take: nat)
    requires |r.sq| <= 128 <= take
    ensures var t := Submit(r, take); t.sq == [] && t.kernel == r.kernel + multiset(r.sq) && t.cq == r.cq && t.entries == r.entries
  {
    assert r.sq[..|r.sq|] == r.sq;
  }

  /** A kick that accepts a request leaves nothing in the submission queue, if the kernel takes it, and
      every id it gave out is with the kernel. */
  lemma KickSubmits(s: State, takes: seq<nat>)
    requires Inv(s) && s.q.ready && TakesAll(takes)
    ensures var t := Kick(s, true, takes);
            t.d.nextUd > s.d.nextUd ==>
              && t.r.sq == []
              && (forall ud :: s.d.nextUd <= ud < t.d.nextUd ==> ud in t.d.pending && ud in t.r.kernel)
    ensures var t := Kick(s, true, takes); s.r.sq == [] ==> t.r.sq == []
    ensures Kick(s, true, takes).d.nextUd >= s.d.nextUd
  {
    hide Drain, Inv, TakesAll;
    DrainAccepts(s, takes, 0);
    var (u, left, n) := Drain(s, takes, 0);
    var t := Kick(s, true, takes);
    KickInv(s, true, takes);
    if n > 0 {
      assert Take(left) >= 128 by { TakenAll(left); }
      SubmitsAll(u.r, Take(left));
      forall ud | s.d.nextUd <= ud < t.d.nextUd
        ensures ud in t.d.pending && ud in t.r.kernel
      {
        NewIsOutstanding(s, t, ud);
      }
    } else {
      NoneAccepted(s, takes, 0);
    }
  }

  lemma TakenAll(left: seq<nat>)
    requires TakesAll(left)
    ensures Take(left) >= 128
  {
  }

  lemma NewIsOutstanding(s: State, t: State, ud: nat)
    requires Inv(s) && Inv(t) && t.r.sq == [] && t.r.cq == s.r.cq && ud in t.d.pending && ud >= s.d.nextUd
    requires t.h.base == s.h.base
    ensures ud in t.r.kernel
  {
    hide UsedOk, PoppedOk, EntriesOk, PendingOk, LogOk;
    assert ud !in Outstanding(s.r);
    assert Outstanding(s.r)[ud] == multiset(s.r.sq)[ud] + s.r.kernel[ud] + multiset(s.r.cq)[ud];
    assert multiset(t.r.cq)[ud] == 0;
    assert ud in Outstanding(t.r);
    assert multiset(t.r.sq) == multiset{};
    assert Outstanding(t.r)[ud] == t.r.kernel[ud] + multiset(t.r.cq)[ud];
  }

  /** Without a new request the ring is left as it was. */
  lemma {:induction false} NoneAccepted(s: State, takes: seq<nat>, submitted: nat)
    requires Inv(s) && s.q.ready && TakesAll(takes)
    requires Drain(s, takes, submitted).2 == submitted
    ensures Drain(s, takes, submitted).0.r == s.r
    decreases |s.q.avail| - s.q.nextAvail
  {
    hide Inv, Issue, TakesAll, Accepted;
    if s.q.nextAvail < |s.q.avail| && |s.d.pending| < PENDING_CAP {
      SkipInv(s);
      match Parse(s.q.avail[s.q.nextAvail], s.q.size)
      case None => NoneAccepted(s.(q := Pop(s.q)), takes, submitted);
      case Some(req) =>
        IssueInv(s, req, takes);
        IssueAccepts(s, req, takes);
        var (u, rest, ok) := Issue(s, req, takes);
        DrainAccepts(u, rest, submitted + 1);
    }
  }

  // ---------------------------------------------------------------------------------------
  // What a chain asks for
  // ---------------------------------------------------------------------------------------

  /** A chain that can be served: a head inside the table, a readable header, a data descriptor in
      mapped memory, and a status descriptor. */
  predicate Servable(c: Chain, size: nat) {
    c.head < size && |c.descs| >= 3 && c.descs[0].header.Some? && c.descs[1].host.Some?
  }

  /** The file operation of a request: type 0 reads and any other writes, as many bytes as the data
      descriptor is long, between its memory and the byte 512 times the sector, in 64 bits. */
  ghost predicate Does(e: Entry, c: Chain, size: nat)
    requires Servable(c, size)
  {
    var h := c.descs[0].header.value;
    && (e.op == ReadFile <==> h.reqType == 0)
    && e.len == c.descs[1].len && e.hostPtr == c.descs[1].host.value
    && e.offset < 0x1_0000_0000_0000_0000
    && exists wraps: nat :: 512 * h.sector == e.offset + wraps * 0x1_0000_0000_0000_0000
  }

  /** The chains that can be served, in order. */
  function Served(cs: seq<Chain>, size: nat): (r: seq<Chain>)
    ensures forall i :: 0 <= i < |r| ==> Servable(r[i], size)
  {
    if cs == [] then [] else (if Servable(cs[0], size) then [cs[0]] else []) + Served(cs[1..], size)
  }

  lemma {:induction false} ServedSnoc(cs: seq<Chain>, c: Chain, size: nat)
    ensures Served(cs + [c], size) == Served(cs, size) + if Servable(c, size) then [c] else []
    decreases |cs|
  {
    hide Servable;
    if cs == [] {
      assert (cs + [c])[1..] == [];
    } else {
      assert (cs + [c])[1..] == cs[1..] + [c];
      ServedSnoc(cs[1..], c, size);
    }
  }

  /** A request is its own chain's. */
  ghost predicate RequestOf(r: Request, c: Chain, size: nat)
    requires Servable(c, size)
  {
    r.head == c.head && r.statusAddr == c.descs[2].addr && r.len == c.descs[1].len && Does(EntryOf(r), c, size)
  }

  lemma ParseIs(c: Chain, size: nat)
    ensures Parse(c, size).Some? <==> Servable(c, size)
    ensures Servable(c, size) ==> RequestOf(Parse(c, size).value, c, size)
  {
    if Servable(c, size) {
      var n := c.descs[0].header.value.sector * 512;
      var two64 := 0x1_0000_0000_0000_0000;
      assert n == n % two64 + (n / two64) * two64;
    }
  }

  lemma {:induction false} RequestsAre(cs: seq<Chain>, size: nat)
    ensures var rs, served := Requests(cs, {}, size), Served(cs, size);
            |rs| == |served| && forall i :: 0 <= i < |rs| ==> RequestOf(rs[i], served[i], size)
    decreases |cs|
  {
    hide Parse, RequestOf, Servable;
    if cs != [] {
      var i := |cs| - 1;
      RequestsAre(cs[..i], size);
      assert cs == cs[..i] + [cs[i]];
      ServedSnoc(cs[..i], cs[i], size);
      ParseIs(cs[i], size);
    }
  }

  // ---------------------------------------------------------------------------------------
  // From an offer to its return
  // ---------------------------------------------------------------------------------------

  /** The kernel finishes the ids in some order. */
  function Completes(ids: seq<nat>): seq<Event> {
    seq(|ids|, i requires 0 <= i < |ids| => Complete(ids[i]))
  }

  /** The ring after the kernel has finished the ids. */
  function Finished(s: State, ids: seq<nat>): State {
    s.(r := s.r.(kernel := s.r.kernel - multiset(ids), cq := s.r.cq + ids))
  }

  lemma FinishFirst(s: State, ids: seq<nat>)
    requires ids != [] && multiset(ids) <= s.r.kernel
    ensures Next(s, Complete(ids[0])) == Finished(s, [ids[0]])
    ensures Finished(Finished(s, [ids[0]]), ids[1..]) == Finished(s, ids)
    ensures multiset(ids[1..]) <= Finished(s, [ids[0]]).r.kernel
  {
    var x, rest := ids[0], ids[1..];
    assert ids == [x] + rest;
    assert multiset(ids) == multiset{x} + multiset(rest);
    assert x in multiset(ids);
    assert multiset([x]) == multiset{x};
    assert s.r.kernel - multiset{x} - multiset(rest) == s.r.kernel - multiset(ids);
    assert s.r.cq + [x] + rest == s.r.cq + ids;
  }

  lemma {:induction false} KernelFinishes(s: State, ids: seq<nat>)
    requires multiset(ids) <= s.r.kernel
    ensures Run(s, Completes(ids)) == Finished(s, ids)
    decreases |ids|
  {
    hide Next, Finished;
    if ids == [] {
      NoneFinished(s);
    } else {
      assert Completes(ids)[1..] == Completes(ids[1..]);
      FinishFirst(s, ids);
      KernelFinishes(Finished(s, [ids[0]]), ids[1..]);
    }
  }

  lemma NoneFinished(s: State)
    ensures Finished(s, []) == s
  {
    assert s.r.cq + [] == s.r.cq;
  }

  lemma FinishedInv(s: State, ids: seq<nat>)
    requires Inv(s) && multiset(ids) <= s.r.kernel
    ensures Inv(Finished(s, ids))
  {
    hide Run, PendingOk, UsedOk, LogOk, RingOk, EntriesOk, PoppedOk, Next;
    KernelFinishes(s, ids);
    RunInv(s, Completes(ids));
  }

  lemma {:induction false} DrainPopsAll(s: State, takes: seq<nat>, submitted: nat)
    requires DriverInv(s) && s.q.ready && s.q.nextAvail <= |s.q.avail|
    ensures var t := Drain(s, takes, submitted).0; t.q.nextAvail == |t.q.avail| && t.q.avail == s.q.avail && t.q.size == s.q.size
    decreases |s.q.avail| - s.q.nextAvail
  {
    hide HeadsOk;
    if s.q.nextAvail < |s.q.avail| {
      PendingBelowQueue(s);
      match Parse(s.q.avail[s.q.nextAvail], s.q.size)
      case None => PopHeads(s); DrainPopsAll(s.(q := Pop(s.q)), takes, submitted);
      case Some(req) =>
        IssueHeads(s, req, takes);
        var (t, left, ok) := Issue(s, req, takes);
        DrainPopsAll(t, left, if ok then submitted + 1 else submitted);
    }
  }

  lemma PopHeads(s: State)
    requires DriverInv(s) && s.q.nextAvail < |s.q.avail|
    ensures DriverInv(s.(q := Pop(s.q)))
  {
  }

  lemma {:induction false} ReapPops(s: State)
    ensures var t := Reap(s); t.q.avail == s.q.avail && t.q.nextAvail == s.q.nextAvail && t.q.size == s.q.size && t.d.nextUd == s.d.nextUd
    ensures var t := Reap(s); t.h.base == s.h.base && t.h.asked == s.h.asked && t.h.capDropped == s.h.capDropped
    decreases |s.r.cq|
  {
    if s.r.cq != [] {
      ReapPops(ReapOne(s));
    }
  }

  /** Nothing is left to do. */
  lemma IdleReap(s: State)
    requires Inv(s) && s.r.sq == [] && s.r.kernel == multiset{}
    ensures Inv(Reap(s)) && Reap(s).d.pending == map[]
  {
    hide PendingOk, UsedOk, EntriesOk, LogOk, PoppedOk;
    ReapInv(s);
    ReapEmptiesCq(s);
    assert Outstanding(Reap(s).r) == multiset{};
    assert Reap(s).d.pending.Keys == {};
  }

  /** A driver whose chains are all popped, with nothing pending: each was returned once. */
  ghost predicate AllReturned(s: State) {
    var served := Served(s.q.avail, s.q.size);
    && s.q.nextAvail == |s.q.avail| && s.d.pending == map[]
    && |s.q.used| == |served| == |s.d.status| == |s.h.order| && NoDuplicates(s.h.order)
    && (forall i :: 0 <= i < |s.h.order| ==>
          && 0 <= s.h.order[i] - s.h.base < |served|
          && var c := served[s.h.order[i] - s.h.base];
             s.q.used[i] == UsedElem(c.head, (c.descs[1].len + 1) % 0x1_0000_0000) && s.d.status[i] == c.descs[2].addr)
  }

  lemma ReturnsAll(s: State)
    requires Inv(s) && NoneLost(s) && s.h.capDropped == {} && s.q.nextAvail == |s.q.avail| && s.d.pending == map[]
    ensures AllReturned(s)
  {
    hide RingOk, EntriesOk, Requests, Served, Parse, NoDuplicates, PendingOk, UsedOk, LogOk;
    PlacesOf(s);
    ReturnsOf(s);
    NoneIsMissing(s);
    assert s.q.avail[..s.q.nextAvail] == s.q.avail;
    RequestsAre(s.q.avail, s.q.size);
  }

  /** With nothing pending and nothing lost, as many were returned as were asked. */
  lemma NoneIsMissing(s: State)
    requires OnePlaceEach(s.d, s.h) && ReturnedOnce(s.q.used, s.d, s.h) && NoneLost(s) && s.d.pending == map[]
    ensures |s.h.order| == |s.h.asked|
  {
    AllIds(s.h.order, s.h.base, |s.h.asked|);
  }

  /** A list without repetition that holds just the numbers from base on, n of them, has n entries. */
  lemma AllIds(order: seq<nat>, base: nat, n: nat)
    requires NoDuplicates(order) && (forall i :: 0 <= i < |order| ==> base <= order[i] < base + n)
    requires forall ud :: base <= ud < base + n ==> ud in order
    ensures |order| == n
  {
    SizeOfDistinct(order);
    RangeSize(base, n);
    assert MembersOf(order) == Ids(base, n);
  }

  function Ids(base: nat, n: nat): (s: set<nat>)
    ensures forall ud :: ud in s <==> base <= ud < base + n
  {
    if n == 0 then {} else Ids(base, n - 1) + {base + n - 1}
  }

  lemma {:induction false} RangeSize(base: nat, n: nat)
    ensures |Ids(base, n)| == n
  {
    if n > 0 {
      RangeSize(base, n - 1);
    }
  }

  function MembersOf(s: seq<nat>): (r: set<nat>)
    ensures forall x :: x in r <==> x in s
  {
    if s == [] then {} else MembersOf(s[..|s| - 1]) + {s[|s| - 1]}
  }

  lemma {:induction false} SizeOfDistinct(s: seq<nat>)
    requires NoDuplicates(s)
    ensures |MembersOf(s)| == |s|
    decreases |s|
  {
    if s != [] {
      SizeOfDistinct(s[..|s| - 1]);
    }
  }

  /** The chains not yet popped. */
  function Waiting(q: Queue): seq<Chain> {
    if q.nextAvail <= |q.avail| then q.avail[q.nextAvail..] else []
  }

  /** After any run of a disciplined driver with a kernel that takes entries: a kick whose submission is
      taken, the completion of all the kernel works on, in any order, and a poll return every chain
      that can be served, each once with its own head, length and status, and leave nothing pending;
      provided that the submission queue was empty or a chain that can be served was waiting. */
  lemma EveryChainIsServed(es: seq<Event>, takes: seq<nat>, ids: seq<nat>)
    requires Disciplined(Init(), es) && KernelTakes(es) && TakesAll(takes)
    requires var s := Run(Init(), es);
             s.q.ready && (s.r.sq == [] || Served(Waiting(s.q), s.q.size) != [])
    requires multiset(ids) == Kick(Run(Init(), es), true, takes).r.kernel
    ensures AllReturned(Reap(Run(Kick(Run(Init(), es), true, takes), Completes(ids))))
  {
    hide Run, Disciplined, KernelTakes, Inv, DriverInv, NoneLost, Served, Drain, TakesAll, Kick;
    var s := Run(Init(), es);
    RunInv(Init(), es) by { InitInv(); }
    assert DriverInv(Init()) by { InitDriver(); }
    DisciplinedRun(Init(), es);
    assert NoneLost(Init()) by { InitLosesNone(); }
    RunLosesNone(Init(), es);
    var t := Kick(s, true, takes);
    KickInv(s, true, takes);
    KickSubmits(s, takes);
    KickPopsAll(s, takes);
    if s.r.sq != [] {
      ServedIsAccepted(s, takes);
    }
    KernelFinishes(t, ids);
    FinishedInv(t, ids);
    var u := Run(t, Completes(ids));
    assert u.r.kernel == multiset{} && u.r.sq == [];
    IdleReap(u);
    ReapPops(u);
    assert NoneLost(u) by { CompletesLoseNone(t, u); }
    ReapLosesNone(u);
    ReturnsAll(Reap(u));
  }

  lemma InitDriver()
    ensures DriverInv(Init())
  {
  }

  lemma InitLosesNone()
    ensures NoneLost(Init())
  {
  }

  lemma CompletesLoseNone(t: State, u: State)
    requires NoneLost(t) && u.h == t.h && u.r.sq == t.r.sq
    ensures NoneLost(u)
  {
  }

  lemma KickPopsAll(s: State, takes: seq<nat>)
    requires Inv(s) && DriverInv(s) && s.q.ready && TakesAll(takes) && NoneLost(s)
    ensures var t := Kick(s, true, takes);
            t.q.nextAvail == |t.q.avail| && t.h.capDropped == {} && NoneLost(t)
  {
    hide HeadsOk, Drain, TakesAll, RingOk, UsedOk, EntriesOk, LogOk, PendingOk;
    DrainPopsAll(s, takes, 0);
    DrainHeads(s, takes, 0);
    assert forall j :: 0 <= j < |takes| ==> takes[j] > 0 by { TakesSome(takes); }
    DrainLosesNone(s, takes, 0);
  }

  lemma TakesSome(takes: seq<nat>)
    requires TakesAll(takes)
    ensures forall j :: 0 <= j < |takes| ==> takes[j] > 0
  {
  }

  /** A waiting chain that can be served is accepted. */
  lemma ServedIsAccepted(s: State, takes: seq<nat>)
    requires Inv(s) && DriverInv(s) && s.q.ready && TakesAll(takes)
    requires Served(Waiting(s.q), s.q.size) != []
    ensures Kick(s, true, takes).d.nextUd > s.d.nextUd
  {
    hide Drain, TakesAll, HeadsOk;
    DrainAccepts(s, takes, 0);
    SomeAccepted(s, takes, 0);
  }

  lemma {:induction false} SomeAccepted(s: State, takes: seq<nat>, submitted: nat)
    requires Inv(s) && DriverInv(s) && s.q.ready && TakesAll(takes) && s.q.nextAvail <= |s.q.avail|
    requires Served(Waiting(s.q), s.q.size) != []
    ensures Drain(s, takes, submitted).2 > submitted
    decreases |s.q.avail| - s.q.nextAvail
  {
    hide Inv, HeadsOk, Issue, TakesAll, Servable, Accepted;
    var rest := Waiting(s.q);
    assert rest != [] && rest[1..] == s.q.avail[s.q.nextAvail + 1..] == Waiting(Pop(s.q));
    PendingBelowQueue(s);
    ParseIs(rest[0], s.q.size);
    SkipInv(s);
    match Parse(rest[0], s.q.size)
    case None =>
      PopHeads(s);
      SomeAccepted(s.(q := Pop(s.q)), takes, submitted);
    case Some(req) =>
      IssueInv(s, req, takes);
      IssueAccepts(s, req, takes);
      var (u, left, ok) := Issue(s, req, takes);
      DrainAccepts(u, left, submitted + 1);
  }

  /** A poll that returns something raises the interrupt. */
  lemma {:induction false} PollRaisesInterrupt(s: State)
    ensures s.d.isr || Reap(s).q.used != s.q.used ==> Reap(s).d.isr
    decreases |s.r.cq|
  {
    if s.r.cq != [] {
      PollRaisesInterrupt(ReapOne(s));
    }
  }

  /** What the kernel is asked: in every run of such a driver each request given out since the last
      reset and not lost asks for what its own chain says. */
  lemma KernelDoesWhatIsAsked(es: seq<Event>)
    requires Disciplined(Init(), es)
    ensures var s := Run(Init(), es);
            && s.q.nextAvail <= |s.q.avail|
            && var served := Served(s.q.avail[..s.q.nextAvail], s.q.size);
               forall ud :: ud in s.h.log && s.h.log[ud].fate != Lost ==>
                 && 0 <= ud - s.h.base < |served| && ud in s.r.entries
                 && Does(s.r.entries[ud], served[ud - s.h.base], s.q.size)
  {
    hide Run, Disciplined, PendingOk, UsedOk, RingOk, Served, Servable, Does, Requests;
    RunInv(Init(), es) by { InitInv(); }
    CapUnreachable(es);
    var s := Run(Init(), es);
    RequestsAre(s.q.avail[..s.q.nextAvail], s.q.size);
  }
}
