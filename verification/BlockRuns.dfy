/**
 What the virtio-block device keeps over whole runs: every request is in exactly one place
 and is returned at most once with its own head, ids are not reused across resets, and with a
 driver that offers a head again only after its return the cap on requests is out of reach.
 */
module BlockRuns {
  import opened Wrappers
  import opened Virtio
  import opened Block

  // ---------------------------------------------------------------------------------------
  // Conservation: an invariant of every run, whatever the guest does
  // ---------------------------------------------------------------------------------------

  /** The device agrees with the log: `pending` holds exactly the requests in flight, each
      under its own id and with its own head, length and status address. */
  ghost predicate PendingOk(pending: map<nat, Pending>, log: map<nat, Record>) {
    && (forall ud :: ud in pending ==>
          ud in log && log[ud].fate == InFlight && pending[ud] == PendingOf(log[ud].req))
    && (forall ud :: ud in log && log[ud].fate == InFlight ==> ud in pending)
  }

  /** The used ring holds exactly the requests that are done, each at its own position and
      with its own head. */
  ghost predicate UsedOk(used: seq<UsedElem>, status: seq<nat>, order: seq<nat>, log: map<nat, Record>) {
    && |used| == |status| == |order|
    && (forall i :: 0 <= i < |order| ==>
          && order[i] in log && log[order[i]].fate == Done(i)
          && used[i] == UsedOf(log[order[i]].req)
          && status[i] == log[order[i]].req.statusAddr)
    && (forall ud :: ud in log && log[ud].fate.Done? ==>
          log[ud].fate.pos < |order| && order[log[ud].fate.pos] == ud)
  }

  /** Each id is outstanding at most once, and the outstanding ids of the present epoch are
      exactly the pending ones. */
  ghost predicate RingOk(out: multiset<nat>, pending: set<nat>, base: nat, nextUd: nat) {
    && base <= nextUd
    && (forall ud :: ud in out ==> out[ud] == 1 && ud < nextUd && (base <= ud ==> ud in pending))
    && (forall ud :: ud in pending ==> ud in out)
  }

  /** The kernel is asked to do what the chain says: read or write, where, how much. */
  ghost predicate EntriesOk(entries: map<nat, Entry>, log: map<nat, Record>) {
    forall ud :: ud in log && log[ud].fate != Lost ==> ud in entries && entries[ud] == EntryOf(log[ud].req)
  }

  /** Ids are given out in order, and the log says what each of them asked for. */
  ghost predicate LogOk(h: History, nextUd: nat, size: nat) {
    && nextUd == h.base + |h.asked|
    && (forall ud :: h.base <= ud < nextUd <==> ud in h.log)
    && (forall ud :: ud in h.log ==> h.log[ud].req == h.asked[ud - h.base] && h.log[ud].req.head < size)
  }

  /** The requests are the well-formed chains that were popped, in order, without those popped
      while the cap was reached. */
  ghost predicate PoppedOk(q: Queue, asked: seq<Request>, capDropped: set<nat>) {
    && q.nextAvail <= |q.avail|
    && q.size <= QUEUE_MAX
    && (!q.ready ==> q.nextAvail == 0)
    && (forall i :: i in capDropped ==> i < q.nextAvail)
    && asked == Requests(q.avail[..q.nextAvail], capDropped, q.size)
  }

  ghost predicate Inv(s: State) {
    && |s.r.sq| <= RING_SIZE
    && PendingOk(s.d.pending, s.h.log)
    && UsedOk(s.q.used, s.d.status, s.h.order, s.h.log)
    && RingOk(Outstanding(s.r), s.d.pending.Keys, s.h.base, s.d.nextUd)
    && EntriesOk(s.r.entries, s.h.log)
    && LogOk(s.h, s.d.nextUd, s.q.size)
    && PoppedOk(s.q, s.h.asked, s.h.capDropped)
  }

  lemma SubmitOutstanding(r: Ring, take: nat)
    ensures Outstanding(Submit(r, take)) == Outstanding(r)
  {
    var k := if take < |r.sq| then take else |r.sq|;
    assert r.sq == r.sq[..k] + r.sq[k..];
  }

  lemma RequestsSnoc(q: Queue, skip: set<nat>)
    requires q.nextAvail < |q.avail|
    ensures Requests(q.avail[..q.nextAvail + 1], skip, q.size) ==
            Requests(q.avail[..q.nextAvail], skip, q.size) +
            (if q.nextAvail in skip then []
             else match Parse(q.avail[q.nextAvail], q.size) case None => [] case Some(r) => [r])
  {
    var cs := q.avail[..q.nextAvail + 1];
    assert cs[..|cs| - 1] == q.avail[..q.nextAvail];
  }

  /** Positions past the end do not matter. */
  lemma {:induction false} RequestsSkip(cs: seq<Chain>, skip: set<nat>, more: set<nat>, size: nat)
    requires forall i :: i in more - skip ==> i >= |cs|
    requires skip <= more
    ensures Requests(cs, skip, size) == Requests(cs, more, size)
    decreases |cs|
  {
    hide Parse;
    if cs != [] {
      var i := |cs| - 1;
      assert i in more && i !in skip ==> i in more - skip;
      RequestsSkip(cs[..i], skip, more, size);
    }
  }

  lemma PopOk(q: Queue, asked: seq<Request>, capDropped: set<nat>)
    requires PoppedOk(q, asked, capDropped) && q.ready && q.nextAvail < |q.avail|
    ensures match Parse(q.avail[q.nextAvail], q.size)
            case None => PoppedOk(Pop(q), asked, capDropped)
            case Some(req) => PoppedOk(Pop(q), asked + [req], capDropped)
    ensures PoppedOk(Pop(q), asked, capDropped + {q.nextAvail})
  {
    hide Parse;
    RequestsSnoc(q, capDropped);
    RequestsSnoc(q, capDropped + {q.nextAvail});
    RequestsSkip(q.avail[..q.nextAvail], capDropped, capDropped + {q.nextAvail}, q.size);
  }

  lemma RingGrows(out: multiset<nat>, pending: set<nat>, base: nat, nextUd: nat)
    requires RingOk(out, pending, base, nextUd)
    ensures RingOk(out, pending - {nextUd}, base, nextUd + 1)
    ensures RingOk(out + multiset{nextUd}, pending + {nextUd}, base, nextUd + 1)
  {
  }

  /** The id is lost exactly when the queue was full and the kernel took nothing. */
  lemma IssueLoses(s: State, req: Request, takes: seq<nat>)
    requires |s.r.sq| <= RING_SIZE
    ensures var (t, left, ok) := Issue(s, req, takes);
            && ok == !(|s.r.sq| == RING_SIZE && Take(takes) == 0)
            && (s.d.nextUd in t.d.pending <==> ok)
            && t.h == Logged(s.h, s.d.nextUd, Record(req, if ok then InFlight else Lost))
  {
  }

  lemma LogGrows(s: State, rec: Record)
    requires LogOk(s.h, s.d.nextUd, s.q.size) && !rec.fate.Done? && rec.req.head < s.q.size
    requires UsedOk(s.q.used, s.d.status, s.h.order, s.h.log)
    ensures var h := Logged(s.h, s.d.nextUd, rec);
            LogOk(h, s.d.nextUd + 1, s.q.size) && UsedOk(s.q.used, s.d.status, h.order, h.log)
  {
  }

  /** Issuing puts the new id into the submission queue and the in-flight map, or into neither. */
  lemma IssueShape(s: State, req: Request, takes: seq<nat>)
    ensures var t := Issue(s, req, takes).0; var ud := s.d.nextUd; var r := MakeRoom(s.r, takes).0;
            && t.d.nextUd == ud + 1 && t.h.base == s.h.base
            && if |r.sq| >= RING_SIZE then t.r == r && t.d.pending.Keys == s.d.pending.Keys - {ud}
               else (t.r.sq == r.sq + [ud] && t.r.kernel == r.kernel && t.r.cq == r.cq
                     && t.d.pending.Keys == s.d.pending.Keys + {ud})
  {
    hide MakeRoom, Outstanding;
  }

  lemma QueuedOutstanding(r: Ring, r': Ring, ud: nat)
    requires r'.sq == r.sq + [ud] && r'.kernel == r.kernel && r'.cq == r.cq
    ensures Outstanding(r') == Outstanding(r) + multiset{ud}
  {
  }

  lemma RoomOutstanding(r: Ring, takes: seq<nat>)
    ensures Outstanding(MakeRoom(r, takes).0) == Outstanding(r)
  {
    hide Outstanding, Submit;
    SubmitOutstanding(r, Take(takes));
  }

  lemma IssueRingOk(s: State, req: Request, takes: seq<nat>)
    requires RingOk(Outstanding(s.r), s.d.pending.Keys, s.h.base, s.d.nextUd)
    ensures var t := Issue(s, req, takes).0;
            RingOk(Outstanding(t.r), t.d.pending.Keys, t.h.base, t.d.nextUd)
  {
    hide RingOk, Outstanding, MakeRoom, Issue;
    IssueShape(s, req, takes);
    RoomOutstanding(s.r, takes);
    var r := MakeRoom(s.r, takes).0;
    if |r.sq| < RING_SIZE {
      QueuedOutstanding(r, Issue(s, req, takes).0.r, s.d.nextUd);
    }
    RingGrows(Outstanding(s.r), s.d.pending.Keys, s.h.base, s.d.nextUd);
  }

  lemma IssuePendingOk(s: State, req: Request, takes: seq<nat>)
    requires LogOk(s.h, s.d.nextUd, s.q.size) && PendingOk(s.d.pending, s.h.log)
    ensures PendingOk(Issue(s, req, takes).0.d.pending, Issue(s, req, takes).0.h.log)
  {
  }

  lemma IssueEntriesOk(s: State, req: Request, takes: seq<nat>)
    requires LogOk(s.h, s.d.nextUd, s.q.size) && EntriesOk(s.r.entries, s.h.log)
    ensures EntriesOk(Issue(s, req, takes).0.r.entries, Issue(s, req, takes).0.h.log)
  {
  }

  lemma IssueInv(s: State, req: Request, takes: seq<nat>)
    requires Inv(s) && s.q.ready && s.q.nextAvail < |s.q.avail|
    requires Parse(s.q.avail[s.q.nextAvail], s.q.size) == Some(req)
    ensures Inv(Issue(s, req, takes).0)
  {
    hide RingOk, UsedOk, PoppedOk, LogOk, PendingOk, EntriesOk, Outstanding, Requests;
    IssueRingOk(s, req, takes);
    IssuePendingOk(s, req, takes);
    IssueEntriesOk(s, req, takes);
    PopOk(s.q, s.h.asked, s.h.capDropped);
    LogGrows(s, Record(req, InFlight));
    LogGrows(s, Record(req, Lost));
  }

  lemma SkipInv(s: State)
    requires Inv(s) && s.q.ready && s.q.nextAvail < |s.q.avail|
    ensures Parse(s.q.avail[s.q.nextAvail], s.q.size).None? ==> Inv(s.(q := Pop(s.q)))
    ensures Inv(s.(q := Pop(s.q), h := s.h.(capDropped := s.h.capDropped + {s.q.nextAvail})))
  {
    hide RingOk, UsedOk, PoppedOk, Outstanding, EntriesOk, PendingOk;
    PopOk(s.q, s.h.asked, s.h.capDropped);
  }

  lemma {:induction false} DrainInv(s: State, takes: seq<nat>, submitted: nat)
    requires Inv(s) && s.q.ready
    ensures Inv(Drain(s, takes, submitted).0)
    decreases |s.q.avail| - s.q.nextAvail
  {
    hide Inv;
    if s.q.nextAvail < |s.q.avail| {
      SkipInv(s);
      var c := s.q.avail[s.q.nextAvail];
      if |s.d.pending| < PENDING_CAP {
        match Parse(c, s.q.size)
        case None => DrainInv(s.(q := Pop(s.q)), takes, submitted);
        case Some(req) =>
          IssueInv(s, req, takes);
          var (s', left, ok) := Issue(s, req, takes);
          DrainInv(s', left, if ok then submitted + 1 else submitted);
      }
    }
  }

  lemma KickInv(s: State, iterOk: bool, takes: seq<nat>)
    requires Inv(s)
    ensures Inv(Kick(s, iterOk, takes))
  {
    if s.q.ready && iterOk {
      DrainInv(s, takes, 0);
      var (s', left, submitted) := Drain(s, takes, 0);
      SubmitOutstanding(s'.r, Take(left));
    }
  }

  lemma FinishOk(s: State, ud: nat)
    requires ud in s.d.pending && PendingOk(s.d.pending, s.h.log) && LogOk(s.h, s.d.nextUd, s.q.size)
    ensures var t := Finish(s, ud); PendingOk(t.d.pending, t.h.log) && LogOk(t.h, t.d.nextUd, t.q.size)
    ensures EntriesOk(s.r.entries, s.h.log) ==> EntriesOk(s.r.entries, Finish(s, ud).h.log)
  {
  }

  lemma FinishUsed(s: State, ud: nat)
    requires ud in s.d.pending && PendingOk(s.d.pending, s.h.log) && LogOk(s.h, s.d.nextUd, s.q.size)
    requires UsedOk(s.q.used, s.d.status, s.h.order, s.h.log)
    ensures var t := Finish(s, ud); UsedOk(t.q.used, t.d.status, t.h.order, t.h.log)
  {
  }

  lemma ReapRing(r: Ring, pending: set<nat>, base: nat, nextUd: nat)
    requires r.cq != [] && RingOk(Outstanding(r), pending, base, nextUd)
    ensures Outstanding(r.(cq := r.cq[1..])) == Outstanding(r) - multiset{r.cq[0]}
    ensures RingOk(Outstanding(r.(cq := r.cq[1..])), pending - {r.cq[0]}, base, nextUd)
  {
    assert r.cq == [r.cq[0]] + r.cq[1..];
    assert Outstanding(r.(cq := r.cq[1..])) == Outstanding(r) - multiset{r.cq[0]};
  }

  lemma ReapOneInv(s: State)
    requires s.r.cq != [] && Inv(s)
    ensures Inv(ReapOne(s))
  {
    hide RingOk, PendingOk, UsedOk, EntriesOk, LogOk, Outstanding, Requests;
    var ud := s.r.cq[0];
    ReapRing(s.r, s.d.pending.Keys, s.h.base, s.d.nextUd);
    if ud in s.d.pending {
      FinishOk(s, ud);
      FinishUsed(s, ud);
      assert ReapOne(s).d.pending.Keys == s.d.pending.Keys - {ud};
    } else {
      assert s.d.pending.Keys - {ud} == s.d.pending.Keys;
    }
  }

  lemma {:induction false} ReapInv(s: State)
    requires Inv(s)
    ensures Inv(Reap(s))
    decreases |s.r.cq|
  {
    hide Inv;
    if s.r.cq != [] {
      ReapOneInv(s);
      ReapInv(ReapOne(s));
    }
  }

  lemma ResetInv(s: State)
    requires Inv(s)
    ensures Inv(Reset(s))
  {
  }

  lemma OfferInv(s: State, c: Chain)
    requires Inv(s)
    ensures Inv(Next(s, Offer(c)))
  {
    assert (s.q.avail + [c])[..s.q.nextAvail] == s.q.avail[..s.q.nextAvail];
  }

  lemma NextInv(s: State, e: Event)
    requires Inv(s)
    ensures Inv(Next(s, e))
  {
    match e
    case Offer(c) => OfferInv(s, c);
    case Activate(n) =>
      assert s.q.avail[..0] == [];
    case ProcessQueue(iterOk, takes) => KickInv(s, iterOk, takes);
    case Complete(ud) =>
      assert Outstanding(Next(s, e).r) == Outstanding(s.r);
    case PollCompletions => ReapInv(s);
    case DeviceReset => ResetInv(s);
  }

  lemma {:induction false} RunInv(s: State, es: seq<Event>)
    requires Inv(s)
    ensures Inv(Run(s, es))
    decreases |es|
  {
    hide Inv;
    if es != [] {
      NextInv(s, es[0]);
      RunInv(Next(s, es[0]), es[1..]);
    }
  }

  /** Each id given out since the last reset is pending, or returned, or lost, and only one of
      these; a pending id carries what its own chain asked for. */
  ghost predicate OnePlaceEach(d: Device, h: History) {
    && d.nextUd == h.base + |h.asked|
    && (forall ud :: h.base <= ud < d.nextUd <==> ud in h.log)
    && (forall ud :: ud in h.log ==> (ud in d.pending <==> ud !in h.order && h.log[ud].fate != Lost))
    && (forall ud :: ud in h.log && ud in h.order ==> h.log[ud].fate != Lost)
    && (forall ud :: ud in d.pending ==> ud in h.log && d.pending[ud] == PendingOf(h.asked[ud - h.base]))
  }

  /** The used ring lists the returned requests, none twice, each with its own head and length. */
  ghost predicate ReturnedOnce(used: seq<UsedElem>, d: Device, h: History) {
    && NoDuplicates(h.order)
    && |used| == |d.status| == |h.order|
    && (forall i :: 0 <= i < |h.order| ==>
          && 0 <= h.order[i] - h.base < |h.asked|
          && used[i] == UsedOf(h.asked[h.order[i] - h.base])
          && d.status[i] == h.asked[h.order[i] - h.base].statusAddr)
  }

  lemma PlacesOf(s: State)
    requires PendingOk(s.d.pending, s.h.log) && LogOk(s.h, s.d.nextUd, s.q.size)
    requires UsedOk(s.q.used, s.d.status, s.h.order, s.h.log)
    ensures OnePlaceEach(s.d, s.h)
  {
    assert forall i :: 0 <= i < |s.h.order| ==> s.h.order[i] in s.h.log && s.h.log[s.h.order[i]].fate == Done(i);
  }

  lemma ReturnsOf(s: State)
    requires LogOk(s.h, s.d.nextUd, s.q.size)
    requires UsedOk(s.q.used, s.d.status, s.h.order, s.h.log)
    ensures ReturnedOnce(s.q.used, s.d, s.h)
  {
  }

  /** In every run, whatever the guest offers and in whatever order the kernel completes: each
      request is in one place, each return is a request's own, and the requests are the
      well-formed chains popped so far, without those popped while the cap was reached. */
  lemma ExactlyOnce(es: seq<Event>)
    ensures var s := Run(Init(), es);
            && OnePlaceEach(s.d, s.h)
            && ReturnedOnce(s.q.used, s.d, s.h)
            && PoppedOk(s.q, s.h.asked, s.h.capDropped)
  {
    hide Run, PendingOk, UsedOk, LogOk, RingOk, EntriesOk, PoppedOk;
    RunInv(Init(), es) by { InitInv(); }
    PlacesOf(Run(Init(), es));
    ReturnsOf(Run(Init(), es));
  }

  lemma InitInv()
    ensures Inv(Init())
  {
  }

  /** When the ring has nothing left to do, polling leaves nothing pending: no request is stuck. */
  lemma PollDrainsIdleRing(es: seq<Event>)
    ensures var s := Run(Init(), es);
            s.r.sq == [] && s.r.kernel == multiset{} ==> Reap(s).d.pending == map[]
  {
    var s := Run(Init(), es);
    RunInv(Init(), es);
    ReapInv(s);
    ReapEmptiesCq(s);
    if s.r.sq == [] && s.r.kernel == multiset{} {
      assert Outstanding(Reap(s).r) == multiset{};
      assert Reap(s).d.pending.Keys == {};
    }
  }

  lemma {:induction false} ReapEmptiesCq(s: State)
    ensures Reap(s).r == s.r.(cq := [])
    decreases |s.r.cq|
  {
    if s.r.cq != [] {
      ReapEmptiesCq(ReapOne(s));
    }
  }

  // ---------------------------------------------------------------------------------------
  // What stays true as a run goes on
  // ---------------------------------------------------------------------------------------

  /** Ids only grow, and a request that was returned or lost stays so until a reset. */
  ghost predicate Later(s: State, t: State) {
    && s.d.nextUd <= t.d.nextUd && s.h.base <= t.h.base
    && (s.h.base == t.h.base ==>
          forall ud :: ud in s.h.log && s.h.log[ud].fate != InFlight ==> ud in t.h.log && t.h.log[ud] == s.h.log[ud])
  }

  lemma LaterTransitive(s: State, t: State, u: State)
    requires Later(s, t) && Later(t, u)
    ensures Later(s, u)
  {
  }

  lemma {:induction false} DrainLater(s: State, takes: seq<nat>, submitted: nat)
    requires Inv(s) && s.q.ready
    ensures Later(s, Drain(s, takes, submitted).0)
    decreases |s.q.avail| - s.q.nextAvail
  {
    if s.q.nextAvail < |s.q.avail| && |s.d.pending| < PENDING_CAP {
      SkipInv(s);
      match Parse(s.q.avail[s.q.nextAvail], s.q.size)
      case None => DrainLater(s.(q := Pop(s.q)), takes, submitted);
      case Some(req) =>
        IssueInv(s, req, takes);
        var (t, left, ok) := Issue(s, req, takes);
        DrainLater(t, left, if ok then submitted + 1 else submitted);
        IssueLater(s, req, takes);
        LaterTransitive(s, t, Drain(s, takes, submitted).0);
    }
  }

  lemma IssueLater(s: State, req: Request, takes: seq<nat>)
    requires LogOk(s.h, s.d.nextUd, s.q.size)
    ensures Later(s, Issue(s, req, takes).0)
  {
  }

  lemma ReapOneLater(s: State)
    requires s.r.cq != [] && PendingOk(s.d.pending, s.h.log)
    ensures Later(s, ReapOne(s))
  {
  }

  lemma {:induction false} ReapLater(s: State)
    requires Inv(s)
    ensures Later(s, Reap(s))
    decreases |s.r.cq|
  {
    if s.r.cq != [] {
      ReapOneInv(s);
      ReapOneLater(s);
      ReapLater(ReapOne(s));
      LaterTransitive(s, ReapOne(s), Reap(s));
    }
  }

  lemma NextLater(s: State, e: Event)
    requires Inv(s)
    ensures Later(s, Next(s, e))
  {
    match e
    case ProcessQueue(iterOk, takes) =>
      if s.q.ready && iterOk {
        DrainLater(s, takes, 0);
      }
    case PollCompletions => ReapLater(s);
    case _ =>
  }

  lemma {:induction false} RunLater(s: State, es: seq<Event>)
    requires Inv(s)
    ensures Later(s, Run(s, es))
    decreases |es|
  {
    if es != [] {
      NextInv(s, es[0]);
      NextLater(s, es[0]);
      RunLater(Next(s, es[0]), es[1..]);
      LaterTransitive(s, Next(s, es[0]), Run(s, es));
    }
  }

  /** After a reset no id from before it is ever pending or returned again, however the run
      goes on: ids are not reused. */
  lemma ResetRetiresIds(before: seq<Event>, after: seq<Event>)
    ensures var s := Run(Init(), before);
            var t := Run(Reset(s), after);
            && s.d.nextUd <= t.h.base
            && (forall ud :: ud < s.d.nextUd ==> ud !in t.d.pending && ud !in t.h.order)
  {
    hide Run, PendingOk, UsedOk, LogOk, RingOk, EntriesOk, PoppedOk;
    InitInv();
    var s := Run(Init(), before);
    RunInv(Init(), before);
    ResetInv(s);
    var t := Run(Reset(s), after);
    RunLater(Reset(s), after);
    RunInv(Reset(s), after);
    IdsAreCurrent(t);
  }

  lemma IdsAreCurrent(s: State)
    requires PendingOk(s.d.pending, s.h.log) && LogOk(s.h, s.d.nextUd, s.q.size)
    requires UsedOk(s.q.used, s.d.status, s.h.order, s.h.log)
    ensures forall ud :: ud < s.h.base ==> ud !in s.d.pending && ud !in s.h.order
  {
  }

  /** The completions of ids given out since the last reset. */
  function Current(cq: seq<nat>, base: nat): seq<nat> {
    if cq == [] then []
    else (if cq[0] >= base then [cq[0]] else []) + Current(cq[1..], base)
  }

  /** So a completion left over from before a reset changes nothing: polling has the same
      effect on the queue, the device and the driver as if those completions were not there. */
  lemma {:induction false} StaleCompletionsIgnored(s: State)
    requires forall ud :: ud in s.d.pending ==> s.h.base <= ud
    ensures var t := Reap(s.(r := s.r.(cq := Current(s.r.cq, s.h.base))));
            Reap(s).q == t.q && Reap(s).d == t.d && Reap(s).h == t.h && Reap(s).owed == t.owed
    decreases |s.r.cq|
  {
    if s.r.cq != [] {
      var u := ReapOne(s);
      StaleCompletionsIgnored(u);
      var c := Current(s.r.cq, s.h.base);
      var v := s.(r := s.r.(cq := c));
      if s.r.cq[0] >= s.h.base {
        assert c[1..] == Current(s.r.cq[1..], s.h.base);
        assert ReapOne(v) == u.(r := u.r.(cq := c[1..]));
      } else {
        assert c == Current(s.r.cq[1..], s.h.base);
        assert v == u.(r := u.r.(cq := c));
      }
    }
  }

  // ---------------------------------------------------------------------------------------
  // A driver that offers a head again only after it was returned
  // ---------------------------------------------------------------------------------------

  ghost predicate Disciplined(s: State, es: seq<Event>)
    decreases |es|
  {
    es != [] ==>
      && (es[0].Offer? ==> s.q.ready && es[0].chain.head < s.q.size && es[0].chain.head !in s.owed)
      && Disciplined(Next(s, es[0]), es[1..])
  }

  /** The heads of chains not yet popped and those in `pending` are all different, and the
      driver counts them as not returned. */
  ghost predicate HeadsOk(avail: seq<Chain>, nextAvail: nat, pending: map<nat, Pending>, owed: set<nat>) {
    && (forall i, j :: nextAvail <= i < j < |avail| ==> avail[i].head != avail[j].head)
    && (forall i :: nextAvail <= i < |avail| ==> avail[i].head in owed)
    && (forall ud :: ud in pending ==> pending[ud].head in owed)
    && (forall ud, vd :: ud in pending && vd in pending && ud != vd ==> pending[ud].head != pending[vd].head)
    && (forall ud, i :: ud in pending && nextAvail <= i < |avail| ==> pending[ud].head != avail[i].head)
  }

  ghost predicate DriverInv(s: State) {
    && HeadsOk(s.q.avail, s.q.nextAvail, s.d.pending, s.owed)
    && (forall h :: h in s.owed ==> h < s.q.size)
    && s.q.size <= QUEUE_MAX
    && (!s.q.ready ==> s.owed == {})
    && s.h.capDropped == {}
  }

  /** One pending request per owed head; a chain still waiting takes one more. */
  lemma PendingBelowQueue(s: State)
    requires DriverInv(s)
    ensures |s.d.pending| <= s.q.size
    ensures s.q.nextAvail < |s.q.avail| ==> |s.d.pending| < s.q.size
  {
    BoundedSetSize(s.owed, s.q.size);
    InjectionSize(s.d.pending, (p: Pending) => p.head, s.owed);
    if s.q.nextAvail < |s.q.avail| {
      var h := s.q.avail[s.q.nextAvail].head;
      InjectionSize(s.d.pending, (p: Pending) => p.head, s.owed - {h});
    }
  }

  lemma IssueHeads(s: State, req: Request, takes: seq<nat>)
    requires DriverInv(s) && s.q.ready && s.q.nextAvail < |s.q.avail|
    requires req.head == s.q.avail[s.q.nextAvail].head
    ensures DriverInv(Issue(s, req, takes).0)
  {
  }

  lemma {:induction false} DrainHeads(s: State, takes: seq<nat>, submitted: nat)
    requires DriverInv(s) && s.q.ready
    ensures DriverInv(Drain(s, takes, submitted).0)
    decreases |s.q.avail| - s.q.nextAvail
  {
    if s.q.nextAvail < |s.q.avail| {
      PendingBelowQueue(s);
      var c := s.q.avail[s.q.nextAvail];
      match Parse(c, s.q.size)
      case None => DrainHeads(s.(q := Pop(s.q)), takes, submitted);
      case Some(req) =>
        IssueHeads(s, req, takes);
        var (t, left, ok) := Issue(s, req, takes);
        DrainHeads(t, left, if ok then submitted + 1 else submitted);
    }
  }

  lemma {:induction false} ReapHeads(s: State)
    requires DriverInv(s)
    ensures DriverInv(Reap(s))
    decreases |s.r.cq|
  {
    if s.r.cq != [] {
      ReapHeads(ReapOne(s));
    }
  }

  lemma {:induction false} DisciplinedRun(s: State, es: seq<Event>)
    requires DriverInv(s) && Disciplined(s, es)
    ensures DriverInv(Run(s, es))
    decreases |es|
  {
    if es != [] {
      match es[0] {
        case ProcessQueue(iterOk, takes) =>
          if s.q.ready && iterOk {
            DrainHeads(s, takes, 0);
          }
        case PollCompletions => ReapHeads(s);
        case _ =>
      }
      assert DriverInv(Next(s, es[0]));
      DisciplinedRun(Next(s, es[0]), es[1..]);
    }
  }

  /** With such a driver the cap is never reached: no chain is ever dropped on its account, and
      no more requests are pending than the queue has entries. */
  lemma CapUnreachable(es: seq<Event>)
    requires Disciplined(Init(), es)
    ensures var s := Run(Init(), es);
            s.h.capDropped == {} && |s.d.pending| <= s.q.size <= QUEUE_MAX < PENDING_CAP
  {
    DisciplinedRun(Init(), es);
    PendingBelowQueue(Run(Init(), es));
  }

  lemma IssueSize(s: State, req: Request, takes: seq<nat>)
    ensures |Issue(s, req, takes).0.d.pending| <= |s.d.pending| + 1
    ensures Issue(s, req, takes).0.h.capDropped == s.h.capDropped
  {
    hide MakeRoom;
    var ud := s.d.nextUd;
    var p := s.d.pending[ud := PendingOf(req)];
    assert p.Keys == s.d.pending.Keys + {ud};
    assert (s.d.pending - {ud}).Keys <= s.d.pending.Keys;
    SubsetSize((s.d.pending - {ud}).Keys, s.d.pending.Keys);
  }

  lemma SubsetSize<T>(a: set<T>, b: set<T>)
    requires a <= b
    ensures |a| <= |b|
  {
    assert b == a + (b - a);
  }

  /** Whatever the driver does, a chain is dropped on account of the cap only once 1024 requests are pending,
      and never are there more. */
  lemma {:induction false} DrainCap(s: State, takes: seq<nat>, submitted: nat)
    requires |s.d.pending| <= 1024
    ensures var t := Drain(s, takes, submitted).0;
            |t.d.pending| <= 1024 && (t.h.capDropped != s.h.capDropped ==> |t.d.pending| == 1024)
    decreases |s.q.avail| - s.q.nextAvail
  {
    hide Issue, Parse;
    if s.q.nextAvail < |s.q.avail| && |s.d.pending| < 1024 {
      match Parse(s.q.avail[s.q.nextAvail], s.q.size)
      case None => DrainCap(s.(q := Pop(s.q)), takes, submitted);
      case Some(req) =>
        IssueSize(s, req, takes);
        IssuePops(s, req, takes);
        var (u, left, ok) := Issue(s, req, takes);
        DrainCap(u, left, if ok then submitted + 1 else submitted);
    }
  }

  lemma IssuePops(s: State, req: Request, takes: seq<nat>)
    ensures Issue(s, req, takes).0.q == Pop(s.q)
  {
  }

  lemma {:induction false} ReapShrinks(s: State)
    ensures |Reap(s).d.pending| <= |s.d.pending| && (|s.d.pending| <= 1024 ==> |Reap(s).d.pending| <= 1024)
    decreases |s.r.cq|
  {
    hide ReapOne;
    if s.r.cq != [] {
      ReapOneSize(s);
      ReapShrinks(ReapOne(s));
    }
  }

  lemma ReapOneSize(s: State)
    requires s.r.cq != []
    ensures |ReapOne(s).d.pending| <= |s.d.pending| && |ReapOne(s).r.cq| < |s.r.cq|
  {
    var ud := s.r.cq[0];
    SubsetSize((s.d.pending - {ud}).Keys, s.d.pending.Keys);
  }

  lemma {:induction false} CapIsExact(s: State, es: seq<Event>)
    requires |s.d.pending| <= 1024
    ensures |Run(s, es).d.pending| <= 1024
    ensures forall iterOk, takes :: var t := Kick(Run(s, es), iterOk, takes);
              t.h.capDropped != Run(s, es).h.capDropped ==> |t.d.pending| == 1024
    decreases |es|
  {
    hide Drain, Reap;
    if es == [] {
      forall iterOk, takes
        ensures Kick(s, iterOk, takes).h.capDropped != s.h.capDropped ==> |Kick(s, iterOk, takes).d.pending| == 1024
      {
        DrainCap(s, takes, 0);
      }
    } else {
      match es[0] {
        case ProcessQueue(iterOk, takes) => DrainCap(s, takes, 0);
        case PollCompletions => ReapShrinks(s);
        case _ =>
      }
      CapIsExact(Next(s, es[0]), es[1..]);
    }
  }

  // ---------------------------------------------------------------------------------------
  // A kernel that takes at least one entry of a full submission queue
  // ---------------------------------------------------------------------------------------

  /** No submission of the run takes nothing. */
  ghost predicate KernelTakes(es: seq<Event>) {
    forall i, j :: 0 <= i < |es| && es[i].ProcessQueue? && 0 <= j < |es[i].takes| ==> es[i].takes[j] > 0
  }

  ghost predicate NoneLost(s: State) {
    |s.r.sq| <= RING_SIZE && forall ud :: ud in s.h.log ==> s.h.log[ud].fate != Lost
  }

  lemma {:induction false} DrainLosesNone(s: State, takes: seq<nat>, submitted: nat)
    requires NoneLost(s) && forall j :: 0 <= j < |takes| ==> takes[j] > 0
    ensures NoneLost(Drain(s, takes, submitted).0)
    decreases |s.q.avail| - s.q.nextAvail
  {
    if s.q.nextAvail < |s.q.avail| && |s.d.pending| < PENDING_CAP {
      match Parse(s.q.avail[s.q.nextAvail], s.q.size)
      case None => DrainLosesNone(s.(q := Pop(s.q)), takes, submitted);
      case Some(req) =>
        IssueLoses(s, req, takes);
        var (t, left, ok) := Issue(s, req, takes);
        DrainLosesNone(t, left, if ok then submitted + 1 else submitted);
    }
  }

  lemma {:induction false} ReapLosesNone(s: State)
    requires NoneLost(s)
    ensures NoneLost(Reap(s))
    decreases |s.r.cq|
  {
    if s.r.cq != [] {
      ReapLosesNone(ReapOne(s));
    }
  }

  lemma {:induction false} RunLosesNone(s: State, es: seq<Event>)
    requires NoneLost(s) && KernelTakes(es)
    ensures NoneLost(Run(s, es))
    decreases |es|
  {
    if es != [] {
      match es[0] {
        case ProcessQueue(iterOk, takes) => DrainLosesNone(s, takes, 0);
        case PollCompletions => ReapLosesNone(s);
        case _ =>
      }
      assert forall i :: 0 <= i < |es[1..]| ==> es[1..][i] == es[i + 1];
      RunLosesNone(Next(s, es[0]), es[1..]);
    }
  }

  /** With both, conservation is complete: every well-formed chain popped since the last reset
      is pending or has been returned once, never both. */
  lemma NothingIsLost(es: seq<Event>)
    requires Disciplined(Init(), es) && KernelTakes(es)
    ensures var s := Run(Init(), es);
            && s.q.nextAvail <= |s.q.avail|
            && s.h.asked == Requests(s.q.avail[..s.q.nextAvail], {}, s.q.size)
            && ReturnedOnce(s.q.used, s.d, s.h)
            && (forall ud :: s.h.base <= ud < s.h.base + |s.h.asked| ==> (ud in s.d.pending <==> ud !in s.h.order))
  {
    hide Run, Disciplined, KernelTakes;
    ExactlyOnce(es);
    CapUnreachable(es);
    RunLosesNone(Init(), es);
  }

  /** A request whose push failed is never returned, however the run goes on before a reset. */
  lemma LostForever(s: State, req: Request, takes: seq<nat>, es: seq<Event>)
    requires Inv(s) && s.q.ready && s.q.nextAvail < |s.q.avail|
    requires Parse(s.q.avail[s.q.nextAvail], s.q.size) == Some(req)
    requires |s.r.sq| == RING_SIZE && Take(takes) == 0
    ensures var t := Run(Issue(s, req, takes).0, es);
            t.h.base == s.h.base ==> s.d.nextUd !in t.d.pending && s.d.nextUd !in t.h.order
  {
    hide Run, PendingOk, UsedOk, LogOk, RingOk, EntriesOk, PoppedOk;
    IssueLoses(s, req, takes);
    IssueInv(s, req, takes);
    var u := Issue(s, req, takes).0;
    var t := Run(u, es);
    RunInv(u, es);
    RunLater(u, es);
    PlacesOf(t);
    assert s.d.nextUd in u.h.log;
  }
}
