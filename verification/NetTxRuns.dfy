/**
 What the transmit side keeps over whole runs: every packet is written to the TAP once or still
 waits in the ring with its bytes, every popped chain is returned once, the buffer behind a ring
 entry is kept until that entry completes, and packets are written in order exactly if no batch
 overflows the submission queue.
 */
module NetTxRuns {
  import opened Wrappers
  import opened Virtio
  import opened NetTx

  datatype Event =
    | Offer(chain: Chain)
    | Enable(num: nat)
    | Disable
    | Transmit(take: nat, now: seq<nat>)
    | KernelCompletes(ud: nat)
    | DeviceReset

  function Next(s: State, e: Event): State {
    match e
    case Offer(c) => s.(q := s.q.(avail := s.q.avail + [c]))
    case Enable(num) => s.(q := Activate(s.q, num))
    case Disable => s.(q := s.q.(ready := false))
    case Transmit(take, now) => ProcessTx(s, take, now)
    case KernelCompletes(ud) => Complete(s, ud)
    case DeviceReset => Reset(s)
  }

  function Run(s: State, es: seq<Event>): State
    decreases |es|
  {
    if es == [] then s else Run(Next(s, es[0]), es[1..])
  }

  // ---------------------------------------------------------------------------------------
  // Buffers
  // ---------------------------------------------------------------------------------------

  /** Each id is outstanding at most once; the outstanding ids are those with a buffer, and the
      buffer holds the packet of that number. */
  ghost predicate BuffersHeld(r: Ring, pending: map<nat, Packet>, asked: seq<Packet>) {
    && (forall ud :: ud in Outstanding(r) ==> Outstanding(r)[ud] == 1 && ud in pending)
    && (forall ud :: ud in pending ==> ud in Outstanding(r) && ud < |asked| && pending[ud] == asked[ud])
  }

  /** With a ring the next id is the number of packets so far; without one nothing is outstanding. */
  ghost predicate IdsOk(s: State) {
    if s.d.hasRing then s.d.nextUd == |s.h.asked|
    else s.r == Ring([], multiset{}, []) && s.d.pending == map[]
  }

  ghost predicate Held(s: State) {
    s.d.hasTap && IdsOk(s) && BuffersHeld(s.r, s.d.pending, s.h.asked)
  }

  lemma PushOutstanding(r: Ring, ud: nat)
    ensures Outstanding(r.(sq := r.sq + [ud])) == Outstanding(r) + multiset{ud}
  {
  }

  lemma PushHolds(r: Ring, pending: map<nat, Packet>, asked: seq<Packet>, payload: Packet)
    requires BuffersHeld(r, pending, asked)
    ensures var ud := |asked|;
            BuffersHeld(r.(sq := r.sq + [ud]), pending[ud := payload], asked + [payload])
  {
    hide Outstanding;
    PushOutstanding(r, |asked|);
    assert |asked| !in Outstanding(r);
  }

  lemma SkipHolds(r: Ring, pending: map<nat, Packet>, asked: seq<Packet>, payload: Packet)
    requires BuffersHeld(r, pending, asked)
    ensures pending - {|asked|} == pending && BuffersHeld(r, pending, asked + [payload])
  {
    assert |asked| !in pending;
  }

  lemma EmitHolds(s: State, payload: Packet)
    requires Held(s)
    ensures Held(Emit(s, payload))
  {
    hide BuffersHeld;
    PushHolds(s.r, s.d.pending, s.h.asked, payload);
    SkipHolds(s.r, s.d.pending, s.h.asked, payload);
  }

  lemma EmitKeepsQueue(s: State, payload: Packet)
    ensures var t := Emit(s, payload);
            t.q == s.q && t.d.hasTap == s.d.hasTap && t.d.hasRing == s.d.hasRing && t.h.base == s.h.base
  {
  }

  lemma {:induction false} DrainHolds(s: State, used: seq<UsedElem>)
    requires Held(s)
    ensures Held(Drain(s, used).0)
    decreases |s.q.avail| - s.q.nextAvail
  {
    hide Held, Payload, UsedOf, Emit;
    if s.q.nextAvail < |s.q.avail| {
      var c := s.q.avail[s.q.nextAvail];
      var t := Send(s, c);
      if Payload(c, s.q.size).Some? {
        EmitHolds(s, Payload(c, s.q.size).value);
        EmitKeepsQueue(s, Payload(c, s.q.size).value);
      }
      QueueIsFree(t, s.q.(nextAvail := s.q.nextAvail + 1));
      DrainHolds(t.(q := s.q.(nextAvail := s.q.nextAvail + 1)), used + [UsedOf(c, s.q.size)]);
    }
  }

  lemma QueueIsFree(s: State, q: Queue)
    ensures Held(s) ==> Held(s.(q := q))
  {
  }

  lemma SubmitOutstanding(r: Ring, take: nat)
    ensures Outstanding(Submit(r, take)) == Outstanding(r)
  {
    var k := if take < |r.sq| then take else |r.sq|;
    assert r.sq == r.sq[..k] + r.sq[k..];
  }

  /** Moving ids inside the ring changes nothing. */
  lemma MovedHolds(s: State, r: Ring, h: History)
    requires Held(s) && Outstanding(r) == Outstanding(s.r) && h.asked == s.h.asked
    requires !s.d.hasRing ==> r == s.r
    ensures Held(s.(r := r, h := h))
  {
    hide Outstanding;
  }

  lemma CompleteOutstanding(s: State, ud: nat)
    ensures Outstanding(Complete(s, ud).r) == Outstanding(s.r)
  {
  }

  lemma CompleteHolds(s: State, ud: nat)
    requires Held(s)
    ensures Held(Complete(s, ud))
  {
    hide Outstanding, BuffersHeld, BufferAt;
    CompleteOutstanding(s, ud);
    var t := Complete(s, ud);
    assert !s.d.hasRing ==> t.r == s.r;
    MovedHolds(s, t.r, t.h);
  }

  lemma {:induction false} CompleteAllHolds(s: State, uds: seq<nat>)
    requires Held(s)
    ensures Held(CompleteAll(s, uds))
    decreases |uds|
  {
    hide Held, Complete;
    if uds != [] {
      CompleteHolds(s, uds[0]);
      CompleteAllHolds(Complete(s, uds[0]), uds[1..]);
    }
  }

  lemma {:induction false} ReleaseHolds(r: Ring, pending: map<nat, Packet>, asked: seq<Packet>)
    requires BuffersHeld(r, pending, asked)
    ensures BuffersHeld(r.(cq := []), Release(pending, r.cq), asked)
    decreases |r.cq|
  {
    if r.cq == [] {
      assert r.(cq := []) == r;
    } else {
      var ud := r.cq[0];
      var r1 := r.(cq := r.cq[1..]);
      assert r.cq == [ud] + r1.cq;
      assert Outstanding(r1) == Outstanding(r) - multiset{ud};
      ReleaseHolds(r1, pending - {ud}, asked);
    }
  }

  lemma SubmitNothing(take: nat)
    ensures var r := Ring([], multiset{}, []); Submit(r, take) == r
  {
  }

  lemma SubmitHolds(s: State, take: nat)
    requires Held(s)
    ensures Held(s.(r := Submit(s.r, take)))
  {
    hide Outstanding, BuffersHeld, Submit;
    SubmitOutstanding(s.r, take);
    SubmitNothing(take);
    MovedHolds(s, Submit(s.r, take), s.h);
  }

  lemma FlushHolds(s: State, take: nat, now: seq<nat>)
    requires Held(s)
    ensures Held(Flush(s, take, now))
  {
    hide Submit, CompleteAll, Release, Outstanding;
    if s.d.hasRing {
      SubmitHolds(s, take);
      var t := CompleteAll(s.(r := Submit(s.r, take)), now);
      CompleteAllHolds(s.(r := Submit(s.r, take)), now);
      CompleteAllKeeps(s.(r := Submit(s.r, take)), now);
      ReleaseHolds(t.r, t.d.pending, t.h.asked);
    }
  }

  lemma NextHolds(s: State, e: Event)
    requires Held(s)
    ensures Held(Next(s, e))
  {
    hide Flush, Drain;
    match e
    case Transmit(take, now) =>
      if s.q.ready {
        DrainHolds(s, []);
        FlushHolds(Drain(s, []).0, take, now);
      }
    case KernelCompletes(ud) => CompleteHolds(s, ud);
    case _ =>
  }

  /** In every run, across resets too: each id is outstanding at most once, and as long as its
      entry is queued or running its buffer is in `tx_pending` with the bytes of its packet. */
  lemma {:induction false} BufferLivesUntilCompletion(s: State, es: seq<Event>)
    requires Held(s)
    ensures var t := Run(s, es);
            && Held(t)
            && (forall ud :: ud in t.r.sq || ud in t.r.kernel ==>
                  ud < |t.h.asked| && BufferAt(t.d.pending, ud) == t.h.asked[ud])
    decreases |es|
  {
    if es != [] {
      hide Held, Next;
      NextHolds(s, es[0]);
      BufferLivesUntilCompletion(Next(s, es[0]), es[1..]);
    } else {
      assert forall ud :: ud in s.r.sq || ud in s.r.kernel ==> ud in Outstanding(s.r);
    }
  }

  // ---------------------------------------------------------------------------------------
  // Packets
  // ---------------------------------------------------------------------------------------

  function Numbers(tap: seq<Write>): seq<nat> {
    seq(|tap|, i requires 0 <= i < |tap| => tap[i].k)
  }

  /** Where the packets are: written to the TAP, queued, or with the kernel. */
  function Places(s: State): multiset<nat> {
    multiset(Numbers(s.h.tap)) + multiset(s.r.sq) + s.r.kernel
  }

  /** Every packet is in one place, and was written with its own bytes. */
  ghost predicate OncePlaced(s: State) {
    && (forall k: nat :: Places(s)[k] == if k < |s.h.asked| then 1 else 0)
    && (forall i :: 0 <= i < |s.h.tap| ==> s.h.tap[i].k < |s.h.asked| && s.h.tap[i].bytes == s.h.asked[s.h.tap[i].k])
  }

  lemma NumbersSnoc(tap: seq<Write>, w: Write)
    ensures Numbers(tap + [w]) == Numbers(tap) + [w.k]
  {
  }

  /** A packet is queued or written under its number. */
  lemma EmitShape(s: State, payload: Packet)
    requires Held(s)
    ensures var t := Emit(s, payload); var n := |s.h.asked|;
            && t.h.asked == s.h.asked + [payload]
            && (|| (t.r == s.r.(sq := s.r.sq + [n]) && t.h.tap == s.h.tap)
                || (t.r == s.r && t.h.tap == s.h.tap + [Write(n, payload)]))
  {
    hide BuffersHeld;
  }

  lemma EmitPlaces(s: State, payload: Packet)
    requires Held(s) && OncePlaced(s)
    ensures OncePlaced(Emit(s, payload))
  {
    hide Held, Emit, Numbers;
    var n := |s.h.asked|;
    EmitShape(s, payload);
    NumbersSnoc(s.h.tap, Write(n, payload));
    assert Places(Emit(s, payload)) == Places(s) + multiset{n};
    OneMore(s, Emit(s, payload), payload);
  }

  lemma OneMore(s: State, t: State, payload: Packet)
    requires OncePlaced(s) && Places(t) == Places(s) + multiset{|s.h.asked|} && t.h.asked == s.h.asked + [payload]
    requires t.h.tap == s.h.tap || t.h.tap == s.h.tap + [Write(|s.h.asked|, payload)]
    ensures OncePlaced(t)
  {
    hide Places;
  }

  lemma {:induction false} DrainPlaces(s: State, used: seq<UsedElem>)
    requires Held(s) && OncePlaced(s)
    ensures OncePlaced(Drain(s, used).0)
    decreases |s.q.avail| - s.q.nextAvail
  {
    hide Held, Payload, UsedOf, Emit, OncePlaced;
    if s.q.nextAvail < |s.q.avail| {
      var c := s.q.avail[s.q.nextAvail];
      var t := Send(s, c);
      if Payload(c, s.q.size).Some? {
        EmitHolds(s, Payload(c, s.q.size).value);
        EmitPlaces(s, Payload(c, s.q.size).value);
        EmitKeepsQueue(s, Payload(c, s.q.size).value);
      }
      QueueIsFree(t, s.q.(nextAvail := s.q.nextAvail + 1));
      PlacesIgnoreQueue(t, s.q.(nextAvail := s.q.nextAvail + 1));
      DrainPlaces(t.(q := s.q.(nextAvail := s.q.nextAvail + 1)), used + [UsedOf(c, s.q.size)]);
    }
  }

  lemma PlacesIgnoreQueue(s: State, q: Queue)
    ensures OncePlaced(s) ==> OncePlaced(s.(q := q))
  {
    assert Places(s.(q := q)) == Places(s);
  }

  lemma SubmitPlaces(s: State, take: nat)
    ensures Places(s.(r := Submit(s.r, take))) == Places(s)
  {
    var k := if take < |s.r.sq| then take else |s.r.sq|;
    assert s.r.sq == s.r.sq[..k] + s.r.sq[k..];
  }

  lemma CompletePlaces(s: State, ud: nat)
    requires Held(s) && OncePlaced(s)
    ensures OncePlaced(Complete(s, ud)) && Places(Complete(s, ud)) == Places(s)
  {
    if ud in s.r.kernel {
      assert ud in Outstanding(s.r);
      NumbersSnoc(s.h.tap, Write(ud, BufferAt(s.d.pending, ud)));
      assert Places(Complete(s, ud)) == Places(s);
    }
  }

  lemma {:induction false} CompleteAllPlaces(s: State, uds: seq<nat>)
    requires Held(s) && OncePlaced(s)
    ensures OncePlaced(CompleteAll(s, uds))
    decreases |uds|
  {
    hide Held, Complete, OncePlaced;
    if uds != [] {
      CompleteHolds(s, uds[0]);
      CompletePlaces(s, uds[0]);
      CompleteAllPlaces(Complete(s, uds[0]), uds[1..]);
    }
  }

  lemma FlushPlaces(s: State, take: nat, now: seq<nat>)
    requires Held(s) && OncePlaced(s)
    ensures OncePlaced(Flush(s, take, now))
  {
    hide Submit, CompleteAll, Release, Held, Places;
    if s.d.hasRing {
      var u := s.(r := Submit(s.r, take));
      SubmitHolds(s, take);
      SubmitPlaces(s, take);
      CompleteAllPlaces(u, now);
      ReleaseIsFree(CompleteAll(u, now));
    }
  }

  lemma ReleaseIsFree(s: State)
    requires OncePlaced(s)
    ensures OncePlaced(s.(r := s.r.(cq := []), d := s.d.(pending := Release(s.d.pending, s.r.cq))))
  {
    hide Release;
    assert Places(s.(r := s.r.(cq := []), d := s.d.(pending := Release(s.d.pending, s.r.cq)))) == Places(s);
  }

  lemma NextPlaces(s: State, e: Event)
    requires Held(s) && OncePlaced(s)
    ensures OncePlaced(Next(s, e))
  {
    hide Flush, Drain, Held, Places;
    match e
    case Transmit(take, now) =>
      if s.q.ready {
        DrainHolds(s, []);
        DrainPlaces(s, []);
        FlushPlaces(Drain(s, []).0, take, now);
        ResultPlaces(s, take, now);
      }
    case KernelCompletes(ud) => CompletePlaces(s, ud);
    case DeviceReset => SamePlaces(s, Reset(s));
    case _ => SamePlaces(s, Next(s, e));
  }

  lemma SamePlaces(s: State, t: State)
    requires t.r == s.r && t.h.asked == s.h.asked && t.h.tap == s.h.tap
    ensures Places(t) == Places(s)
  {
  }

  lemma ResultPlaces(s: State, take: nat, now: seq<nat>)
    requires s.q.ready
    ensures var t := ProcessTx(s, take, now); var u := Flush(Drain(s, []).0, take, now);
            t.r == u.r && t.h == u.h && Places(t) == Places(u)
  {
    hide Flush, Drain, Accepted;
  }

  // ---------------------------------------------------------------------------------------
  // Chains
  // ---------------------------------------------------------------------------------------

  /** What the popped chains are to send. */
  function Payloads(cs: seq<Chain>, size: nat): seq<Packet> {
    if cs == [] then []
    else
      Payloads(cs[..|cs| - 1], size) +
      (match Payload(cs[|cs| - 1], size) case None => [] case Some(p) => [p])
  }

  function ChainHeads(cs: seq<Chain>): seq<nat> {
    seq(|cs|, i requires 0 <= i < |cs| => cs[i].head)
  }

  /** The packets since the last reset are what the popped chains are to send, in order. */
  ghost predicate FromChains(s: State) {
    && s.q.nextAvail <= |s.q.avail| && s.h.base <= |s.h.asked|
    && s.h.asked[s.h.base..] == Payloads(s.q.avail[..s.q.nextAvail], s.q.size)
  }

  /** The used ring lists the popped chains, in order. */
  ghost predicate Returned(q: Queue) {
    q.nextAvail <= |q.avail| && Heads(q.used) == ValidHeads(ChainHeads(q.avail[..q.nextAvail]), q.size)
  }

  lemma PayloadsSnoc(q: Queue)
    requires q.nextAvail < |q.avail|
    ensures Payloads(q.avail[..q.nextAvail + 1], q.size) ==
            Payloads(q.avail[..q.nextAvail], q.size) +
            match Payload(q.avail[q.nextAvail], q.size) case None => [] case Some(p) => [p]
  {
    hide Payload;
    var cs := q.avail[..q.nextAvail + 1];
    assert cs[..|cs| - 1] == q.avail[..q.nextAvail];
  }

  lemma EmitAsks(s: State, payload: Packet)
    requires s.d.hasTap
    ensures Emit(s, payload).h.asked == s.h.asked + [payload]
  {
  }

  lemma {:induction false} DrainAsks(s: State, used: seq<UsedElem>)
    requires s.d.hasTap && FromChains(s)
    ensures FromChains(Drain(s, used).0)
    decreases |s.q.avail| - s.q.nextAvail
  {
    hide Payload, Payloads, Emit, UsedOf;
    if s.q.nextAvail < |s.q.avail| {
      var c := s.q.avail[s.q.nextAvail];
      PayloadsSnoc(s.q);
      if Payload(c, s.q.size).Some? {
        var p := Payload(c, s.q.size).value;
        EmitKeepsQueue(s, p);
        EmitAsks(s, p);
        assert (s.h.asked + [p])[s.h.base..] == s.h.asked[s.h.base..] + [p];
      }
      DrainAsks(Send(s, c).(q := s.q.(nextAvail := s.q.nextAvail + 1)), used + [UsedOf(c, s.q.size)]);
    }
  }

  lemma {:induction false} DrainReturns(s: State, used: seq<UsedElem>)
    requires s.q.nextAvail <= |s.q.avail|
    ensures var (t, used') := Drain(s, used);
            && t.q == s.q.(nextAvail := |s.q.avail|) && t.d.hasTap == s.d.hasTap && t.d.hasRing == s.d.hasRing
            && Heads(used') == Heads(used) + ChainHeads(s.q.avail[s.q.nextAvail..])
    decreases |s.q.avail| - s.q.nextAvail
  {
    hide Payload, Emit, TotalLen;
    var rest := s.q.avail[s.q.nextAvail..];
    if rest == [] {
      assert ChainHeads(rest) == [];
    } else {
      var c := s.q.avail[s.q.nextAvail];
      if Payload(c, s.q.size).Some? {
        EmitKeepsQueue(s, Payload(c, s.q.size).value);
      }
      DrainReturns(Send(s, c).(q := s.q.(nextAvail := s.q.nextAvail + 1)), used + [UsedOf(c, s.q.size)]);
      assert rest == [c] + s.q.avail[s.q.nextAvail + 1..];
      assert ChainHeads(rest) == [c.head] + ChainHeads(s.q.avail[s.q.nextAvail + 1..]);
      HeadsAppend(used, [UsedOf(c, s.q.size)]);
      assert Heads([UsedOf(c, s.q.size)]) == [c.head];
    }
  }

  lemma FlushKeeps(s: State, take: nat, now: seq<nat>)
    ensures var t := Flush(s, take, now);
            t.q == s.q && t.h.asked == s.h.asked && t.h.base == s.h.base && t.d.hasTap == s.d.hasTap
              && t.d.hasRing == s.d.hasRing
  {
    hide Submit, CompleteAll, Release;
    CompleteAllKeeps(s.(r := Submit(s.r, take)), now);
  }

  lemma TransmitReturns(s: State, take: nat, now: seq<nat>)
    requires Returned(s.q)
    ensures Returned(ProcessTx(s, take, now).q)
  {
    hide Drain, Accepted, ValidHeads, Flush;
    if s.q.ready {
      DrainReturns(s, []);
      var (t, used) := Drain(s, []);
      FlushKeeps(t, take, now);
      var popped := ChainHeads(s.q.avail[..s.q.nextAvail]);
      ReturnBatch(s.q.used, popped, used, s.q.size);
      assert ChainHeads(s.q.avail[..|s.q.avail|]) == popped + ChainHeads(s.q.avail[s.q.nextAvail..]);
      assert Heads(used) == ChainHeads(s.q.avail[s.q.nextAvail..]);
      assert used == [] ==> popped + Heads(used) == popped;
    }
  }

  lemma TransmitAsks(s: State, take: nat, now: seq<nat>)
    requires s.d.hasTap && FromChains(s)
    ensures FromChains(ProcessTx(s, take, now))
  {
    hide Drain, Flush, Accepted, Payloads;
    if s.q.ready {
      DrainAsks(s, []);
      FlushKeeps(Drain(s, []).0, take, now);
    }
  }

  ghost predicate ChainsOk(s: State) {
    s.d.hasTap && FromChains(s) && Returned(s.q)
  }

  lemma NothingPopped(q: Queue, size: nat)
    ensures Payloads([], size) == [] && ValidHeads(ChainHeads([]), size) == []
  {
  }

  lemma ActivateOk(s: State, num: nat)
    requires ChainsOk(s)
    ensures ChainsOk(s.(q := Activate(s.q, num)))
  {
    hide Payloads, ValidHeads, SetSize;
    if s.q.nextAvail == 0 {
      assert s.q.avail[..0] == [];
      NothingPopped(s.q, s.q.size);
      NothingPopped(s.q, SetSize(s.q.size, num));
    }
  }

  lemma NextChains(s: State, e: Event)
    requires ChainsOk(s)
    ensures ChainsOk(Next(s, e))
  {
    hide Payloads, ValidHeads, Activate, ProcessTx;
    match e
    case Offer(c) =>
      assert (s.q.avail + [c])[..s.q.nextAvail] == s.q.avail[..s.q.nextAvail];
    case Enable(num) => ActivateOk(s, num);
    case Transmit(take, now) =>
      TransmitReturns(s, take, now);
      TransmitAsks(s, take, now);
      TransmitKeepsTap(s, take, now);
    case DeviceReset =>
      NothingPopped(NEW_QUEUE, QUEUE_MAX);
      assert NEW_QUEUE.avail[..0] == [];
    case _ =>
  }

  lemma TransmitKeepsTap(s: State, take: nat, now: seq<nat>)
    requires s.q.nextAvail <= |s.q.avail|
    ensures var t := ProcessTx(s, take, now); t.d.hasTap == s.d.hasTap && t.d.hasRing == s.d.hasRing
  {
    hide Drain, Flush, Accepted;
    DrainReturns(s, []);
    FlushKeeps(Drain(s, []).0, take, now);
  }

  /** With a TAP, in every run and across resets: each packet longer than its header has been written
      to the TAP once with its bytes, or is queued or with the kernel and its buffer holds the bytes;
      the packets since the last reset are those of the popped chains, and each popped chain is
      returned exactly once. */
  lemma {:induction false} PacketsConserved(s: State, es: seq<Event>)
    requires Held(s) && OncePlaced(s) && ChainsOk(s)
    ensures var t := Run(s, es); Held(t) && OncePlaced(t) && ChainsOk(t)
    decreases |es|
  {
    hide Held, OncePlaced, ChainsOk, Next;
    if es != [] {
      NextHolds(s, es[0]);
      NextPlaces(s, es[0]);
      NextChains(s, es[0]);
      PacketsConserved(Next(s, es[0]), es[1..]);
    }
  }

  lemma FreshOk(hasRing: bool)
    ensures var s := Init(true, hasRing); Held(s) && OncePlaced(s) && ChainsOk(s) && Ordered(s)
  {
    var s := Init(true, hasRing);
    assert Places(s) == multiset{};
    NothingPopped(NEW_QUEUE, QUEUE_MAX);
  }

  /** All of this holds of every run of a fresh device. */
  lemma FreshDevice(hasRing: bool, es: seq<Event>)
    ensures var t := Run(Init(true, hasRing), es);
            && OncePlaced(t) && FromChains(t) && Returned(t.q)
            && (forall ud :: ud in t.r.sq || ud in t.r.kernel ==>
                  ud < |t.h.asked| && BufferAt(t.d.pending, ud) == t.h.asked[ud])
  {
    hide Run, Held, OncePlaced, FromChains, Returned, Ordered;
    FreshOk(hasRing);
    PacketsConserved(Init(true, hasRing), es);
    BufferLivesUntilCompletion(Init(true, hasRing), es);
  }

  // ---------------------------------------------------------------------------------------
  // Order
  // ---------------------------------------------------------------------------------------

  /** The writes are packets 0, 1, 2, ... with none left out. */
  ghost predicate InOrder(tap: seq<Write>) {
    forall i :: 0 <= i < |tap| ==> tap[i].k == i
  }

  /** The queued entries are the last packets, in order. */
  ghost predicate QueuedInOrder(s: State) {
    |s.r.sq| <= |s.h.asked| && forall i :: 0 <= i < |s.r.sq| ==> s.r.sq[i] == |s.h.asked| - |s.r.sq| + i
  }

  ghost predicate Ordered(s: State) {
    InOrder(s.h.tap) && QueuedInOrder(s) && |s.r.sq| <= TX_RING_SIZE
  }

  /** The kernel completes an entry only if it works on no older one. */
  ghost predicate Oldest(r: Ring, ud: nat) {
    ud in r.kernel ==> forall v :: v in r.kernel ==> ud <= v
  }

  ghost predicate OldestFirst(s: State, uds: seq<nat>)
    decreases |uds|
  {
    uds != [] ==> Oldest(s.r, uds[0]) && OldestFirst(Complete(s, uds[0]), uds[1..])
  }

  /** The state in which the kernel works on a batch. */
  function Submitted(s: State, take: nat): State {
    var t := Drain(s, []).0;
    t.(r := Submit(t.r, take))
  }

  ghost predicate KernelInOrder(s: State, e: Event) {
    match e
    case Transmit(take, now) => s.q.ready && s.d.hasRing ==> OldestFirst(Submitted(s, take), now)
    case KernelCompletes(ud) => Oldest(s.r, ud)
    case _ => true
  }

  /** The batch fits into the submission queue. */
  predicate Fits(s: State, e: Event)
    requires s.q.nextAvail <= |s.q.avail|
  {
    e.Transmit? && s.q.ready && s.d.hasRing ==>
      |s.r.sq| + |Payloads(s.q.avail[s.q.nextAvail..], s.q.size)| <= 64
  }

  lemma {:induction false} PayloadsHead(cs: seq<Chain>, size: nat)
    requires cs != []
    ensures Payloads(cs, size) ==
            (match Payload(cs[0], size) case None => [] case Some(p) => [p]) + Payloads(cs[1..], size)
    decreases |cs|
  {
    hide Payload;
    if |cs| == 1 {
      assert cs[..0] == [] && cs[1..] == [];
    } else {
      var init := cs[..|cs| - 1];
      PayloadsHead(init, size);
      assert init[1..] == cs[1..][..|cs| - 2];
    }
  }

  /** If the first packets are written in order, the others are queued or with the kernel. */
  lemma Whereabouts(s: State)
    requires OncePlaced(s) && InOrder(s.h.tap)
    ensures |s.h.tap| <= |s.h.asked|
    ensures forall k: nat :: k < |s.h.tap| ==> k !in s.r.sq && k !in s.r.kernel
    ensures forall k :: k in s.r.sq || k in s.r.kernel ==> k < |s.h.asked|
    ensures forall k: nat :: |s.h.tap| <= k < |s.h.asked| ==> (k in s.r.sq <==> k !in s.r.kernel)
  {
    hide Numbers;
    NumbersInOrder(s.h.tap);
    forall k: nat
      ensures k < |s.h.tap| ==> k !in s.r.sq && k !in s.r.kernel && k < |s.h.asked|
      ensures k in s.r.sq || k in s.r.kernel ==> k < |s.h.asked|
      ensures |s.h.tap| <= k < |s.h.asked| ==> (k in s.r.sq <==> k !in s.r.kernel)
    {
      assert Places(s)[k] == multiset(Numbers(s.h.tap))[k] + multiset(s.r.sq)[k] + s.r.kernel[k];
      assert k in multiset(Numbers(s.h.tap)) <==> k in Numbers(s.h.tap);
    }
    assert |s.h.tap| > 0 ==> s.h.tap[|s.h.tap| - 1].k < |s.h.asked|;
  }

  /** In an ordered state the packet after those written is the oldest one that waits. */
  lemma OldestIsNext(s: State, ud: nat)
    requires OncePlaced(s) && InOrder(s.h.tap) && QueuedInOrder(s) && ud in s.r.kernel && Oldest(s.r, ud)
    ensures ud == |s.h.tap|
  {
    hide OncePlaced, InOrder;
    Whereabouts(s);
    var n, m := |s.h.tap|, |s.h.asked| - |s.r.sq|;
    assert forall k :: m <= k < |s.h.asked| ==> k in s.r.sq by {
      forall k | m <= k < |s.h.asked|
        ensures k in s.r.sq
      {
        assert s.r.sq[k - m] == k;
      }
    }
    assert n !in s.r.sq;
  }

  lemma NumbersInOrder(tap: seq<Write>)
    requires InOrder(tap)
    ensures forall k :: k in Numbers(tap) <==> 0 <= k < |tap|
  {
    forall k: nat | k < |tap|
      ensures k in Numbers(tap)
    {
      assert Numbers(tap)[k] == k;
    }
  }

  lemma CompleteOrdered(s: State, ud: nat)
    requires OncePlaced(s) && Ordered(s) && Oldest(s.r, ud)
    ensures Ordered(Complete(s, ud))
  {
    hide OncePlaced, Oldest;
    if ud in s.r.kernel {
      OldestIsNext(s, ud);
    }
  }

  lemma {:induction false} CompleteAllOrdered(s: State, uds: seq<nat>)
    requires Held(s) && OncePlaced(s) && Ordered(s) && OldestFirst(s, uds)
    ensures Ordered(CompleteAll(s, uds))
    decreases |uds|
  {
    hide Held, OncePlaced, Ordered, Complete, Oldest;
    if uds != [] {
      CompleteHolds(s, uds[0]);
      CompletePlaces(s, uds[0]);
      CompleteOrdered(s, uds[0]);
      CompleteAllOrdered(Complete(s, uds[0]), uds[1..]);
    }
  }

  lemma SubmitOrdered(s: State, take: nat)
    requires Ordered(s)
    ensures Ordered(s.(r := Submit(s.r, take)))
  {
    var t := s.(r := Submit(s.r, take));
    var k := |s.r.sq| - |t.r.sq|;
    assert forall i :: 0 <= i < |t.r.sq| ==> t.r.sq[i] == s.r.sq[k + i];
  }

  /** Writes are never taken back. */
  ghost predicate Extends(a: seq<Write>, b: seq<Write>) {
    a <= b
  }

  lemma StaysOutOfOrder(a: seq<Write>, b: seq<Write>)
    requires Extends(a, b) && !InOrder(a)
    ensures !InOrder(b)
  {
    var i :| 0 <= i < |a| && a[i].k != i;
    assert b[i] == a[i];
  }

  lemma EmitExtends(s: State, payload: Packet)
    ensures Extends(s.h.tap, Emit(s, payload).h.tap)
  {
  }

  lemma {:induction false} DrainExtends(s: State, used: seq<UsedElem>)
    ensures Extends(s.h.tap, Drain(s, used).0.h.tap)
    decreases |s.q.avail| - s.q.nextAvail
  {
    hide Payload, UsedOf, Emit;
    if s.q.nextAvail < |s.q.avail| {
      var c := s.q.avail[s.q.nextAvail];
      if Payload(c, s.q.size).Some? {
        EmitExtends(s, Payload(c, s.q.size).value);
        EmitKeepsQueue(s, Payload(c, s.q.size).value);
      }
      DrainExtends(Send(s, c).(q := s.q.(nextAvail := s.q.nextAvail + 1)), used + [UsedOf(c, s.q.size)]);
    }
  }

  lemma {:induction false} CompleteAllExtends(s: State, uds: seq<nat>)
    ensures Extends(s.h.tap, CompleteAll(s, uds).h.tap)
    decreases |uds|
  {
    if uds != [] {
      CompleteAllExtends(Complete(s, uds[0]), uds[1..]);
    }
  }

  lemma NextExtends(s: State, e: Event)
    ensures Extends(s.h.tap, Next(s, e).h.tap)
  {
    hide Drain, CompleteAll, Submit, Release, Accepted;
    match e
    case Transmit(take, now) =>
      DrainExtends(s, []);
      CompleteAllExtends(Submitted(s, take), now);
    case _ =>
  }

  lemma {:induction false} RunExtends(s: State, es: seq<Event>)
    ensures Extends(s.h.tap, Run(s, es).h.tap)
    decreases |es|
  {
    hide Next;
    if es != [] {
      NextExtends(s, es[0]);
      RunExtends(Next(s, es[0]), es[1..]);
    }
  }

  /** One packet: in order as long as the queue has room; a packet that finds it full overtakes
      those in it. */
  lemma EmitOrdered(s: State, payload: Packet)
    requires Held(s) && OncePlaced(s) && Ordered(s)
    ensures var t := Emit(s, payload);
            if s.d.hasRing && |s.r.sq| == TX_RING_SIZE then !InOrder(t.h.tap)
            else Ordered(t) && (s.d.hasRing ==> |t.r.sq| == |s.r.sq| + 1)
  {
    hide BuffersHeld;
    var n := |s.h.asked|;
    NumbersInOrder(s.h.tap);
    WrittenCount(s);
    if s.d.hasRing && |s.r.sq| == TX_RING_SIZE {
      assert Emit(s, payload).h.tap[|s.h.tap|].k == n;
    }
  }

  /** Written and queued packets together are no more than there are; all of them, if nothing is
      with the kernel. */
  lemma WrittenCount(s: State)
    requires OncePlaced(s) && InOrder(s.h.tap) && QueuedInOrder(s)
    ensures |s.h.tap| + |s.r.sq| <= |s.h.asked|
    ensures s.r.kernel == multiset{} ==> |s.h.tap| + |s.r.sq| == |s.h.asked|
  {
    hide OncePlaced, InOrder;
    Whereabouts(s);
    var n, m := |s.h.tap|, |s.h.asked| - |s.r.sq|;
    if |s.r.sq| > 0 {
      assert s.r.sq[0] == m && m in s.r.sq;
    }
    assert n < m ==> n !in s.r.sq;
  }

  lemma {:induction false} DrainOrdered(s: State, used: seq<UsedElem>)
    requires Held(s) && OncePlaced(s) && Ordered(s) && s.q.nextAvail <= |s.q.avail|
    ensures var n := |Payloads(s.q.avail[s.q.nextAvail..], s.q.size)|;
            if s.d.hasRing && |s.r.sq| + n > TX_RING_SIZE then !InOrder(Drain(s, used).0.h.tap)
            else Ordered(Drain(s, used).0)
    decreases |s.q.avail| - s.q.nextAvail
  {
    hide Held, OncePlaced, Ordered, Payload, Payloads, Emit, UsedOf;
    RoomIs(s);
    var rest := s.q.avail[s.q.nextAvail..];
    if rest == [] {
      NothingPopped(s.q, s.q.size);
    } else {
      var c := s.q.avail[s.q.nextAvail];
      PayloadsHead(rest, s.q.size);
      assert rest[1..] == s.q.avail[s.q.nextAvail + 1..];
      var t := Send(s, c);
      var q := s.q.(nextAvail := s.q.nextAvail + 1);
      if Payload(c, s.q.size).Some? {
        var p := Payload(c, s.q.size).value;
        EmitHolds(s, p);
        EmitPlaces(s, p);
        EmitKeepsQueue(s, p);
        EmitOrdered(s, p);
      }
      QueueIsFree(t, q);
      PlacesIgnoreQueue(t, q);
      if s.d.hasRing && |s.r.sq| == TX_RING_SIZE && Payload(c, s.q.size).Some? {
        DrainExtends(t.(q := q), used + [UsedOf(c, s.q.size)]);
        StaysOutOfOrder(t.h.tap, Drain(s, used).0.h.tap);
      } else {
        OrderIgnoresQueue(t, q);
        DrainOrdered(t.(q := q), used + [UsedOf(c, s.q.size)]);
      }
    }
  }

  lemma RoomIs(s: State)
    requires Ordered(s)
    ensures |s.r.sq| <= TX_RING_SIZE
  {
  }

  lemma OrderIgnoresQueue(s: State, q: Queue)
    ensures Ordered(s) ==> Ordered(s.(q := q))
  {
  }

  lemma TransmitOrdered(s: State, take: nat, now: seq<nat>)
    requires Held(s) && OncePlaced(s) && Ordered(s) && s.q.nextAvail <= |s.q.avail| && s.q.ready
    requires KernelInOrder(s, Transmit(take, now))
    ensures if Fits(s, Transmit(take, now)) then Ordered(ProcessTx(s, take, now))
            else !InOrder(ProcessTx(s, take, now).h.tap)
  {
    hide Held, OncePlaced, Ordered, Drain, CompleteAll, Release, Accepted, Payloads, Submit, OldestFirst, InOrder;
    var t := Drain(s, []).0;
    var u := Submitted(s, take);
    DrainReturns(s, []);
    DrainHolds(s, []);
    DrainPlaces(s, []);
    DrainOrdered(s, []);
    if Fits(s, Transmit(take, now)) {
      if s.d.hasRing {
        SubmitHolds(t, take);
        SubmitPlacesOk(t, take);
        SubmitOrdered(t, take);
        CompleteAllOrdered(u, now);
      }
      FinishOrdered(s, take, now);
    } else {
      CompleteAllExtends(u, now);
      StaysOutOfOrder(t.h.tap, ProcessTx(s, take, now).h.tap);
    }
  }

  lemma SubmitPlacesOk(s: State, take: nat)
    requires OncePlaced(s)
    ensures OncePlaced(s.(r := Submit(s.r, take)))
  {
    hide Places, Submit;
    SubmitPlaces(s, take);
  }

  /** What follows the kernel's work has no part in the order. */
  lemma FinishOrdered(s: State, take: nat, now: seq<nat>)
    requires s.q.ready
    requires if s.d.hasRing then Ordered(CompleteAll(Submitted(s, take), now)) else Ordered(Drain(s, []).0)
    requires Drain(s, []).0.d.hasRing == s.d.hasRing
    ensures Ordered(ProcessTx(s, take, now))
  {
    hide Drain, CompleteAll, Submit, Release, Accepted;
  }

  ghost predicate OrderlyKernel(s: State, es: seq<Event>)
    decreases |es|
  {
    es != [] ==> KernelInOrder(s, es[0]) && OrderlyKernel(Next(s, es[0]), es[1..])
  }

  ghost predicate AllFit(s: State, es: seq<Event>)
    decreases |es|
  {
    es != [] ==> s.q.nextAvail <= |s.q.avail| && Fits(s, es[0]) && AllFit(Next(s, es[0]), es[1..])
  }

  lemma NextOrdered(s: State, e: Event)
    requires Held(s) && OncePlaced(s) && ChainsOk(s) && Ordered(s) && KernelInOrder(s, e)
    ensures s.q.nextAvail <= |s.q.avail|
    ensures if Fits(s, e) then Ordered(Next(s, e)) else !InOrder(Next(s, e).h.tap)
  {
    hide Held, OncePlaced, ProcessTx, Payloads, OldestFirst, Oldest;
    match e
    case Transmit(take, now) =>
      if s.q.ready {
        TransmitOrdered(s, take, now);
      } else {
        assert ProcessTx(s, take, now) == s by { Disabled(s, take, now); }
      }
    case KernelCompletes(ud) => CompleteOrdered(s, ud);
    case _ =>
  }

  lemma Disabled(s: State, take: nat, now: seq<nat>)
    requires !s.q.ready
    ensures ProcessTx(s, take, now) == s
  {
  }

  /** With a kernel that completes older entries first, packets are written in order exactly if no
      batch overflows the submission queue. */
  lemma {:induction false} OrderIsExact(s: State, es: seq<Event>)
    requires Held(s) && OncePlaced(s) && ChainsOk(s) && Ordered(s) && OrderlyKernel(s, es)
    ensures InOrder(Run(s, es).h.tap) <==> AllFit(s, es)
    decreases |es|
  {
    hide Held, OncePlaced, ChainsOk, Ordered, Next, InOrder, Fits, KernelInOrder;
    OrderedMeans(s);
    if es != [] {
      NextHolds(s, es[0]);
      NextPlaces(s, es[0]);
      NextChains(s, es[0]);
      NextOrdered(s, es[0]);
      if Fits(s, es[0]) {
        OrderIsExact(Next(s, es[0]), es[1..]);
      } else {
        RunExtends(Next(s, es[0]), es[1..]);
        StaysOutOfOrder(Next(s, es[0]).h.tap, Run(s, es).h.tap);
      }
    }
  }

  lemma OrderedMeans(s: State)
    ensures Ordered(s) ==> InOrder(s.h.tap)
  {
  }

  /** A chain with one byte after its header. */
  function Small(head: nat): Chain {
    Chain(head, [[0, 0, 0, 0, 0, 0, 0, 0, 0, 0, 0, 0, 7]])
  }

  function Offers(n: nat): seq<Event> {
    if n == 0 then [] else Offers(n - 1) + [Offer(Small(n - 1))]
  }

  function Chains(n: nat): (cs: seq<Chain>)
    ensures |cs| == n
  {
    if n == 0 then [] else Chains(n - 1) + [Small(n - 1)]
  }

  lemma {:induction false} RunSplit(s: State, a: seq<Event>, b: seq<Event>)
    ensures Run(s, a + b) == Run(Run(s, a), b)
    decreases |a|
  {
    hide Next;
    if a == [] {
      assert a + b == b;
    } else {
      assert (a + b)[0] == a[0] && (a + b)[1..] == a[1..] + b;
      RunSplit(Next(s, a[0]), a[1..], b);
    }
  }

  lemma {:induction false} OffersRun(s: State, n: nat)
    ensures Run(s, Offers(n)) == s.(q := s.q.(avail := s.q.avail + Chains(n)))
  {
    hide Small;
    if n == 0 {
      assert s.q.avail + [] == s.q.avail;
    } else {
      OffersRun(s, n - 1);
      RunSplit(s, Offers(n - 1), [Offer(Small(n - 1))]);
      var t := Run(s, Offers(n - 1));
      assert [Offer(Small(n - 1))][1..] == [];
      assert Run(t, [Offer(Small(n - 1))]) == Next(t, Offer(Small(n - 1)));
      assert s.q.avail + Chains(n - 1) + [Small(n - 1)] == s.q.avail + Chains(n);
    }
  }

  lemma {:induction false} SmallPayloads(n: nat, size: nat)
    requires n <= size
    ensures |Payloads(Chains(n), size)| == n
  {
    if n > 0 {
      SmallPayloads(n - 1, size);
      assert Chains(n)[..n - 1] == Chains(n - 1);
      SmallPayload(n - 1, size);
    }
  }

  lemma SmallPayload(head: nat, size: nat)
    requires head < size
    ensures Payload(Small(head), size).Some?
  {
    var ds := Descs(Small(head), size);
    assert ds == [ds[0]] && ds[..0] == [];
    assert Joined(ds) == Joined([]) + ds[0] == ds[0];
  }

  /** One batch of 65 packets on a queue of 256: the last one overtakes the 64 before it. */
  lemma Overtaking()
    ensures var es := [Enable(256)] + Offers(65) + [Transmit(64, [])];
            !InOrder(Run(Init(true, true), es).h.tap)
  {
    hide Held, OncePlaced, ChainsOk, Ordered, InOrder, ProcessTx, Payloads;
    var s := Next(Init(true, true), Enable(256));
    FreshOk(true);
    NextHolds(Init(true, true), Enable(256));
    NextPlaces(Init(true, true), Enable(256));
    NextChains(Init(true, true), Enable(256));
    NextOrdered(Init(true, true), Enable(256));
    OffersRun(s, 65);
    SmallPayloads(65, 256);
    var t := Run(s, Offers(65));
    OffersKeep(s, 65);
    assert t.q.avail[0..] == Chains(65);
    var last := Transmit(64, []);
    assert !Fits(t, last);
    NextOrdered(t, last);
    assert [Enable(256)][1..] == [];
    assert Run(Init(true, true), [Enable(256)]) == s;
    assert Run(t, [last]) == Next(t, last) by { assert [last][1..] == []; }
    RunSplit(Init(true, true), [Enable(256)] + Offers(65), [last]);
    RunSplit(Init(true, true), [Enable(256)], Offers(65));
  }

  lemma {:induction false} OffersKeep(s: State, n: nat)
    requires Held(s) && OncePlaced(s) && ChainsOk(s) && Ordered(s)
    ensures var t := Run(s, Offers(n)); Held(t) && OncePlaced(t) && ChainsOk(t) && Ordered(t)
  {
    hide Held, OncePlaced, ChainsOk, Ordered, Next, Small;
    if n > 0 {
      OffersKeep(s, n - 1);
      var t := Run(s, Offers(n - 1));
      var e := Offer(Small(n - 1));
      RunSplit(s, Offers(n - 1), [e]);
      assert [e][1..] == [];
      NextHolds(t, e);
      NextPlaces(t, e);
      NextChains(t, e);
      NextOrdered(t, e);
    }
  }
}
