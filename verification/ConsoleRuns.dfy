/**
 What the console ring keeps over whole runs, across any number of wraps of its 16-bit cursors.
 */
module ConsoleRuns {
  import opened Wrappers
  import opened Virtio
  import opened Console

  datatype Event =
    | GuestOffers(desc: nat, buffer: Buffer)
    | Configure(ready: bool, mapped: bool)
    | Send(data: Data)
    | Poll
    | DriverReset(ring: Ring)

  ghost function Next(s: State, e: Event): State
    requires WellFormed(s.r)
  {
    match e
    case GuestOffers(desc, b) => Offer(s, desc, b)
    case Configure(ready, mapped) => s.(d := s.d.(ready := ready, mapped := mapped))
    case Send(data) => TryInject(s, data)
    case Poll => PollPending(s)
    case DriverReset(ring) => if WellFormed(ring) then Reset(s, ring) else s
  }

  lemma StaysWellFormed(s: State, e: Event)
    requires WellFormed(s.r)
    ensures WellFormed(Next(s, e).r) && (!e.DriverReset? ==> Next(s, e).r.size == s.r.size)
  {
  }

  ghost function Run(s: State, es: seq<Event>): State
    requires WellFormed(s.r)
    decreases |es|
  {
    if es == [] then s
    else
      StaysWellFormed(s, es[0]);
      Run(Next(s, es[0]), es[1..])
  }

  /** A device and a ring of n entries that have not been used. */
  ghost predicate Fresh(s: State, n: nat) {
    && s.d == Device(false, false, 0, None, false)
    && WellFormed(s.r) && s.r.size == n && s.r.availIdx == s.r.usedIdx == 0
    && s.h == History([], [], multiset{}, multiset{}, multiset{})
  }

  /** A ring a driver has set up and not used. */
  ghost predicate EmptyRing(r: Ring) {
    WellFormed(r) && GoodSize(r.size) && r.availIdx == r.usedIdx == 0
  }

  /** The guest never has more descriptors in the ring than it holds, and resets the device only
      while its cursor is 0. */
  ghost predicate Allowed(s: State, e: Event) {
    && (e.GuestOffers? ==> |s.h.offered| < |s.h.log| + s.r.size)
    && (e.DriverReset? ==> EmptyRing(e.ring) && s.d.lastAvail == 0)
  }

  ghost predicate Disciplined(s: State, es: seq<Event>)
    requires WellFormed(s.r)
    decreases |es|
  {
    es != [] ==>
      && Allowed(s, es[0])
      && (StaysWellFormed(s, es[0]); Disciplined(Next(s, es[0]), es[1..]))
  }

  /** The size of a queue whose slots survive a wrap: it divides 65536. */
  predicate GoodSize(n: nat) {
    0 < n <= 0x8000 && U16 % n == 0
  }

  ghost predicate CursorsOk(d: Device, r: Ring, offers: nat, injections: nat) {
    && r.availIdx == offers % U16
    && d.lastAvail == r.usedIdx == injections % U16
    && injections <= offers <= injections + r.size
  }

  /** Offers not yet consumed are in their slots. */
  ghost predicate AvailOk(r: Ring, offered: seq<nat>, injections: nat)
    requires WellFormed(r)
  {
    forall i :: injections <= i < |offered| ==> r.availRing[i % r.size] == offered[i]
  }

  /** The k-th injection took the k-th offer and published it at slot k mod size, where it
      stays until the ring comes round. */
  ghost predicate LogOk(r: Ring, offered: seq<nat>, log: seq<Injection>)
    requires WellFormed(r)
  {
    && |log| <= |offered|
    && (forall k :: 0 <= k < |log| ==>
          && log[k].desc == offered[k] && log[k].slot == k % r.size
          && (|log| <= k + r.size ==>
                r.usedRing[k % r.size] == UsedElem(offered[k], r.usedRing[k % r.size].len)))
  }

  ghost predicate Inv(s: State) {
    && WellFormed(s.r) && GoodSize(s.r.size)
    && CursorsOk(s.d, s.r, |s.h.offered|, |s.h.log|)
    && AvailOk(s.r, s.h.offered, |s.h.log|)
    && LogOk(s.r, s.h.offered, s.h.log)
  }

  /** The device sees work exactly when an offer is left, and then it reads the right one. */
  lemma ReadsNextOffer(s: State)
    requires Inv(s)
    ensures s.r.availIdx == s.d.lastAvail <==> |s.h.log| == |s.h.offered|
    ensures |s.h.log| < |s.h.offered| ==> s.r.availRing[s.d.lastAvail % s.r.size] == s.h.offered[|s.h.log|]
    ensures s.r.usedIdx % s.r.size == |s.h.log| % s.r.size
  {
    WrappedSlot(s.r.size, |s.h.log|);
  }

  lemma PublishKeepsLog(r: Ring, offered: seq<nat>, log: seq<Injection>, data: Data)
    requires WellFormed(r) && LogOk(r, offered, log) && |log| < |offered| && offered[|log|] in r.table
    requires r.usedIdx % r.size == |log| % r.size
    ensures LogOk(Publish(r, offered[|log|], data), offered,
                  log + [Injection(offered[|log|], r.table[offered[|log|]], r.usedIdx % r.size, data)])
  {
    forall k | 0 <= k < |log| && |log| + 1 <= k + r.size
      ensures k % r.size != |log| % r.size
    {
      SlotsDiffer(r.size, k, |log|);
    }
  }

  lemma InjectInv(s: State, data: Data)
    requires Inv(s)
    ensures var (t, ok) := Inject(s, data);
            && Inv(t)
            && (ok ==> |s.h.log| < |s.h.offered| && s.h.offered[|s.h.log|] in s.r.table &&
                       t.h.log == s.h.log + [Injection(s.h.offered[|s.h.log|], s.r.table[s.h.offered[|s.h.log|]],
                                                       |s.h.log| % s.r.size, data)])
  {
    hide LogOk, GoodSize, AvailOk, CursorsOk;
    ReadsNextOffer(s);
    var n := |s.h.log|;
    if Target(s.d, s.r).Some? {
      SizeBound(s.r.size);
      CursorsAdvance(s.d, s.r, |s.h.offered|, n, data);
      assert n < |s.h.offered|;
      PublishKeepsLog(s.r, s.h.offered, s.h.log, data);
      AvailShrinks(s.r, Inject(s, data).0.r, s.h.offered, n);
    }
  }

  lemma AvailShrinks(r: Ring, r': Ring, offered: seq<nat>, n: nat)
    requires WellFormed(r) && WellFormed(r') && r'.availRing == r.availRing && r'.size == r.size
    requires AvailOk(r, offered, n)
    ensures AvailOk(r', offered, n + 1)
  {
  }

  lemma CounterAdvances(n: nat)
    ensures (n % U16 + 1) % U16 == (n + 1) % U16
  {
  }

  lemma TargetMeansWork(d: Device, r: Ring)
    requires WellFormed(r) && Target(d, r).Some?
    ensures r.availIdx != d.lastAvail && Target(d, r).value in r.table
  {
  }

  lemma PublishCursors(r: Ring, desc: nat, data: Data)
    requires WellFormed(r) && desc in r.table
    ensures var r' := Publish(r, desc, data);
            r'.usedIdx == (r.usedIdx + 1) % U16 && r'.availIdx == r.availIdx && r'.size == r.size
  {
  }

  lemma CursorsAdvance(d: Device, r: Ring, offers: nat, n: nat, data: Data)
    requires WellFormed(r) && CursorsOk(d, r, offers, n) && r.size <= 0x8000 && Target(d, r).Some?
    ensures n < offers
    ensures CursorsOk(d.(lastAvail := (d.lastAvail + 1) % U16, isr := true),
                      Publish(r, Target(d, r).value, data), offers, n + 1)
  {
    hide Target, Publish;
    TargetMeansWork(d, r);
    PublishCursors(r, Target(d, r).value, data);
    CounterAdvances(n);
  }

  lemma SizeBound(n: nat)
    requires GoodSize(n)
    ensures n <= 0x8000
  {
  }

  lemma AvailGrows(r: Ring, r': Ring, offered: seq<nat>, n: nat, desc: nat)
    requires WellFormed(r) && WellFormed(r') && r'.size == r.size && n <= |offered| < n + r.size
    requires r'.availRing == r.availRing[|offered| % r.size := desc] && AvailOk(r, offered, n)
    ensures AvailOk(r', offered + [desc], n)
  {
    var m := |offered|;
    forall i | n <= i < m + 1
      ensures r'.availRing[i % r.size] == (offered + [desc])[i]
    {
      if i < m {
        SlotsDiffer(r.size, i, m);
      }
    }
  }

  lemma LogStays(r: Ring, r': Ring, offered: seq<nat>, log: seq<Injection>, desc: nat)
    requires WellFormed(r) && WellFormed(r') && r'.size == r.size && r'.usedRing == r.usedRing && LogOk(r, offered, log)
    ensures LogOk(r', offered + [desc], log)
  {
  }

  lemma OfferInv(s: State, desc: nat, b: Buffer)
    requires Inv(s) && |s.h.offered| < |s.h.log| + s.r.size
    ensures Inv(Offer(s, desc, b))
  {
    hide AvailOk, LogOk, GoodSize;
    assert 0 < s.r.size && U16 % s.r.size == 0 by { GoodSizeDivides(s.r.size); }
    WrappedSlot(s.r.size, |s.h.offered|);
    CounterAdvances(|s.h.offered|);
    var t := Offer(s, desc, b);
    assert WellFormed(t.r);
    AvailGrows(s.r, t.r, s.h.offered, |s.h.log|, desc);
    LogStays(s.r, t.r, s.h.offered, s.h.log, desc);
  }

  lemma GoodSizeDivides(n: nat)
    requires GoodSize(n)
    ensures 0 < n <= 0x8000 && U16 % n == 0
  {
  }

  lemma ResetInv(s: State, ring: Ring)
    requires EmptyRing(ring) && s.d.lastAvail == 0
    ensures Inv(Reset(s, ring))
  {
  }

  lemma NextInv(s: State, e: Event)
    requires Inv(s) && Allowed(s, e)
    ensures Inv(Next(s, e))
  {
    match e
    case DriverReset(ring) => ResetInv(s, ring);
    case GuestOffers(desc, b) => OfferInv(s, desc, b);
    case Configure(_, _) =>
    case Send(data) => InjectInv(s.(h := s.h.(sent := s.h.sent + multiset{data})), data);
    case Poll =>
      if s.d.pending.Some? {
        InjectInv(s.(d := s.d.(pending := None)), s.d.pending.value);
      }
  }

  lemma {:induction false} RunInv(s: State, es: seq<Event>)
    requires Inv(s) && Disciplined(s, es)
    ensures Inv(Run(s, es))
    decreases |es|
  {
    hide Inv, Next;
    if es != [] {
      assert WellFormed(s.r) by { InvWellFormed(s); }
      StaysWellFormed(s, es[0]);
      NextInv(s, es[0]);
      RunInv(Next(s, es[0]), es[1..]);
    }
  }

  lemma InvWellFormed(s: State)
    requires Inv(s)
    ensures WellFormed(s.r)
  {
  }

  /** The device serves the driver's offers since the last reset: the k-th injection consumed the
      k-th descriptor offered and published it at used slot k mod size, no more were consumed than
      offered, and the device sees work as long as an offer is left. */
  ghost predicate Follows(s: State) {
    && WellFormed(s.r)
    && |s.h.log| <= |s.h.offered|
    && (forall k :: 0 <= k < |s.h.log| ==> s.h.log[k].desc == s.h.offered[k] && s.h.log[k].slot == k % s.r.size)
    && (|s.h.log| < |s.h.offered| ==> s.r.availIdx != s.d.lastAvail)
  }

  lemma InvFollows(s: State)
    requires Inv(s)
    ensures Follows(s)
  {
    ReadsNextOffer(s);
  }

  /** For a queue size dividing 65536, in every run the device serves the offers, both cursors are
      the number of injections mod 65536, and the driver never has more descriptors in the ring than
      it holds. */
  lemma InjectionsFollowOffers(s: State, es: seq<Event>, n: nat)
    requires Fresh(s, n) && GoodSize(n) && Disciplined(s, es)
    ensures var t := Run(s, es);
            && Follows(t)
            && |t.h.offered| <= |t.h.log| + t.r.size
            && t.d.lastAvail == t.r.usedIdx == |t.h.log| % U16
  {
    RunInv(s, es);
    InvFollows(Run(s, es));
  }

  // ---------------------------------------------------------------------------------------
  // Messages
  // ---------------------------------------------------------------------------------------

  /** Every message handed over was injected once, waits, or was replaced while waiting. */
  ghost predicate Conserved(s: State) {
    s.h.sent == s.h.earlier + multiset(Messages(s.h.log)) + Waiting(s.d) + s.h.dropped
  }

  lemma InjectMessages(s: State, data: Data)
    requires WellFormed(s.r)
    ensures var (t, ok) := Inject(s, data);
            && multiset(Messages(t.h.log)) == multiset(Messages(s.h.log)) + (if ok then multiset{data} else multiset{})
            && t.h.sent == s.h.sent && t.h.dropped == s.h.dropped && t.h.earlier == s.h.earlier
               && t.d.pending == s.d.pending
            && (!ok ==> t == s)
  {
    var (t, ok) := Inject(s, data);
    if ok {
      assert Messages(t.h.log) == Messages(s.h.log) + [data];
    }
  }

  lemma ResetConserves(s: State, ring: Ring)
    requires Conserved(s)
    ensures Conserved(Reset(s, ring))
  {
    assert Messages([]) == [];
  }

  lemma SendConserves(s: State, data: Data)
    requires WellFormed(s.r) && Conserved(s)
    ensures Conserved(TryInject(s, data))
  {
    hide Inject, Messages;
    InjectMessages(s.(h := s.h.(sent := s.h.sent + multiset{data})), data);
  }

  lemma PollConserves(s: State)
    requires WellFormed(s.r) && Conserved(s)
    ensures Conserved(PollPending(s))
  {
    hide Inject, Messages;
    if s.d.pending.Some? {
      InjectMessages(s.(d := s.d.(pending := None)), s.d.pending.value);
    }
  }

  lemma NextConserves(s: State, e: Event)
    requires WellFormed(s.r) && Conserved(s)
    ensures Conserved(Next(s, e))
  {
    hide Messages, Reset, TryInject, PollPending;
    match e
    case DriverReset(ring) => ResetConserves(s, ring);
    case Send(data) => SendConserves(s, data);
    case Poll => PollConserves(s);
    case _ =>
  }

  /** In every run, whatever the guest does, no message is duplicated, and the only ones lost
      are those replaced in the one-message waiting slot. */
  lemma {:induction false} MessagesConserved(s: State, es: seq<Event>)
    requires WellFormed(s.r) && Conserved(s)
    ensures Conserved(Run(s, es))
    decreases |es|
  {
    hide Conserved, Next;
    if es != [] {
      StaysWellFormed(s, es[0]);
      NextConserves(s, es[0]);
      MessagesConserved(Next(s, es[0]), es[1..]);
    }
  }

  // ---------------------------------------------------------------------------------------
  // Reset
  // ---------------------------------------------------------------------------------------

  const ANY: Buffer := Buffer(0, 16, true)

  /** Offers that the device cannot tell from its own count. */
  function Misleading(r: Ring, cursor: nat): seq<Event>
    requires 0 < r.size == |r.availRing|
  {
    var g := r.availRing[cursor % r.size];
    var on := [Configure(true, true)];
    if cursor == 1 && r.size == 1 then on + [GuestOffers(0, ANY)]
    else if cursor % r.size == 0 then on + [GuestOffers(r.availRing[1 % r.size], ANY), Send([]), Send([])]
    else if cursor == 2 then on + [GuestOffers(g + 1, ANY), GuestOffers(g, ANY), GuestOffers(g, ANY), Send([])]
    else on + [GuestOffers(g + 1, ANY), GuestOffers(g, ANY), Send([])]
  }

  ghost predicate ResetState(s: State) {
    && EmptyRing(s.r) && s.h.offered == [] && s.h.log == [] && s.d.lastAvail < U16
  }

  lemma RunCons(s: State, e: Event, es: seq<Event>)
    requires WellFormed(s.r)
    ensures WellFormed(Next(s, e).r)
    ensures Run(s, [e] + es) == Run(Next(s, e), es)
    ensures Disciplined(s, [e] + es) <==> Allowed(s, e) && Disciplined(Next(s, e), es)
  {
    hide Next, Allowed;
    StaysWellFormed(s, e);
    assert ([e] + es)[1..] == es;
  }

  /** The device takes what it finds in the slot of its cursor. */
  lemma SendTakes(s: State)
    requires WellFormed(s.r) && s.d.ready && s.d.mapped && s.r.availIdx != s.d.lastAvail
    requires var g := s.r.availRing[s.d.lastAvail % s.r.size]; g in s.r.table && s.r.table[g].writable
    ensures var t := Next(s, Send([]));
            && WellFormed(t.r) && t.r.size == s.r.size && t.h.offered == s.h.offered && t.d.ready && t.d.mapped
            && t.d.lastAvail == (s.d.lastAvail + 1) % U16
            && t.r.availIdx == s.r.availIdx && t.r.availRing == s.r.availRing && t.r.table == s.r.table
            && |t.h.log| == |s.h.log| + 1 && t.h.log[..|s.h.log|] == s.h.log
            && t.h.log[|s.h.log|].desc == s.r.availRing[s.d.lastAvail % s.r.size]
  {
  }

  lemma OfferPuts(s: State, desc: nat)
    requires WellFormed(s.r) && s.r.availIdx < s.r.size <= 0x8000 && s.d.ready && s.d.mapped
    ensures var t := Next(s, GuestOffers(desc, ANY));
            && WellFormed(t.r) && t.d == s.d && t.r.size == s.r.size && t.h.log == s.h.log
            && t.h.offered == s.h.offered + [desc] && t.r.availIdx == s.r.availIdx + 1
            && t.r.availRing == s.r.availRing[s.r.availIdx := desc] && t.r.table == s.r.table[desc := ANY]
  {
    SlotOf(s.r.availIdx, s.r.size);
  }

  lemma SlotOf(i: nat, n: nat)
    requires i < n
    ensures i % n == i
  {
  }

  /** A ring of one entry and a cursor of 1: the offer is never seen. */
  lemma NeverSeen(s: State)
    requires ResetState(s) && s.d.lastAvail == 1 && s.r.size == 1
    ensures Disciplined(s, Misleading(s.r, 1)) && !Follows(Run(s, Misleading(s.r, 1)))
  {
    hide Run, Disciplined, Next;
    var s1 := On(s);
    var o := GuestOffers(0, ANY);
    SlotOf(0, 1);
    Switched(s);
    OfferPuts(s1, 0);
    assert Misleading(s.r, 1) == [Configure(true, true)] + ([o] + []);
    RunCons(s, Configure(true, true), [o] + []);
    RunCons(s1, o, []);
    NoEvents(Next(s1, o));
  }

  function On(s: State): State {
    s.(d := s.d.(ready := true, mapped := true))
  }

  lemma NoEvents(s: State)
    requires WellFormed(s.r)
    ensures Run(s, []) == s && Disciplined(s, [])
  {
  }

  lemma Switched(s: State)
    requires WellFormed(s.r)
    ensures Next(s, Configure(true, true)) == On(s) && Allowed(s, Configure(true, true))
  {
  }

  /** A cursor on slot 0: the offer is taken, and then a second one that was never made. */
  lemma TakenTwice(s: State)
    requires ResetState(s) && s.d.lastAvail != 0 && s.d.lastAvail % s.r.size == 0
             && !(s.d.lastAvail == 1 && s.r.size == 1)
    ensures var es := Misleading(s.r, s.d.lastAvail); Disciplined(s, es) && !Follows(Run(s, es))
  {
    hide Run, Disciplined, Next;
    var x := s.r.availRing[1 % s.r.size];
    var o := GuestOffers(x, ANY);
    var s1 := On(s);
    assert s.r.size > 1 ==> s.d.lastAvail != 1 by { if s.r.size > 1 { SlotOf(1, s.r.size); } }
    OfferPuts(s1, x);
    var s2 := Next(s1, o);
    SendTakes(s2);
    var s3 := Next(s2, Send([]));
    SecondSlot(s.d.lastAvail, s.r.size);
    SendTakes(s3);
    var s4 := Next(s3, Send([]));
    Switched(s);
    RunCons(s3, Send([]), []);
    RunCons(s2, Send([]), [Send([])] + []);
    RunCons(s1, o, [Send([])] + ([Send([])] + []));
    RunCons(s, Configure(true, true), [o] + ([Send([])] + ([Send([])] + [])));
    assert Misleading(s.r, s.d.lastAvail) == [Configure(true, true)] + ([o] + ([Send([])] + ([Send([])] + [])));
    NoEvents(s4);
    assert |s4.h.log| == 2 && |s4.h.offered| == 1;
  }

  /** The slot after slot 0 is slot 1 or slot 0. */
  lemma SecondSlot(c: nat, n: nat)
    requires 0 < n && c % n == 0 && c < U16
    ensures var j := ((c + 1) % U16) % n; j == 1 % n || j == 0
  {
    var q := c / n;
    assert c == n * q;
    ModPeriod(n, q, 1);
    if c + 1 == U16 {
      SlotOf(0, n);
    }
  }

  /** Any other cursor: the device takes the entry of a later offer, or one of no offer. */
  lemma TakenOutOfTurn(s: State)
    requires ResetState(s) && s.d.lastAvail % s.r.size != 0
    ensures var es := Misleading(s.r, s.d.lastAvail); Disciplined(s, es) && !Follows(Run(s, es))
  {
    hide Run, Disciplined, Next;
    var c, n := s.d.lastAvail, s.r.size;
    var j := c % n;
    assert c > 0 by { if c == 0 { SlotOf(0, n); } }
    assert n >= 2 by { OneSlot(c, n); }
    var g := s.r.availRing[j];
    var o1, o2 := GuestOffers(g + 1, ANY), GuestOffers(g, ANY);
    var s1 := On(s);
    Switched(s);
    OfferPuts(s1, g + 1);
    var s2 := Next(s1, o1);
    OfferPuts(s2, g);
    var s3 := Next(s2, o2);
    if c == 2 {
      assert n >= 3 by { TwoSlots(n); }
      SlotOf(2, n);
      OfferPuts(s3, g);
      var s4 := Next(s3, o2);
      SendTakes(s4);
      var s5 := Next(s4, Send([]));
      RunCons(s4, Send([]), []);
      RunCons(s3, o2, [Send([])] + []);
      RunCons(s2, o2, [o2] + ([Send([])] + []));
      RunCons(s1, o1, [o2] + ([o2] + ([Send([])] + [])));
      RunCons(s, Configure(true, true), [o1] + ([o2] + ([o2] + ([Send([])] + []))));
      assert Misleading(s.r, c) == [Configure(true, true)] + ([o1] + ([o2] + ([o2] + ([Send([])] + []))));
      NoEvents(s5);
      assert s5.h.log[0].desc == g && s5.h.offered[0] == g + 1;
    } else {
      SendTakes(s3);
      var s4 := Next(s3, Send([]));
      RunCons(s3, Send([]), []);
      RunCons(s2, o2, [Send([])] + []);
      RunCons(s1, o1, [o2] + ([Send([])] + []));
      RunCons(s, Configure(true, true), [o1] + ([o2] + ([Send([])] + [])));
      assert Misleading(s.r, c) == [Configure(true, true)] + ([o1] + ([o2] + ([Send([])] + [])));
      NoEvents(s4);
      assert s4.h.log[0].desc == g && s4.h.offered[0] == g + 1;
    }
  }

  lemma OneSlot(c: nat, n: nat)
    requires n > 0 && c % n != 0
    ensures n >= 2
  {
  }

  lemma TwoSlots(n: nat)
    requires n > 0 && 2 % n != 0
    ensures n >= 3
  {
    assert 2 % 2 == 0;
  }

  /** After a reset every driver that keeps to its ring is served exactly if the cursor was 0. */
  lemma ServesAfterReset(s: State, ring: Ring)
    requires WellFormed(s.r) && EmptyRing(ring) && s.d.lastAvail < U16
    ensures (forall es :: Disciplined(Reset(s, ring), es) ==> Follows(Run(Reset(s, ring), es))) <==> s.d.lastAvail == 0
  {
    hide Run, Disciplined, Follows, Misleading;
    var t := Reset(s, ring);
    if s.d.lastAvail == 0 {
      forall es | Disciplined(t, es)
        ensures Follows(Run(t, es))
      {
        ResetInv(s, ring);
        RunInv(t, es);
        InvFollows(Run(t, es));
      }
    } else {
      var es := Misleading(ring, s.d.lastAvail);
      if s.d.lastAvail % ring.size != 0 {
        TakenOutOfTurn(t);
      } else if s.d.lastAvail == 1 && ring.size == 1 {
        NeverSeen(t);
      } else {
        TakenTwice(t);
      }
      assert Disciplined(t, es) && !Follows(Run(t, es));
    }
  }

  /** Such a state is within reach: one message to the first driver, and then a reset. */
  lemma ResetCanMislead(s: State, n: nat, ring: Ring) returns (es: seq<Event>, more: seq<Event>)
    requires Fresh(s, n) && GoodSize(n) && EmptyRing(ring)
    ensures Disciplined(s, es)
    ensures var t := Reset(Run(s, es), ring); Disciplined(t, more) && !Follows(Run(t, more))
  {
    hide Run, Disciplined, Next, Follows;
    var o := GuestOffers(0, ANY);
    es := [Configure(true, true)] + ([o] + ([Send([])] + []));
    var s1 := On(s);
    Switched(s);
    SlotOf(0, n);
    OfferPuts(s1, 0);
    var s2 := Next(s1, o);
    SendTakes(s2);
    var s3 := Next(s2, Send([]));
    RunCons(s2, Send([]), []);
    RunCons(s1, o, [Send([])] + []);
    RunCons(s, Configure(true, true), [o] + ([Send([])] + []));
    NoEvents(s3);
    ServesAfterReset(s3, ring);
    more :| Disciplined(Reset(s3, ring), more) && !Follows(Run(Reset(s3, ring), more));
  }
}
