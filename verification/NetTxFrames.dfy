/**
 Which bytes leave through the TAP: of every chain longer than 12 bytes the bytes after the first 12,
 once, and in the end all of them.
 */
module NetTxFrames {
  import opened Wrappers
  import opened Virtio
  import opened NetTx
  import opened NetTxRuns

  // ---------------------------------------------------------------------------------------
  // The bytes of a chain
  // ---------------------------------------------------------------------------------------

  /** The bytes of descriptors, from the front. */
  function Flat(ds: seq<Packet>): Packet {
    if ds == [] then [] else ds[0] + Flat(ds[1..])
  }

  function Length(ds: seq<Packet>): nat {
    if ds == [] then 0 else |ds[0]| + Length(ds[1..])
  }

  lemma {:induction false} FlatSnoc(ds: seq<Packet>, d: Packet)
    ensures Flat(ds + [d]) == Flat(ds) + d && Length(ds + [d]) == Length(ds) + |d|
    decreases |ds|
  {
    if ds == [] {
      assert (ds + [d])[1..] == [];
    } else {
      assert (ds + [d])[1..] == ds[1..] + [d];
      FlatSnoc(ds[1..], d);
      assert ds[0] + (Flat(ds[1..]) + d) == ds[0] + Flat(ds[1..]) + d;
    }
  }

  lemma {:induction false} JoinedIsFlat(ds: seq<Packet>)
    ensures Joined(ds) == Flat(ds) && |Flat(ds)| == Length(ds) && TotalLen(ds) == Length(ds) % 0x1_0000_0000
    decreases |ds|
  {
    if ds != [] {
      var init, last := ds[..|ds| - 1], ds[|ds| - 1];
      assert ds == init + [last];
      FlatSnoc(init, last);
      JoinedIsFlat(init);
    }
  }

  /** A chain that has something to send. */
  predicate Sends(c: Chain, size: nat) {
    c.head < size && Length(c.descs) > 12
  }

  /** The packet is what follows the first 12 bytes of the chain. */
  ghost predicate IsFrame(p: Packet, c: Chain) {
    exists header: Packet :: |header| == 12 && Flat(c.descs) == header + p
  }

  lemma PayloadIs(c: Chain, size: nat)
    ensures Payload(c, size).Some? <==> Sends(c, size)
    ensures Sends(c, size) ==> IsFrame(Payload(c, size).value, c)
  {
    JoinedIsFlat(Descs(c, size));
    if Sends(c, size) {
      var b := Flat(c.descs);
      assert b == b[..12] + b[12..];
    }
  }

  function Sending(cs: seq<Chain>, size: nat): (r: seq<Chain>)
    ensures forall i :: 0 <= i < |r| ==> Sends(r[i], size)
  {
    if cs == [] then [] else (if Sends(cs[0], size) then [cs[0]] else []) + Sending(cs[1..], size)
  }

  lemma {:induction false} SendingSnoc(cs: seq<Chain>, c: Chain, size: nat)
    ensures Sending(cs + [c], size) == Sending(cs, size) + if Sends(c, size) then [c] else []
    decreases |cs|
  {
    hide Sends;
    if cs == [] {
      assert (cs + [c])[1..] == [];
    } else {
      assert (cs + [c])[1..] == cs[1..] + [c];
      SendingSnoc(cs[1..], c, size);
    }
  }

  lemma {:induction false} PayloadsAre(cs: seq<Chain>, size: nat)
    ensures var ps, sending := Payloads(cs, size), Sending(cs, size);
            |ps| == |sending| && forall i :: 0 <= i < |ps| ==> IsFrame(ps[i], sending[i])
    decreases |cs|
  {
    hide Payload, Sends, IsFrame;
    if cs != [] {
      var i := |cs| - 1;
      PayloadsAre(cs[..i], size);
      assert cs == cs[..i] + [cs[i]];
      SendingSnoc(cs[..i], cs[i], size);
      PayloadIs(cs[i], size);
    }
  }

  // ---------------------------------------------------------------------------------------
  // On the wire
  // ---------------------------------------------------------------------------------------

  /** Every write since the last reset sends the frame of its own chain, and so does every entry that
      is queued or with the kernel. */
  ghost predicate FramesOk(s: State) {
    && s.q.nextAvail <= |s.q.avail|
    && var sending := Sending(s.q.avail[..s.q.nextAvail], s.q.size);
       && |s.h.asked| == s.h.base + |sending|
       && (forall i :: 0 <= i < |s.h.tap| && s.h.base <= s.h.tap[i].k ==>
             s.h.tap[i].k < |s.h.asked| && IsFrame(s.h.tap[i].bytes, sending[s.h.tap[i].k - s.h.base]))
       && (forall ud :: (ud in s.r.sq || ud in s.r.kernel) && s.h.base <= ud ==>
             ud < |s.h.asked| && IsFrame(BufferAt(s.d.pending, ud), sending[ud - s.h.base]))
  }

  /** In every run of a fresh device. */
  lemma FramesOnTheWire(hasRing: bool, es: seq<Event>)
    ensures FramesOk(Run(Init(true, hasRing), es))
  {
    hide Run, Sending, IsFrame, Payloads, Places, Returned;
    FreshDevice(hasRing, es);
    var t := Run(Init(true, hasRing), es);
    PayloadsAre(t.q.avail[..t.q.nextAvail], t.q.size);
    assert forall k :: t.h.base <= k < |t.h.asked| ==> t.h.asked[k] == t.h.asked[t.h.base..][k - t.h.base];
  }

  // ---------------------------------------------------------------------------------------
  // In the end everything is written
  // ---------------------------------------------------------------------------------------

  lemma {:induction false} DrainBound(s: State, used: seq<UsedElem>)
    requires |s.r.sq| <= 64
    ensures |Drain(s, used).0.r.sq| <= 64
    decreases |s.q.avail| - s.q.nextAvail
  {
    hide Payload, UsedOf;
    if s.q.nextAvail < |s.q.avail| {
      var c := s.q.avail[s.q.nextAvail];
      DrainBound(Send(s, c).(q := s.q.(nextAvail := s.q.nextAvail + 1)), used + [UsedOf(c, s.q.size)]);
    }
  }

  lemma NextBound(s: State, e: Event)
    requires |s.r.sq| <= 64
    ensures |Next(s, e).r.sq| <= 64
  {
    hide CompleteAll, Drain, Release, Accepted;
    if e.Transmit? && s.q.ready {
      DrainBound(s, []);
      var u := Drain(s, []).0;
      CompleteAllKeeps(u.(r := Submit(u.r, e.take)), e.now);
    }
  }

  lemma {:induction false} RunBound(s: State, es: seq<Event>)
    requires |s.r.sq| <= 64
    ensures |Run(s, es).r.sq| <= 64
    decreases |es|
  {
    hide Next;
    if es != [] {
      NextBound(s, es[0]);
      RunBound(Next(s, es[0]), es[1..]);
    }
  }

  lemma WholeSubmission(r: Ring, take: nat)
    requires |r.sq| <= take
    ensures Submit(r, take).sq == []
  {
  }

  /** A transmission pops all chains, and hands the queue to the kernel if it takes 64 entries; if it
      returned chains, it raised the interrupt. */
  lemma TransmitHandsOver(s: State, take: nat, now: seq<nat>)
    requires s.q.ready && s.q.nextAvail <= |s.q.avail| && |s.r.sq| <= 64 <= take
    requires !s.d.hasRing ==> s.r.sq == []
    ensures var t := ProcessTx(s, take, now);
            && t.r.sq == [] && t.q.avail == s.q.avail && t.q.nextAvail == |t.q.avail| && t.q.size == s.q.size
            && (s.q.nextAvail < |s.q.avail| ==> t.d.isr)
  {
    hide Drain, CompleteAll, Release, Accepted, Submit;
    DrainReturns(s, []);
    DrainBound(s, []);
    var (u, used) := Drain(s, []);
    if s.d.hasRing {
      WholeSubmission(u.r, take);
      CompleteAllKeeps(u.(r := Submit(u.r, take)), now);
    } else {
      NoRing(s, []);
    }
    assert ChainHeads(s.q.avail[s.q.nextAvail..]) != [] <==> s.q.nextAvail < |s.q.avail|;
    assert Heads(used) != [] <==> used != [];
  }

  lemma {:induction false} NoRing(s: State, used: seq<UsedElem>)
    requires !s.d.hasRing
    ensures Drain(s, used).0.r == s.r
    decreases |s.q.avail| - s.q.nextAvail
  {
    hide Payload, UsedOf;
    if s.q.nextAvail < |s.q.avail| {
      var c := s.q.avail[s.q.nextAvail];
      NoRing(Send(s, c).(q := s.q.(nextAvail := s.q.nextAvail + 1)), used + [UsedOf(c, s.q.size)]);
    }
  }

  function Completions(ids: seq<nat>): seq<Event> {
    seq(|ids|, i requires 0 <= i < |ids| => KernelCompletes(ids[i]))
  }

  /** The kernel writes what it has, in any order. */
  lemma {:induction false} KernelEmpties(s: State, ids: seq<nat>)
    requires multiset(ids) == s.r.kernel
    ensures var t := Run(s, Completions(ids));
            t.r.kernel == multiset{} && t.r.sq == s.r.sq && t.q == s.q && t.h.asked == s.h.asked && t.h.base == s.h.base
    decreases |ids|
  {
    hide BufferAt;
    if ids != [] {
      assert ids == [ids[0]] + ids[1..];
      assert ids[0] in multiset(ids);
      assert Completions(ids)[1..] == Completions(ids[1..]);
      var t := Next(s, KernelCompletes(ids[0]));
      assert t.r.kernel == s.r.kernel - multiset{ids[0]} == multiset(ids[1..]);
      KernelEmpties(t, ids[1..]);
    }
  }

  /** Every packet taken so far was written once. */
  ghost predicate AllWritten(s: State) {
    && NoDuplicates(Numbers(s.h.tap))
    && (forall k: nat :: k in Numbers(s.h.tap) <==> k < |s.h.asked|)
  }

  lemma OnceMeansAll(s: State)
    requires OncePlaced(s) && s.r.sq == [] && s.r.kernel == multiset{}
    ensures AllWritten(s)
  {
    var ns: seq<nat> := Numbers(s.h.tap);
    assert Places(s) == multiset(ns);
    assert forall k: nat :: k in ns <==> Places(s)[k] > 0;
    OnceEach(ns);
  }

  lemma OnceEach(ns: seq<nat>)
    requires forall k :: k in ns ==> multiset(ns)[k] == 1
    ensures NoDuplicates(ns)
  {
    forall i, j | 0 <= i < j < |ns|
      ensures ns[i] != ns[j]
    {
      var a, b := ns[..j], ns[j..];
      assert ns == a + b && a[i] == ns[i] && b[0] == ns[j];
      assert multiset(ns) == multiset(a) + multiset(b);
      assert ns[i] in a && ns[j] in b && ns[i] in ns;
      assert multiset(ns)[ns[i]] == multiset(a)[ns[i]] + multiset(b)[ns[i]];
    }
  }

  /** After any run of a fresh device that leaves the queue ready: a transmission whose submission is
      taken and the completion of all the kernel has, in any order, write the frame of every chain
      that has one, each once, and leave no chain in the queue. */
  lemma EveryFrameIsWritten(hasRing: bool, es: seq<Event>, take: nat, now: seq<nat>, ids: seq<nat>)
    requires Run(Init(true, hasRing), es).q.ready && take >= 64
    requires multiset(ids) == ProcessTx(Run(Init(true, hasRing), es), take, now).r.kernel
    ensures var t := Run(Init(true, hasRing), es + [Transmit(take, now)] + Completions(ids));
            && FramesOk(t) && AllWritten(t) && t.q.nextAvail == |t.q.avail|
            && t.q.avail == Run(Init(true, hasRing), es).q.avail
  {
    hide Run, FramesOk, ProcessTx, OncePlaced, AllWritten, Returned, FromChains;
    var s0 := Init(true, hasRing);
    var s := Run(s0, es);
    RunBound(s0, es);
    FreshDevice(hasRing, es);
    FreshOk(hasRing);
    PacketsConserved(s0, es);
    assert s.q.nextAvail <= |s.q.avail| by { PoppedBound(s); }
    assert !s.d.hasRing ==> s.r.sq == [] by { HeldMeans(s); }
    TransmitHandsOver(s, take, now);
    var u := ProcessTx(s, take, now);
    assert Run(s, [Transmit(take, now)]) == u by { OneStep(s, Transmit(take, now)); }
    RunSplit(s0, es, [Transmit(take, now)]);
    RunSplit(s0, es + [Transmit(take, now)], Completions(ids));
    KernelEmpties(u, ids);
    var all := es + [Transmit(take, now)] + Completions(ids);
    FramesOnTheWire(hasRing, all);
    FreshDevice(hasRing, all);
    OnceMeansAll(Run(s0, all));
  }

  lemma OneStep(s: State, e: Event)
    ensures Run(s, [e]) == Next(s, e)
  {
    hide Next;
    assert [e][1..] == [];
  }

  lemma PoppedBound(s: State)
    requires FromChains(s)
    ensures s.q.nextAvail <= |s.q.avail|
  {
  }

  lemma HeldMeans(s: State)
    requires Held(s)
    ensures !s.d.hasRing ==> s.r.sq == []
  {
  }

  // ---------------------------------------------------------------------------------------
  // What the driver gets back
  // ---------------------------------------------------------------------------------------

  /** The chains with a head inside the table, each with its number of bytes in 32 bits. */
  function Returns(cs: seq<Chain>, size: nat): seq<UsedElem> {
    if cs == [] then []
    else
      (if cs[0].head < size then [UsedElem(cs[0].head, Length(cs[0].descs) % 0x1_0000_0000)]
        else []) + Returns(cs[1..], size)
  }

  lemma {:induction false} ReturnsAppend(a: seq<Chain>, b: seq<Chain>, size: nat)
    ensures Returns(a + b, size) == Returns(a, size) + Returns(b, size)
    decreases |a|
  {
    if a == [] {
      assert a + b == b;
    } else {
      assert (a + b)[1..] == a[1..] + b;
      ReturnsAppend(a[1..], b, size);
    }
  }

  function UsedOfAll(cs: seq<Chain>, size: nat): seq<UsedElem> {
    seq(|cs|, i requires 0 <= i < |cs| => UsedOf(cs[i], size))
  }

  lemma {:induction false} AcceptedIs(cs: seq<Chain>, size: nat)
    ensures Accepted(UsedOfAll(cs, size), size) == Returns(cs, size)
    decreases |cs|
  {
    hide UsedOf;
    if cs != [] {
      var init, c := cs[..|cs| - 1], cs[|cs| - 1];
      AcceptedIs(init, size);
      assert cs == init + [c] && UsedOfAll(cs, size)[..|cs| - 1] == UsedOfAll(init, size);
      ReturnsAppend(init, [c], size);
      OneReturn(c, size);
    }
  }

  lemma OneReturn(c: Chain, size: nat)
    ensures UsedOf(c, size).head == c.head
    ensures Returns([c], size) == if c.head < size then [UsedOf(c, size)] else []
  {
    hide Length, TotalLen;
    assert [c][1..] == [];
    JoinedIsFlat(c.descs);
  }

  lemma {:induction false} DrainUses(s: State, used: seq<UsedElem>)
    requires s.q.nextAvail <= |s.q.avail|
    ensures Drain(s, used).1 == used + UsedOfAll(s.q.avail[s.q.nextAvail..], s.q.size)
    decreases |s.q.avail| - s.q.nextAvail
  {
    hide Payload, Emit, UsedOf;
    var rest := s.q.avail[s.q.nextAvail..];
    if rest != [] {
      var c := s.q.avail[s.q.nextAvail];
      if Payload(c, s.q.size).Some? {
        EmitKeepsQueue(s, Payload(c, s.q.size).value);
      }
      DrainUses(Send(s, c).(q := s.q.(nextAvail := s.q.nextAvail + 1)), used + [UsedOf(c, s.q.size)]);
      assert rest == [c] + s.q.avail[s.q.nextAvail + 1..];
      assert UsedOfAll(rest, s.q.size) == [UsedOf(c, s.q.size)] + UsedOfAll(s.q.avail[s.q.nextAvail + 1..], s.q.size);
    }
  }

  ghost predicate ReturnedWithLengths(q: Queue) {
    q.nextAvail <= |q.avail| && q.used == Returns(q.avail[..q.nextAvail], q.size)
  }

  lemma TransmitLengths(s: State, take: nat, now: seq<nat>)
    requires ReturnedWithLengths(s.q)
    ensures ReturnedWithLengths(ProcessTx(s, take, now).q)
  {
    hide Drain, Accepted, Returns, Flush, UsedOfAll;
    if s.q.ready {
      DrainUses(s, []);
      DrainReturns(s, []);
      var (t, used) := Drain(s, []);
      FlushKeeps(t, take, now);
      var rest := s.q.avail[s.q.nextAvail..];
      assert [] + UsedOfAll(rest, s.q.size) == UsedOfAll(rest, s.q.size);
      AcceptedIs(rest, s.q.size);
      assert s.q.avail[..|s.q.avail|] == s.q.avail[..s.q.nextAvail] + rest;
      ReturnsAppend(s.q.avail[..s.q.nextAvail], rest, s.q.size);
      assert used == [] ==> Accepted(used, s.q.size) == [] by { NoneAccepted(s.q.size); }
    }
  }

  lemma NoneAccepted(size: nat)
    ensures Accepted([], size) == []
  {
  }

  /** In every run the used ring lists the popped chains, in order, with their lengths. */
  lemma {:induction false} LengthsAreReported(s: State, es: seq<Event>)
    requires ReturnedWithLengths(s.q)
    ensures ReturnedWithLengths(Run(s, es).q)
    decreases |es|
  {
    hide ProcessTx, Complete, Returns;
    if es != [] {
      assert ReturnedWithLengths(Next(s, es[0]).q) by {
        match es[0]
        case Transmit(take, now) => TransmitLengths(s, take, now);
        case Offer(c) => assert (s.q.avail + [c])[..s.q.nextAvail] == s.q.avail[..s.q.nextAvail];
        case KernelCompletes(ud) => CompleteKeepsQueue(s, ud);
        case _ => NothingReturned(s);
      }
      LengthsAreReported(Next(s, es[0]), es[1..]);
    }
  }

  lemma CompleteKeepsQueue(s: State, ud: nat)
    ensures Complete(s, ud).q == s.q
  {
  }

  lemma NothingReturned(s: State)
    ensures forall size :: Returns([], size) == []
    ensures s.q.nextAvail == 0 ==> s.q.avail[..0] == []
    ensures NEW_QUEUE.avail[..0] == []
  {
  }
}
