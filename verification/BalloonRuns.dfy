/**
 What the balloon keeps over any sequence of inflate and deflate batches of an arbitrary guest.
 */
module BalloonRuns {
  import opened Wrappers
  import opened Virtio
  import opened Balloon

  // ---------------------------------------------------------------------------------------
  // The pages a batch names
  // ---------------------------------------------------------------------------------------

  function WordPage(w: Option<nat>): set<nat> {
    if w.Some? then {w.value * PAGE} else {}
  }

  function DescPages(d: Desc, i: nat): set<nat>
    decreases WordCount(d) - i
  {
    if i >= WordCount(d) then {} else WordPage(ReadWord(d, i)) + DescPages(d, i + 1)
  }

  function ChainPages(ds: seq<Desc>, k: nat): set<nat>
    requires k <= |ds|
    decreases |ds| - k
  {
    if k == |ds| then {} else DescPages(ds[k], 0) + ChainPages(ds, k + 1)
  }

  /** The pages named by the chains from n up to m. */
  function QueuePages(avail: seq<Chain>, n: nat, m: nat): set<nat>
    requires n <= m <= |avail|
    decreases m - n
  {
    if n == m then {} else ChainPages(Descs(avail[n]), 0) + QueuePages(avail, n + 1, m)
  }

  /** The 32-bit word at byte offset 4 * i of a descriptor is read if it lies within the descriptor and
      its first 65536 bytes; it names the page at 4096 times its value. */
  predicate WordNames(d: Desc, i: nat, g: nat) {
    4 * i + 4 <= d.len && 4 * i + 4 <= 65536 && ReadWord(d, i).Some? && g == 4096 * ReadWord(d, i).value
  }

  ghost predicate NamesPage(d: Desc, g: nat) {
    exists i: nat :: WordNames(d, i, g)
  }

  lemma WordPageIs(d: Desc, i: nat)
    ensures i < WordCount(d) ==> forall g: nat :: g in WordPage(ReadWord(d, i)) <==> WordNames(d, i, g)
    ensures i >= WordCount(d) ==> forall g: nat :: !WordNames(d, i, g)
  {
  }

  lemma {:induction false} DescPagesAre(d: Desc, i: nat)
    ensures forall g :: g in DescPages(d, i) <==> exists j: nat :: i <= j && WordNames(d, j, g)
    decreases WordCount(d) - i
  {
    hide WordNames, WordPage, ReadWord, WordCount;
    if i < WordCount(d) {
      WordPageIs(d, i);
      DescPagesAre(d, i + 1);
    } else {
      forall j: nat, g: nat | i <= j
        ensures !WordNames(d, j, g)
      {
        WordPageIs(d, j);
      }
    }
  }

  lemma {:induction false} ChainPagesAre(ds: seq<Desc>, k: nat)
    requires k <= |ds|
    ensures forall g :: g in ChainPages(ds, k) <==> exists j :: k <= j < |ds| && NamesPage(ds[j], g)
    decreases |ds| - k
  {
    hide DescPages, NamesPage;
    if k < |ds| {
      OneDescPages(ds[k]);
      ChainPagesAre(ds, k + 1);
    }
  }

  lemma OneDescPages(d: Desc)
    ensures forall g :: g in DescPages(d, 0) <==> NamesPage(d, g)
  {
    DescPagesAre(d, 0);
  }

  /** A chain names a page in one of its descriptors, if its head is inside the table. */
  ghost predicate ChainNames(c: Chain, g: nat) {
    c.head < 256 && exists k :: 0 <= k < |c.descs| && NamesPage(c.descs[k], g)
  }

  /** So the pages of a batch are those that one of its chains names. */
  lemma {:induction false} QueuePagesAre(avail: seq<Chain>, n: nat, m: nat)
    requires n <= m <= |avail|
    ensures forall g :: g in QueuePages(avail, n, m) <==> exists i :: n <= i < m && ChainNames(avail[i], g)
    decreases m - n
  {
    hide ChainPages, ChainNames;
    if n < m {
      OneChainPages(avail[n]);
      QueuePagesAre(avail, n + 1, m);
    }
  }

  lemma OneChainPages(c: Chain)
    ensures forall g :: g in ChainPages(Descs(c), 0) <==> ChainNames(c, g)
  {
    hide ChainPages, NamesPage;
    ChainPagesAre(Descs(c), 0);
  }

  // ---------------------------------------------------------------------------------------
  // One batch
  // ---------------------------------------------------------------------------------------

  /** From p to q some of the named pages entered, and the host was advised once for each page
      that entered and for no other. */
  ghost predicate Grew(p: Pages, q: Pages, named: set<nat>) {
    && p.inside <= q.inside <= p.inside + named
    && p.advised <= q.advised
    && NoDuplicates(q.advised[|p.advised|..])
    && (forall g :: g in q.advised[|p.advised|..] <==> g in q.inside - p.inside)
  }

  /** Inflation stopped at the cap, or all named pages are in. */
  ghost predicate FilledOrAll(p: Pages, q: Pages, named: set<nat>, hit: bool, max: nat) {
    && (hit ==> |q.inside| >= max)
    && (!hit ==> q.inside == p.inside + named)
    && (|p.inside| <= max ==> |q.inside| <= max)
  }

  ghost predicate Inflated(p: Pages, q: Pages, named: set<nat>, hit: bool, max: nat) {
    Grew(p, q, named) && FilledOrAll(p, q, named, hit, max)
  }

  lemma JoinNoDuplicates(x: seq<nat>, y: seq<nat>)
    requires NoDuplicates(x) && NoDuplicates(y) && forall g :: g in x ==> g !in y
    ensures NoDuplicates(x + y)
  {
    forall i, j | 0 <= i < |x| <= j < |x + y|
      ensures (x + y)[i] != (x + y)[j]
    {
      assert x[i] in x && y[j - |x|] in y;
    }
  }

  lemma GrewTransitive(p: Pages, q: Pages, r: Pages, a: set<nat>, b: set<nat>)
    requires Grew(p, q, a) && Grew(q, r, b)
    ensures Grew(p, r, a + b)
  {
    var x, y := q.advised[|p.advised|..], r.advised[|q.advised|..];
    assert r.advised[|p.advised|..] == x + y;
    JoinNoDuplicates(x, y);
  }

  lemma GrewReflexive(p: Pages, named: set<nat>)
    ensures Grew(p, p, named)
  {
    assert p.advised[|p.advised|..] == [];
  }

  /** Inflating with more to come, if the cap was not hit. */
  lemma InflatedThen(p: Pages, q: Pages, r: Pages, a: set<nat>, b: set<nat>, hit: bool, max: nat)
    requires Inflated(p, q, a, false, max) && Inflated(q, r, b, hit, max)
    ensures Inflated(p, r, a + b, hit, max)
  {
    hide Grew;
    GrewTransitive(p, q, r, a, b);
  }

  /** Stopping at the cap, whatever more there was. */
  lemma InflatedStops(p: Pages, q: Pages, a: set<nat>, b: set<nat>, max: nat)
    requires Inflated(p, q, a, true, max)
    ensures Inflated(p, q, a + b, true, max)
  {
  }

  lemma InsertGrows(p: Pages, w: Option<nat>, max: nat)
    requires |p.inside| < max
    ensures Inflated(p, Insert(p, w), WordPage(w), false, max)
  {
    if w.Some? && w.value * PAGE !in p.inside {
      assert Insert(p, w).advised[|p.advised|..] == [w.value * PAGE];
    } else {
      GrewReflexive(p, WordPage(w));
    }
  }

  lemma {:induction false} InflateDescGrows(p: Pages, d: Desc, i: nat, max: nat)
    ensures var (q, hit) := InflateDesc(p, d, i, max); Inflated(p, q, DescPages(d, i), hit, max)
    decreases WordCount(d) - i
  {
    if i >= WordCount(d) || |p.inside| >= max {
      GrewReflexive(p, DescPages(d, i));
    } else {
      hide Inflated, WordCount;
      var w := ReadWord(d, i);
      var p1 := Insert(p, w);
      InsertGrows(p, w, max);
      InflateDescGrows(p1, d, i + 1, max);
      var (q, hit) := InflateDesc(p1, d, i + 1, max);
      InflatedThen(p, p1, q, WordPage(w), DescPages(d, i + 1), hit, max);
    }
  }

  lemma InflatedNothing(p: Pages, max: nat)
    ensures Inflated(p, p, {}, false, max)
  {
    GrewReflexive(p, {});
  }

  lemma {:induction false} InflateChainGrows(p: Pages, ds: seq<Desc>, k: nat, total: nat, max: nat)
    requires k <= |ds|
    ensures var (q, _, hit) := InflateChain(p, ds, k, total, max); Inflated(p, q, ChainPages(ds, k), hit, max)
    decreases |ds| - k
  {
    hide Inflated, InflateDesc, DescPages;
    if k == |ds| {
      InflatedNothing(p, max);
    } else {
      var (p1, hit1) := InflateDesc(p, ds[k], 0, max);
      InflateDescGrows(p, ds[k], 0, max);
      if hit1 {
        InflatedStops(p, p1, DescPages(ds[k], 0), ChainPages(ds, k + 1), max);
      } else {
        var t := (total + ds[k].len) % U32;
        InflateChainGrows(p1, ds, k + 1, t, max);
        var (q, _, hit) := InflateChain(p1, ds, k + 1, t, max);
        InflatedThen(p, p1, q, DescPages(ds[k], 0), ChainPages(ds, k + 1), hit, max);
      }
    }
  }

  /** The elements of a batch are the chains popped, in order. */
  ghost predicate HeadsFollow(avail: seq<Chain>, n: nat, m: nat, used: seq<UsedElem>, used': seq<UsedElem>) {
    && n <= m <= |avail|
    && |used'| == |used| + (m - n)
    && used <= used'
    && (forall i :: n <= i < m ==> used'[|used| + i - n].head == avail[i].head)
  }

  lemma {:induction false} InflateQueueHeads(p: Pages, avail: seq<Chain>, n: nat, used: seq<UsedElem>, max: nat)
    requires n <= |avail|
    ensures var (q, m, used') := InflateQueue(p, avail, n, used, max);
            HeadsFollow(avail, n, m, used, used') && (n < |avail| ==> n < m)
    decreases |avail| - n
  {
    hide InflateChain;
    if n < |avail| {
      var (p1, total, hit) := InflateChain(p, Descs(avail[n]), 0, 0, max);
      var used1 := used + [UsedElem(avail[n].head, total)];
      if !hit {
        InflateQueueHeads(p1, avail, n + 1, used1, max);
        assert InflateQueue(p1, avail, n + 1, used1, max).2[|used|] == used1[|used|];
      }
    }
  }

  lemma {:induction false} InflateQueuePages(p: Pages, avail: seq<Chain>, n: nat, used: seq<UsedElem>, max: nat)
    requires n <= |avail|
    ensures var (q, m, used') := InflateQueue(p, avail, n, used, max);
            && n <= m <= |avail|
            && exists hit :: Inflated(p, q, QueuePages(avail, n, m), hit, max) && (!hit ==> m == |avail|)
    decreases |avail| - n
  {
    hide Inflated, InflateChain, ChainPages;
    if n == |avail| {
      InflatedNothing(p, max);
      assert Inflated(p, p, QueuePages(avail, n, n), false, max);
    } else {
      var ds := Descs(avail[n]);
      var (p1, total, hit) := InflateChain(p, ds, 0, 0, max);
      InflateChainGrows(p, ds, 0, 0, max);
      var used1 := used + [UsedElem(avail[n].head, total)];
      if hit {
        assert QueuePages(avail, n, n + 1) == ChainPages(ds, 0) + QueuePages(avail, n + 1, n + 1) == ChainPages(ds, 0);
        assert Inflated(p, p1, QueuePages(avail, n, n + 1), true, max);
      } else {
        InflateQueuePages(p1, avail, n + 1, used1, max);
        var (q, m, used') := InflateQueue(p1, avail, n + 1, used1, max);
        var hit' :| Inflated(p1, q, QueuePages(avail, n + 1, m), hit', max) && (!hit' ==> m == |avail|);
        InflatedThen(p, p1, q, ChainPages(ds, 0), QueuePages(avail, n + 1, m), hit', max);
        assert Inflated(p, q, QueuePages(avail, n, m), hit', max);
      }
    }
  }

  /** Inflating a whole queue: pages that entered were named by a chain that was popped, each was
      advised once; unless the cap was reached, every chain is popped and every page is in; and
      each popped chain gives one used element, also the one at which the cap was reached. */
  lemma InflateQueueGrows(p: Pages, avail: seq<Chain>, n: nat, used: seq<UsedElem>, max: nat)
    requires n <= |avail|
    ensures var (q, m, used') := InflateQueue(p, avail, n, used, max);
            && HeadsFollow(avail, n, m, used, used')
            && (n < |avail| ==> n < m)
            && Grew(p, q, QueuePages(avail, n, m))
            && (|p.inside| <= max ==> |q.inside| <= max)
            && (|q.inside| < max ==> m == |avail| && q.inside == p.inside + QueuePages(avail, n, m))
  {
    hide Grew, HeadsFollow, QueuePages, InflateQueue;
    InflateQueueHeads(p, avail, n, used, max);
    InflateQueuePages(p, avail, n, used, max);
  }

  lemma {:induction false} DeflateDescShrinks(p: Pages, d: Desc, i: nat)
    ensures DeflateDesc(p, d, i) == p.(inside := p.inside - DescPages(d, i))
    decreases WordCount(d) - i
  {
    if i < WordCount(d) {
      DeflateDescShrinks(Remove(p, ReadWord(d, i)), d, i + 1);
      assert p.inside - WordPage(ReadWord(d, i)) - DescPages(d, i + 1) == p.inside - DescPages(d, i);
    }
  }

  lemma {:induction false} DeflateChainShrinks(p: Pages, ds: seq<Desc>, k: nat, total: nat)
    requires k <= |ds|
    ensures DeflateChain(p, ds, k, total).0 == p.(inside := p.inside - ChainPages(ds, k))
    decreases |ds| - k
  {
    if k < |ds| {
      DeflateDescShrinks(p, ds[k], 0);
      DeflateChainShrinks(DeflateDesc(p, ds[k], 0), ds, k + 1, (total + ds[k].len) % U32);
      assert p.inside - DescPages(ds[k], 0) - ChainPages(ds, k + 1) == p.inside - ChainPages(ds, k);
    }
  }

  /** Deflating a whole queue takes out exactly the pages named, and pops and returns every chain. */
  lemma {:induction false} DeflateQueueShrinks(p: Pages, avail: seq<Chain>, n: nat, used: seq<UsedElem>)
    requires n <= |avail|
    ensures var (q, m, used') := DeflateQueue(p, avail, n, used);
            && m == |avail| && HeadsFollow(avail, n, m, used, used')
            && q == p.(inside := p.inside - QueuePages(avail, n, |avail|))
    decreases |avail| - n
  {
    hide DeflateChain, ChainPages;
    if n < |avail| {
      var ds := Descs(avail[n]);
      DeflateChainShrinks(p, ds, 0, 0);
      var (p1, total) := DeflateChain(p, ds, 0, 0);
      var used1 := used + [UsedElem(avail[n].head, total)];
      DeflateQueueShrinks(p1, avail, n + 1, used1);
      assert p.inside - ChainPages(ds, 0) - QueuePages(avail, n + 1, |avail|) ==
             p.inside - QueuePages(avail, n, |avail|);
      assert DeflateQueue(p1, avail, n + 1, used1).2[|used|] == used1[|used|];
    }
  }

  // ---------------------------------------------------------------------------------------
  // Runs
  // ---------------------------------------------------------------------------------------

  datatype Event =
    | OfferInflate(chain: Chain)
    | OfferDeflate(chain: Chain)
    | Enable(inflate: bool, deflate: bool)
    | KickInflate
    | KickDeflate

  function ChainHeads(cs: seq<Chain>): seq<nat> {
    seq(|cs|, i requires 0 <= i < |cs| => cs[i].head)
  }

  /** Every popped chain is in the used ring, once, in order. */
  ghost predicate QueueOk(q: Queue) {
    q.nextAvail <= |q.avail| && Heads(q.used) == ValidHeads(ChainHeads(q.avail[..q.nextAvail]), QUEUE_MAX)
  }

  ghost predicate Inv(s: State, max: nat) {
    && |s.pages.inside| <= max
    && s.actual == |s.pages.inside| % U32
    && QueueOk(s.inflate) && QueueOk(s.deflate)
  }

  lemma FinishKeepsOrder(q: Queue, m: nat, used: seq<UsedElem>)
    requires QueueOk(q) && HeadsFollow(q.avail, q.nextAvail, m, [], used)
    ensures QueueOk(Finish(q, m, used))
  {
    var popped := ChainHeads(q.avail[..q.nextAvail]);
    ReturnBatch(q.used, popped, used, QUEUE_MAX);
    forall i | q.nextAvail <= i < m
      ensures Heads(used)[i - q.nextAvail] == q.avail[i].head
    {
      assert used[0 + i - q.nextAvail].head == q.avail[i].head;
    }
    assert ChainHeads(q.avail[..m]) == popped + Heads(used);
  }

  function Next(s: State, e: Event, max: nat): State
    requires QueueOk(s.inflate) && QueueOk(s.deflate)
  {
    match e
    case OfferInflate(c) => s.(inflate := s.inflate.(avail := s.inflate.avail + [c]))
    case OfferDeflate(c) => s.(deflate := s.deflate.(avail := s.deflate.avail + [c]))
    case Enable(i, d) => s.(inflate := s.inflate.(ready := i), deflate := s.deflate.(ready := d))
    case KickInflate => ProcessInflate(s, max)
    case KickDeflate => ProcessDeflate(s)
  }

  lemma OfferKeepsOrder(q: Queue, c: Chain)
    requires QueueOk(q)
    ensures QueueOk(q.(avail := q.avail + [c]))
  {
    assert (q.avail + [c])[..q.nextAvail] == q.avail[..q.nextAvail];
  }

  lemma NextInv(s: State, e: Event, max: nat)
    requires Inv(s, max)
    ensures Inv(Next(s, e, max), max)
  {
    match e
    case OfferInflate(c) => OfferKeepsOrder(s.inflate, c);
    case OfferDeflate(c) => OfferKeepsOrder(s.deflate, c);
    case Enable(_, _) =>
    case KickInflate =>
      var q := s.inflate;
      if q.ready && q.nextAvail < |q.avail| {
        hide Grew, QueueOk;
        InflateQueueGrows(s.pages, q.avail, q.nextAvail, [], max);
        var (p, m, used) := InflateQueue(s.pages, q.avail, q.nextAvail, [], max);
        FinishKeepsOrder(q, m, used);
      }
    case KickDeflate =>
      var q := s.deflate;
      if q.ready && q.nextAvail < |q.avail| {
        hide QueueOk;
        DeflateQueueShrinks(s.pages, q.avail, q.nextAvail, []);
        var (p, m, used) := DeflateQueue(s.pages, q.avail, q.nextAvail, []);
        FinishKeepsOrder(q, m, used);
        SubsetSize(p.inside, s.pages.inside);
      }
  }

  lemma {:induction false} SubsetSize(a: set<nat>, b: set<nat>)
    requires a <= b
    ensures |a| <= |b|
    decreases |a|
  {
    if a != {} {
      var x :| x in a;
      SubsetSize(a - {x}, b - {x});
    }
  }

  ghost function Run(s: State, es: seq<Event>, max: nat): State
    requires Inv(s, max)
    decreases |es|
  {
    if es == [] then s
    else
      NextInv(s, es[0], max);
      Run(Next(s, es[0], max), es[1..], max)
  }

  function Init(): State {
    State(Pages({}, []), 0, false, Queue(false, [], 0, []), Queue(false, [], 0, []))
  }

  lemma {:induction false} RunInv(s: State, es: seq<Event>, max: nat)
    requires Inv(s, max)
    ensures Inv(Run(s, es, max), max)
    decreases |es|
  {
    if es != [] {
      NextInv(s, es[0], max);
      RunInv(Next(s, es[0], max), es[1..], max);
    }
  }

  /** For every guest: the balloon never holds more pages than the guest has memory, or than 1 GiB if its
      memory is not known; the count it reports is the size of the set (for memory below 2^44 bytes), and on both
      queues the used ring
      lists the popped chains, each once and in order. */
  lemma BalloonBounded(ramMb: nat, es: seq<Event>)
    requires ramMb < 0x100_0000
    ensures Inv(Init(), MaxPages(ramMb))
    ensures var s := Run(Init(), es, MaxPages(ramMb)); var mib := if ramMb == 0 then 1024 else ramMb;
            && |s.pages.inside| * 4096 <= MaxPages(ramMb) * 4096 == mib * 1024 * 1024
            && s.actual == |s.pages.inside|
            && QueueOk(s.inflate) && QueueOk(s.deflate)
  {
    RunInv(Init(), es, MaxPages(ramMb));
  }

  // ---------------------------------------------------------------------------------------
  // What the driver gets back
  // ---------------------------------------------------------------------------------------

  /** The bytes of the descriptors from k on. */
  function Length(ds: seq<Desc>, k: nat): nat
    requires k <= |ds|
    decreases |ds| - k
  {
    if k == |ds| then 0 else ds[k].len + Length(ds, k + 1)
  }

  /** 32-bit sums add up. */
  lemma SumsAdd(t: nat, a: nat, b: nat)
    ensures ((t + a) % 0x1_0000_0000 + b) % 0x1_0000_0000 == (t + (a + b)) % 0x1_0000_0000
  {
    var m := 0x1_0000_0000;
    var x := t + a;
    assert x == m * (x / m) + x % m;
    ModPeriod(m, x / m, x % m + b);
  }

  lemma {:induction false} InflateLength(p: Pages, ds: seq<Desc>, k: nat, total: nat, max: nat)
    requires k <= |ds| && total < 0x1_0000_0000
    ensures var (q, t, hit) := InflateChain(p, ds, k, total, max);
            !hit ==> t == (total + Length(ds, k)) % 0x1_0000_0000
    decreases |ds| - k
  {
    hide InflateDesc;
    if k < |ds| {
      SumsAdd(total, ds[k].len, Length(ds, k + 1));
      InflateLength(InflateDesc(p, ds[k], 0, max).0, ds, k + 1, (total + ds[k].len) % U32, max);
    }
  }

  lemma {:induction false} DeflateLength(p: Pages, ds: seq<Desc>, k: nat, total: nat)
    requires k <= |ds| && total < 0x1_0000_0000
    ensures DeflateChain(p, ds, k, total).1 == (total + Length(ds, k)) % 0x1_0000_0000
    decreases |ds| - k
  {
    hide DeflateDesc;
    if k < |ds| {
      SumsAdd(total, ds[k].len, Length(ds, k + 1));
      DeflateLength(DeflateDesc(p, ds[k], 0), ds, k + 1, (total + ds[k].len) % U32);
    }
  }

  /** The element a chain gives if all its descriptors were read. */
  function WholeElem(c: Chain): UsedElem {
    UsedElem(c.head, (if c.head < 256 then Length(c.descs, 0) else 0) % 0x1_0000_0000)
  }

  /** Each popped chain is reported with the bytes of its descriptors, in 32 bits; only for the chain
      at which the cap was reached it may be less. */
  lemma {:induction false} InflateReports(p: Pages, avail: seq<Chain>, n: nat, used: seq<UsedElem>, max: nat)
    requires n <= |avail|
    ensures var (q, m, used') := InflateQueue(p, avail, n, used, max);
            && HeadsFollow(avail, n, m, used, used')
            && (forall i :: n <= i < m && (i + 1 < m || |q.inside| < max) ==>
               used'[|used| + i - n] == WholeElem(avail[i]))
    decreases |avail| - n
  {
    hide InflateChain, Length, Inflated, Grew, ChainPages;
    InflateQueueHeads(p, avail, n, used, max);
    if n < |avail| {
      var ds := Descs(avail[n]);
      InflateLength(p, ds, 0, 0, max);
      InflateChainGrows(p, ds, 0, 0, max);
      var (p1, total, hit) := InflateChain(p, ds, 0, 0, max);
      var e := UsedElem(avail[n].head, total);
      assert !hit ==> e == WholeElem(avail[n]) by { NoDescs(); }
      if hit {
        assert |p1.inside| >= max by { HitMeansFull(p, p1, ChainPages(ds, 0), max); }
      } else {
        InflateReports(p1, avail, n + 1, used + [e], max);
        assert InflateQueue(p1, avail, n + 1, used + [e], max).2[|used|] == (used + [e])[|used|];
      }
    }
  }

  lemma NoDescs()
    ensures Length([], 0) == 0
  {
  }

  lemma HitMeansFull(p: Pages, q: Pages, named: set<nat>, max: nat)
    requires Inflated(p, q, named, true, max)
    ensures |q.inside| >= max
  {
  }

  lemma {:induction false} DeflateReports(p: Pages, avail: seq<Chain>, n: nat, used: seq<UsedElem>)
    requires n <= |avail|
    ensures var (q, m, used') := DeflateQueue(p, avail, n, used);
            && m == |avail| && HeadsFollow(avail, n, m, used, used')
            && (forall i :: n <= i < m ==> used'[|used| + i - n] == WholeElem(avail[i]))
    decreases |avail| - n
  {
    hide DeflateChain, Length;
    if n < |avail| {
      var ds := Descs(avail[n]);
      DeflateLength(p, ds, 0, 0);
      var (p1, total) := DeflateChain(p, ds, 0, 0);
      var e := UsedElem(avail[n].head, total);
      assert e == WholeElem(avail[n]) by { NoDescs(); }
      DeflateReports(p1, avail, n + 1, used + [e]);
      assert DeflateQueue(p1, avail, n + 1, used + [e]).2[|used|] == (used + [e])[|used|];
    }
  }

  /** A kick on a ready queue with chains reports the pages held and raises the interrupt. */
  lemma KicksReport(s: State, max: nat)
    requires Inv(s, max)
    ensures s.inflate.ready && s.inflate.nextAvail < |s.inflate.avail| ==>
              var t := ProcessInflate(s, max); t.isr && t.actual == |t.pages.inside| % 0x1_0000_0000 && t.inflate.nextAvail > s.inflate.nextAvail
    ensures s.deflate.ready && s.deflate.nextAvail < |s.deflate.avail| ==>
              var t := ProcessDeflate(s); t.isr && t.actual == |t.pages.inside| % 0x1_0000_0000 && t.deflate.nextAvail == |t.deflate.avail|
  {
    hide InflateQueue, DeflateQueue, Accepted, QueuePages;
    InflateQueueHeads(s.pages, s.inflate.avail, s.inflate.nextAvail, [], max);
    DeflateQueueShrinks(s.pages, s.deflate.avail, s.deflate.nextAvail, []);
  }

  /** A batch that stays below the cap leaves nothing behind, so inflating and then deflating the
      same chains is the identity on a balloon that held none of their pages. */
  lemma DeflateUndoesInflate(p: Pages, avail: seq<Chain>, max: nat)
    requires |p.inside| <= max && p.inside !! QueuePages(avail, 0, |avail|)
    requires |InflateQueue(p, avail, 0, [], max).0.inside| < max
    ensures DeflateQueue(InflateQueue(p, avail, 0, [], max).0, avail, 0, []).0.inside == p.inside
  {
    InflateQueueGrows(p, avail, 0, [], max);
    DeflateQueueShrinks(InflateQueue(p, avail, 0, [], max).0, avail, 0, []);
  }
}
