/**
 The virtio-balloon device: the guest hands over page frame numbers, which the host collects in
 a set bounded by the guest's own memory.
 */
module Balloon {
  import opened Wrappers
  import opened Virtio

  const FALLBACK_MAX_PAGES: nat := 256 * 1024
  const MAX_BYTES_PER_DESC: nat := 64 * 1024
  const PAGE: nat := 4096

  /** A descriptor's length, and what reading a 32-bit word at offset 4 * i gives. */
  datatype Desc = Desc(len: nat, words: seq<Option<nat>>)

  datatype Chain = Chain(head: nat, descs: seq<Desc>)

  /** A head outside the table yields a chain without descriptors. */
  function Descs(c: Chain): seq<Desc> {
    if c.head < QUEUE_MAX then c.descs else []
  }

  function WordCount(d: Desc): nat {
    (if d.len < MAX_BYTES_PER_DESC then d.len else MAX_BYTES_PER_DESC) / 4
  }

  function ReadWord(d: Desc, i: nat): Option<nat> {
    if i < |d.words| then d.words[i] else None
  }

  /** The pages in the balloon, and the pages `advise_dontneed` was called for, in order. */
  datatype Pages = Pages(inside: set<nat>, advised: seq<nat>)

  function MaxPages(ramMb: nat): nat {
    if ramMb > 0 then ramMb * 256 else FALLBACK_MAX_PAGES
  }

  // ---------------------------------------------------------------------------------------
  // Inflating and deflating, loop by loop
  // ---------------------------------------------------------------------------------------

  function Insert(p: Pages, w: Option<nat>): Pages {
    if w.Some? && w.value * PAGE !in p.inside
    then Pages(p.inside + {w.value * PAGE}, p.advised + [w.value * PAGE])
    else p
  }

  function Remove(p: Pages, w: Option<nat>): Pages {
    if w.Some? then p.(inside := p.inside - {w.value * PAGE}) else p
  }

  /** The words of d from i on; true if the cap stopped it. */
  function InflateDesc(p: Pages, d: Desc, i: nat, max: nat): (Pages, bool)
    decreases WordCount(d) - i
  {
    if i >= WordCount(d) then (p, false)
    else if |p.inside| >= max then (p, true)
    else InflateDesc(Insert(p, ReadWord(d, i)), d, i + 1, max)
  }

  /** The descriptors of one chain from k on, with the length counted so far. */
  function InflateChain(p: Pages, ds: seq<Desc>, k: nat, total: nat, max: nat): (Pages, nat, bool)
    requires k <= |ds|
    decreases |ds| - k
  {
    if k == |ds| then (p, total, false)
    else
      var t := (total + ds[k].len) % U32;
      var (p', hit) := InflateDesc(p, ds[k], 0, max);
      if hit then (p', t, true) else InflateChain(p', ds, k + 1, t, max)
  }

  /** The chains from n on: the pages, the elements for the used ring, the chains popped. */
  function InflateQueue(p: Pages, avail: seq<Chain>, n: nat, used: seq<UsedElem>, max: nat): (Pages, nat, seq<UsedElem>)
    requires n <= |avail|
    decreases |avail| - n
  {
    if n == |avail| then (p, n, used)
    else
      var (p', total, hit) := InflateChain(p, Descs(avail[n]), 0, 0, max);
      var used' := used + [UsedElem(avail[n].head, total)];
      if hit then (p', n + 1, used') else InflateQueue(p', avail, n + 1, used', max)
  }

  function DeflateDesc(p: Pages, d: Desc, i: nat): Pages
    decreases WordCount(d) - i
  {
    if i >= WordCount(d) then p else DeflateDesc(Remove(p, ReadWord(d, i)), d, i + 1)
  }

  function DeflateChain(p: Pages, ds: seq<Desc>, k: nat, total: nat): (Pages, nat)
    requires k <= |ds|
    decreases |ds| - k
  {
    if k == |ds| then (p, total)
    else DeflateChain(DeflateDesc(p, ds[k], 0), ds, k + 1, (total + ds[k].len) % U32)
  }

  function DeflateQueue(p: Pages, avail: seq<Chain>, n: nat, used: seq<UsedElem>): (Pages, nat, seq<UsedElem>)
    requires n <= |avail|
    decreases |avail| - n
  {
    if n == |avail| then (p, n, used)
    else
      var (p', total) := DeflateChain(p, Descs(avail[n]), 0, 0);
      DeflateQueue(p', avail, n + 1, used + [UsedElem(avail[n].head, total)])
  }

  /** A virtqueue: the driver's offers, how many were popped, the used ring. */
  datatype Queue = Queue(ready: bool, avail: seq<Chain>, nextAvail: nat, used: seq<UsedElem>)

  datatype State = State(pages: Pages, actual: nat, isr: bool, inflate: Queue, deflate: Queue)

  function Finish(q: Queue, n: nat, used: seq<UsedElem>): Queue {
    q.(nextAvail := n, used := q.used + Accepted(used, QUEUE_MAX))
  }

  /** `process_inflate` */
  function ProcessInflate(s: State, max: nat): State
    requires s.inflate.nextAvail <= |s.inflate.avail|
  {
    if !s.inflate.ready || s.inflate.nextAvail == |s.inflate.avail| then s
    else
      var (p, n, used) := InflateQueue(s.pages, s.inflate.avail, s.inflate.nextAvail, [], max);
      s.(pages := p, actual := |p.inside| % U32, isr := true, inflate := Finish(s.inflate, n, used))
  }

  /** `process_deflate` */
  function ProcessDeflate(s: State): State
    requires s.deflate.nextAvail <= |s.deflate.avail|
  {
    if !s.deflate.ready || s.deflate.nextAvail == |s.deflate.avail| then s
    else
      var (p, n, used) := DeflateQueue(s.pages, s.deflate.avail, s.deflate.nextAvail, []);
      s.(pages := p, actual := |p.inside| % U32, isr := true, deflate := Finish(s.deflate, n, used))
  }

  // ---------------------------------------------------------------------------------------
  // The device
  // ---------------------------------------------------------------------------------------

  class VirtioBalloonDevice {
    var inflatedGpas: set<nat>
    ghost var advised: seq<nat>     // calls of advise_dontneed
    var actualPages: nat
    var interruptStatus: bool
    var inflateq: Queue
    var deflateq: Queue
    const maxInflatedPages: nat

    ghost function Abs(): State
      reads this
    {
      State(Pages(inflatedGpas, advised), actualPages, interruptStatus, inflateq, deflateq)
    }

    ghost function Held(): Pages
      reads this
    {
      Pages(inflatedGpas, advised)
    }

    constructor (ramMb: nat)
      ensures maxInflatedPages == MaxPages(ramMb)
      ensures Abs() == State(Pages({}, []), 0, false, Queue(false, [], 0, []), Queue(false, [], 0, []))
    {
      maxInflatedPages := if ramMb > 0 then ramMb * 256 else FALLBACK_MAX_PAGES;
      inflatedGpas, advised, actualPages, interruptStatus := {}, [], 0, false;
      inflateq, deflateq := Queue(false, [], 0, []), Queue(false, [], 0, []);
    }

    method ProcessInflateQueue()
      requires inflateq.nextAvail <= |inflateq.avail|
      modifies this
      ensures Abs() == ProcessInflate(old(Abs()), maxInflatedPages)
    {
      if !inflateq.ready {
        return;
      }
      var used: seq<UsedElem> := [];
      var hitCap := false;
      ghost var queue := inflateq;
      ghost var goal := InflateQueue(Held(), queue.avail, queue.nextAvail, [], maxInflatedPages);
      while !hitCap && inflateq.nextAvail < |inflateq.avail|
        invariant inflateq == queue.(nextAvail := inflateq.nextAvail)
        invariant queue.nextAvail <= inflateq.nextAvail <= |queue.avail|
        invariant |used| == inflateq.nextAvail - queue.nextAvail
        invariant |used| == 0 ==> Held() == old(Held()) && !hitCap
        invariant goal == if hitCap then (Held(), inflateq.nextAvail, used)
                          else InflateQueue(Held(), queue.avail, inflateq.nextAvail, used, maxInflatedPages)
        invariant actualPages == old(actualPages) && interruptStatus == old(interruptStatus)
        invariant deflateq == old(deflateq)
        decreases !hitCap, |queue.avail| - inflateq.nextAvail
      {
        var chain := inflateq.avail[inflateq.nextAvail];
        inflateq := inflateq.(nextAvail := inflateq.nextAvail + 1);
        var total;
        total, hitCap := InflateOneChain(Descs(chain));
        used := used + [UsedElem(chain.head, total)];
      }
      if used == [] {
        return;
      }
      actualPages := |inflatedGpas| % U32;
      var ring := AddAllUsed(inflateq.used, used, QUEUE_MAX);
      inflateq := inflateq.(used := ring);
      interruptStatus := true;
    }

    /** The loops over the descriptors of a chain and their words. */
    method InflateOneChain(ds: seq<Desc>) returns (total: nat, hitCap: bool)
      modifies `inflatedGpas, `advised
      ensures (Held(), total, hitCap) == InflateChain(old(Held()), ds, 0, 0, maxInflatedPages)
    {
      total, hitCap := 0, false;
      var k := 0;
      while k < |ds|
        invariant k <= |ds|
        invariant InflateChain(old(Held()), ds, 0, 0, maxInflatedPages) ==
                  InflateChain(Held(), ds, k, total, maxInflatedPages)
      {
        total := (total + ds[k].len) % U32;
        ghost var before := Held();
        var i := 0;
        while i < WordCount(ds[k])
          invariant InflateDesc(before, ds[k], 0, maxInflatedPages) ==
                    InflateDesc(Held(), ds[k], i, maxInflatedPages)
        {
          if |inflatedGpas| >= maxInflatedPages {
            hitCap := true;
            return;
          }
          var word := ReadWord(ds[k], i);
          if word.Some? {
            var gpa := word.value * PAGE;
            if gpa !in inflatedGpas {
              inflatedGpas := inflatedGpas + {gpa};
              advised := advised + [gpa];
            }
          }
          i := i + 1;
        }
        k := k + 1;
      }
    }

    method ProcessDeflateQueue()
      requires deflateq.nextAvail <= |deflateq.avail|
      modifies this
      ensures Abs() == ProcessDeflate(old(Abs()))
    {
      if !deflateq.ready {
        return;
      }
      var used: seq<UsedElem> := [];
      ghost var queue := deflateq;
      ghost var goal := DeflateQueue(Held(), queue.avail, queue.nextAvail, []);
      while deflateq.nextAvail < |deflateq.avail|
        invariant deflateq == queue.(nextAvail := deflateq.nextAvail)
        invariant queue.nextAvail <= deflateq.nextAvail <= |queue.avail|
        invariant |used| == deflateq.nextAvail - queue.nextAvail
        invariant |used| == 0 ==> Held() == old(Held())
        invariant goal == DeflateQueue(Held(), queue.avail, deflateq.nextAvail, used)
        invariant actualPages == old(actualPages) && interruptStatus == old(interruptStatus)
        invariant inflateq == old(inflateq)
        decreases |queue.avail| - deflateq.nextAvail
      {
        var chain := deflateq.avail[deflateq.nextAvail];
        deflateq := deflateq.(nextAvail := deflateq.nextAvail + 1);
        var total := DeflateOneChain(Descs(chain));
        used := used + [UsedElem(chain.head, total)];
      }
      if used == [] {
        return;
      }
      actualPages := |inflatedGpas| % U32;
      var ring := AddAllUsed(deflateq.used, used, QUEUE_MAX);
      deflateq := deflateq.(used := ring);
      interruptStatus := true;
    }

    method DeflateOneChain(ds: seq<Desc>) returns (total: nat)
      modifies `inflatedGpas
      ensures (Held(), total) == DeflateChain(old(Held()), ds, 0, 0)
    {
      total := 0;
      var k := 0;
      while k < |ds|
        invariant k <= |ds|
        invariant DeflateChain(old(Held()), ds, 0, 0) == DeflateChain(Held(), ds, k, total)
      {
        total := (total + ds[k].len) % U32;
        ghost var before := Held();
        var i := 0;
        while i < WordCount(ds[k])
          invariant DeflateDesc(before, ds[k], 0) == DeflateDesc(Held(), ds[k], i)
        {
          var word := ReadWord(ds[k], i);
          if word.Some? {
            inflatedGpas := inflatedGpas - {word.value * PAGE};
          }
          i := i + 1;
        }
        k := k + 1;
      }
    }
  }
}
