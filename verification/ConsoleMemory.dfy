/**
 What the guest finds in its memory: each message stands in the buffer that was taken for it, and the
 used ring tells how much of it.
 */
module ConsoleMemory {
  import opened Wrappers
  import opened Virtio
  import opened Console
  import opened ConsoleRuns

  /** The longest beginning of a message that fits into len bytes. */
  predicate FitsBest(m: Data, data: Data, len: nat) {
    m <= data && |m| <= len && (|m| < |data| ==> |m| == len)
  }

  /** What one injection does to guest memory: the buffer of the descriptor in the slot of the cursor
      gets what fits of the message, its used element says how much, and nothing else changes. */
  lemma InjectWrites(s: State, data: Data)
    requires WellFormed(s.r) && Inject(s, data).1
    ensures var t := Inject(s, data).0; var desc := s.r.availRing[s.d.lastAvail % s.r.size];
            && desc in s.r.table && s.r.table[desc].writable && t.d.isr
            && t.r.usedIdx == (s.r.usedIdx + 1) % 0x1_0000 && t.d.lastAvail == (s.d.lastAvail + 1) % 0x1_0000
            && t.r.availRing == s.r.availRing && t.r.availIdx == s.r.availIdx && t.r.table == s.r.table
    ensures var t := Inject(s, data).0; var desc := s.r.availRing[s.d.lastAvail % s.r.size]; var b := s.r.table[desc];
            && b.gpa in t.r.bytes && FitsBest(t.r.bytes[b.gpa], data, b.len)
            && t.r.bytes - {b.gpa} == s.r.bytes - {b.gpa}
            && t.r.usedRing == s.r.usedRing[s.r.usedIdx % s.r.size := UsedElem(desc, |t.r.bytes[b.gpa]|)]
            && t.h.log == s.h.log + [Injection(desc, b, s.r.usedIdx % s.r.size, data)]
  {
    var t, desc := Inject(s, data).0, s.r.availRing[s.d.lastAvail % s.r.size];
    var b := s.r.table[desc];
    assert t.r.bytes[b.gpa] == data[..|t.r.bytes[b.gpa]|];
    assert t.r.bytes - {b.gpa} == s.r.bytes - {b.gpa};
  }

  /** When an injection succeeds. */
  predicate CanInject(s: State)
    requires WellFormed(s.r)
  {
    var desc := s.r.availRing[s.d.lastAvail % s.r.size];
    s.d.mapped && s.r.availIdx != s.d.lastAvail && desc in s.r.table && s.r.table[desc].writable
  }

  /** A message that can be injected is, and one that waits is at the next poll; otherwise it waits. */
  lemma DeliveredOrWaiting(s: State, data: Data)
    requires WellFormed(s.r)
    ensures var t := TryInject(s, data);
            if s.d.ready && CanInject(s) then t == Inject(s.(h := s.h.(sent := s.h.sent + multiset{data})), data).0
              && |t.h.log| == |s.h.log| + 1
            else t.d.pending == Some(data) && t.r == s.r && t.h.log == s.h.log
    ensures var t := PollPending(s);
            if s.d.ready && s.d.pending.Some? && CanInject(s) then
              && t.d.pending.None? && |t.h.log| == |s.h.log| + 1 && t.h.log[|s.h.log|].data == s.d.pending.value
            else t == s
  {
  }

  // ---------------------------------------------------------------------------------------
  // Runs
  // ---------------------------------------------------------------------------------------

  /** No later injection took a buffer at the same address. */
  ghost predicate LastAt(log: seq<Injection>, k: nat)
    requires k < |log|
  {
    forall j :: k < j < |log| ==> log[j].buffer.gpa != log[k].buffer.gpa
  }

  /** Each message stands in its buffer until the buffer's address is used again, and its used element
      tells the length until its slot is. */
  ghost predicate MemoryOk(r: Ring, log: seq<Injection>)
    requires WellFormed(r)
  {
    forall k :: 0 <= k < |log| ==>
      && log[k].slot == k % r.size
      && (LastAt(log, k) ==>
            log[k].buffer.gpa in r.bytes && FitsBest(r.bytes[log[k].buffer.gpa], log[k].data, log[k].buffer.len))
      && (|log| <= k + r.size ==>
            exists m :: FitsBest(m, log[k].data, log[k].buffer.len)
              && r.usedRing[k % r.size] == UsedElem(log[k].desc, |m|))
  }

  lemma InjectKeepsMemory(s: State, data: Data)
    requires Inv(s) && MemoryOk(s.r, s.h.log)
    ensures var t := Inject(s, data).0; WellFormed(t.r) && MemoryOk(t.r, t.h.log)
  {
    hide CursorsOk, AvailOk, LogOk, FitsBest, LastAt, Inject;
    StaysSame(s, data);
    if Inject(s, data).1 {
      InjectWrites(s, data);
      ReadsNextOffer(s);
      var t := Inject(s, data).0;
      var n := |s.h.log|;
      forall k | 0 <= k < n + 1
        ensures t.h.log[k].slot == k % t.r.size
        ensures LastAt(t.h.log, k) ==>
                  t.h.log[k].buffer.gpa in t.r.bytes
                    && FitsBest(t.r.bytes[t.h.log[k].buffer.gpa], t.h.log[k].data, t.h.log[k].buffer.len)
        ensures n + 1 <= k + t.r.size ==>
                  exists m :: FitsBest(m, t.h.log[k].data, t.h.log[k].buffer.len)
                    && t.r.usedRing[k % t.r.size] == UsedElem(t.h.log[k].desc, |m|)
      {
        if k < n {
          OlderEntry(s.h.log, t.h.log[n], k);
          KeepsBytes(s.r.bytes, t.r.bytes, t.h.log[n].buffer.gpa, t.h.log[k].buffer.gpa);
          if n + 1 <= k + t.r.size {
            SlotsDiffer(s.r.size, k, n);
          }
        }
      }
    }
  }

  lemma OlderEntry(log: seq<Injection>, i: Injection, k: nat)
    requires k < |log|
    ensures LastAt(log + [i], k) ==> LastAt(log, k) && i.buffer.gpa != log[k].buffer.gpa
  {
    if LastAt(log + [i], k) {
      assert (log + [i])[|log|] == i;
      assert forall j :: k < j < |log| ==> (log + [i])[j] == log[j];
    }
  }

  lemma KeepsBytes(a: map<nat, Data>, b: map<nat, Data>, x: nat, y: nat)
    requires a - {x} == b - {x}
    ensures x != y && y in a ==> y in b && b[y] == a[y]
  {
    if x != y && y in a {
      assert y in a - {x} && (a - {x})[y] == a[y];
    }
  }

  lemma StaysSame(s: State, data: Data)
    requires WellFormed(s.r)
    ensures var (t, ok) := Inject(s, data); WellFormed(t.r) && t.r.size == s.r.size && (!ok ==> t == s)
  {
  }

  lemma NextKeepsMemory(s: State, e: Event)
    requires Inv(s) && Allowed(s, e) && MemoryOk(s.r, s.h.log)
    ensures WellFormed(Next(s, e).r) && MemoryOk(Next(s, e).r, Next(s, e).h.log)
  {
    hide Inject, FitsBest, LastAt, AvailOk, LogOk, GoodSize;
    match e
    case Send(data) => InjectKeepsMemory(s.(h := s.h.(sent := s.h.sent + multiset{data})), data);
    case Poll =>
      if s.d.pending.Some? {
        InjectKeepsMemory(s.(d := s.d.(pending := None)), s.d.pending.value);
      }
    case _ =>
  }

  /** In every run of a driver that keeps to its ring. */
  lemma {:induction false} MessagesStandInMemory(s: State, es: seq<Event>)
    requires Inv(s) && Disciplined(s, es) && MemoryOk(s.r, s.h.log)
    ensures WellFormed(Run(s, es).r) && MemoryOk(Run(s, es).r, Run(s, es).h.log)
    decreases |es|
  {
    hide Inv, Next, MemoryOk, Allowed;
    InvWellFormed(s);
    if es != [] {
      NextKeepsMemory(s, es[0]);
      NextInv(s, es[0]);
      MessagesStandInMemory(Next(s, es[0]), es[1..]);
    }
  }

  /** From a fresh device. */
  lemma FreshMemory(s: State, n: nat, es: seq<Event>)
    requires Fresh(s, n) && GoodSize(n) && Disciplined(s, es)
    ensures WellFormed(Run(s, es).r) && MemoryOk(Run(s, es).r, Run(s, es).h.log)
  {
    MessagesStandInMemory(s, es);
  }
}
