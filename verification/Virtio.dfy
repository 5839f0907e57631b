/**
 What the virtqueue devices share: elements of a used ring, remainders, and two counting facts about
 finite sets.
 */
module Virtio {

  /** Largest queue the devices create (`Queue::new(256)`). */
  const QUEUE_MAX: nat := 256

  const U16: nat := 0x1_0000
  const U32: nat := 0x1_0000_0000

  /** One element of the used ring: the head of a returned chain and the bytes written. */
  datatype UsedElem = UsedElem(head: nat, len: nat)

  function Heads(used: seq<UsedElem>): seq<nat> {
    seq(|used|, i requires 0 <= i < |used| => used[i].head)
  }

  predicate NoDuplicates<T(==)>(s: seq<T>) {
    forall i, j :: 0 <= i < j < |s| ==> s[i] != s[j]
  }

  /** A set of naturals below n has at most n members. */
  lemma {:induction false} BoundedSetSize(s: set<nat>, n: nat)
    requires forall x :: x in s ==> x < n
    ensures |s| <= n
  {
    if n == 0 {
      assert s == {};
    } else {
      BoundedSetSize(s - {n - 1}, n - 1);
    }
  }

  /** If f sends the keys of m to pairwise distinct members of t, then m is no larger than t. */
  lemma {:induction false} InjectionSize<A, V>(m: map<A, V>, f: V -> nat, t: set<nat>)
    requires forall a :: a in m ==> f(m[a]) in t
    requires forall a, b :: a in m && b in m && a != b ==> f(m[a]) != f(m[b])
    ensures |m| <= |t|
    decreases |m|
  {
    if m.Keys != {} {
      var a :| a in m;
      var rest := m - {a};
      assert m.Keys == rest.Keys + {a};
      InjectionSize(rest, f, t - {f(m[a])});
    }
  }

  lemma Distribute(n: nat, x: int, y: int)
    ensures n * (x - y) == n * x - n * y
  {
  }

  lemma Between(n: nat, q: int)
    requires n > 0
    ensures !(0 < n * q < n)
  {
    if q >= 1 {
      assert n * q == n + n * (q - 1);
      assert n * (q - 1) >= 0;
    } else {
      assert n * q <= 0;
    }
  }

  lemma ModPeriod(n: nat, q: nat, r: nat)
    requires n > 0
    ensures (n * q + r) % n == r % n
  {
    var x := n * q + r;
    assert x == n * (x / n) + x % n && r == n * (r / n) + r % n;
    assert n * (x / n - (q + r / n)) == r % n - x % n by {
      Distribute(n, x / n, q + r / n);
      assert n * (q + r / n) == n * q + n * (r / n);
    }
    Between(n, x / n - (q + r / n));
    Between(n, (q + r / n) - x / n);
    assert n * ((q + r / n) - x / n) == -(n * (x / n - (q + r / n)));
  }

  // ---------------------------------------------------------------------------------------
  // Returning chains
  // ---------------------------------------------------------------------------------------

  /** The sizes a queue takes: powers of two up to the largest. */
  predicate ValidSize(n: nat) {
    n == 1 || n == 2 || n == 4 || n == 8 || n == 16 || n == 32 || n == 64 || n == 128 || n == QUEUE_MAX
  }

  /** `set_size` with the number the driver wrote; an invalid one leaves the size as it was. */
  function SetSize(size: nat, n: nat): nat {
    if ValidSize(n % U16) then n % U16 else size
  }

  /** `add_used` of each element in turn: one whose head is outside the table is refused. */
  function Accepted(used: seq<UsedElem>, size: nat): seq<UsedElem> {
    if used == [] then []
    else Accepted(used[..|used| - 1], size) +
         (if used[|used| - 1].head < size then [used[|used| - 1]] else [])
  }

  /** The heads that can be returned. */
  function ValidHeads(hs: seq<nat>, size: nat): seq<nat> {
    if hs == [] then []
    else ValidHeads(hs[..|hs| - 1], size) + (if hs[|hs| - 1] < size then [hs[|hs| - 1]] else [])
  }

  method AddAllUsed(ring: seq<UsedElem>, used: seq<UsedElem>, size: nat) returns (r: seq<UsedElem>)
    ensures r == ring + Accepted(used, size)
  {
    r := ring;
    assert used[..0] == [];
    for i := 0 to |used|
      invariant r == ring + Accepted(used[..i], size)
    {
      assert used[..i + 1][..i] == used[..i];
      if used[i].head < size {
        r := r + [used[i]];
      }
    }
    assert used[..|used|] == used;
  }

  lemma HeadsAppend(a: seq<UsedElem>, b: seq<UsedElem>)
    ensures Heads(a + b) == Heads(a) + Heads(b)
  {
  }

  lemma {:induction false} AcceptedHeads(used: seq<UsedElem>, size: nat)
    ensures Heads(Accepted(used, size)) == ValidHeads(Heads(used), size)
    decreases |used|
  {
    if used != [] {
      var init := used[..|used| - 1];
      AcceptedHeads(init, size);
      assert Heads(used)[..|used| - 1] == Heads(init);
      HeadsAppend(Accepted(init, size), [used[|used| - 1]]);
      HeadsAppend(Accepted(init, size), []);
    }
  }

  lemma {:induction false} ValidHeadsAppend(a: seq<nat>, b: seq<nat>, size: nat)
    ensures ValidHeads(a + b, size) == ValidHeads(a, size) + ValidHeads(b, size)
    decreases |b|
  {
    if b == [] {
      assert a + b == a;
    } else {
      var init := b[..|b| - 1];
      ValidHeadsAppend(a, init, size);
      assert (a + b)[..|a + b| - 1] == a + init;
    }
  }

  /** A used ring that lists the popped heads still does when a batch of chains is returned. */
  lemma ReturnBatch(ring: seq<UsedElem>, popped: seq<nat>, used: seq<UsedElem>, size: nat)
    requires Heads(ring) == ValidHeads(popped, size)
    ensures Heads(ring + Accepted(used, size)) == ValidHeads(popped + Heads(used), size)
  {
    HeadsAppend(ring, Accepted(used, size));
    AcceptedHeads(used, size);
    ValidHeadsAppend(popped, Heads(used), size);
  }
}
