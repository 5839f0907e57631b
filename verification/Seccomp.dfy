/**
 The seccomp filter: a whitelist of system calls is compiled to classic BPF, with jumps whose
 distance is a byte, and the program is run by an interpreter of the three instructions it uses.
 */
module Seccomp {
  import opened Wrappers

  const RET_ALLOW: nat := 0x7FFF_0000
  const RET_KILL_PROCESS: nat := 0x8000_0000

  const BPF_LD_W_ABS: nat := 0x20
  const BPF_JMP_JEQ_K: nat := 0x15
  const BPF_RET_K: nat := 0x06

  newtype u8 = x: int | 0 <= x < 256

  datatype Insn = Insn(code: nat, jt: u8, jf: u8, k: nat)

  /** `x as u8` and the wrapping sum of a release build. */
  function Truncate(x: nat): u8 {
    (x % 256) as u8
  }

  /** The jump distance the loop computes when n - i - 1 comparisons follow. */
  function Distance(following: nat): u8 {
    Truncate(Truncate(following) as nat + 1)
  }

  // ---------------------------------------------------------------------------------------
  // The interpreter
  // ---------------------------------------------------------------------------------------

  /** The numbers of the three instructions: load a word from an absolute offset, compare and jump, return.
      Runs prog from pc with accumulator acc on the data word nr (`seccomp_data.nr`); None when
      control leaves the program or meets an unknown instruction. Jumps are forward, so the
      run ends. */
  function Exec(prog: seq<Insn>, pc: nat, acc: nat, nr: nat): Option<nat>
    decreases if pc <= |prog| then |prog| - pc else 0
  {
    if pc >= |prog| then None
    else
      var i := prog[pc];
      if i.code == 0x20 && i.k == 0 then Exec(prog, pc + 1, nr, nr)
      else if i.code == 0x15 then
        Exec(prog, pc + 1 + (if acc == i.k then i.jt as nat else i.jf as nat), acc, nr)
      else if i.code == 0x06 then Some(i.k)
      else None
  }

  // ---------------------------------------------------------------------------------------
  // The generator
  // ---------------------------------------------------------------------------------------

  function Load(): Insn { Insn(BPF_LD_W_ABS, 0, 0, 0) }

  function Ret(k: nat): Insn { Insn(BPF_RET_K, 0, 0, k) }

  function Compare(allowed: seq<nat>, i: nat): Insn
    requires i < |allowed|
  {
    Insn(BPF_JMP_JEQ_K, Distance(|allowed| - i - 1), 0, allowed[i])
  }

  function Program(allowed: seq<nat>): seq<Insn> {
    [Load()] + seq(|allowed|, i requires 0 <= i < |allowed| => Compare(allowed, i)) +
    [Ret(RET_KILL_PROCESS), Ret(RET_ALLOW)]
  }

  method BuildFilter(allowed: seq<nat>) returns (prog: seq<Insn>)
    ensures prog == Program(allowed)
  {
    var n := |allowed|;
    prog := [Load()];
    for i := 0 to n
      invariant prog == [Load()] + seq(i, j requires 0 <= j < i => Compare(allowed, j))
    {
      var remaining := Truncate(n - i - 1);
      prog := prog + [Insn(BPF_JMP_JEQ_K, Truncate(remaining as nat + 1), 0, allowed[i])];
    }
    prog := prog + [Ret(RET_KILL_PROCESS)];
    prog := prog + [Ret(RET_ALLOW)];
  }

  // ---------------------------------------------------------------------------------------
  // Correctness
  // ---------------------------------------------------------------------------------------

  /** What the filter is for. */
  function Verdict(allowed: seq<nat>, nr: nat): nat {
    if nr in allowed then 0x7FFF_0000 else 0x8000_0000
  }

  lemma ProgramAt(allowed: seq<nat>)
    ensures var p := Program(allowed); var n := |allowed|;
            && |p| == n + 3 && p[0] == Load()
            && (forall i :: 0 <= i < n ==> p[i + 1] == Compare(allowed, i))
            && p[n + 1] == Ret(RET_KILL_PROCESS) && p[n + 2] == Ret(RET_ALLOW)
  {
  }

  /** Every comparison that succeeds jumps to the final RET ALLOW; this is so exactly when there
      are at most 255 of them. */
  lemma JumpsLandOnAllow(allowed: seq<nat>)
    ensures (forall i :: 0 <= i < |allowed| ==> i + 2 + Compare(allowed, i).jt as nat == |allowed| + 2)
            <==> |allowed| <= 255
  {
    if |allowed| > 255 {
      var i := |allowed| - 256;
      assert Compare(allowed, i).jt == 0;
    }
  }

  /** From comparison i on, the program decides by the rest of the list. */
  lemma {:induction false} ExecFrom(allowed: seq<nat>, i: nat, nr: nat)
    requires |allowed| <= 255 && i <= |allowed|
    ensures Exec(Program(allowed), i + 1, nr, nr) == Some(Verdict(allowed[i..], nr))
    decreases |allowed| - i
  {
    ProgramAt(allowed);
    var p := Program(allowed);
    if i < |allowed| {
      assert p[i + 1] == Compare(allowed, i);
      assert allowed[i..] == [allowed[i]] + allowed[i + 1..];
      if allowed[i] == nr {
        JumpsLandOnAllow(allowed);
        assert Exec(p, |allowed| + 2, nr, nr) == Some(RET_ALLOW);
      } else {
        ExecFrom(allowed, i + 1, nr);
      }
    }
  }

  /** For every whitelist of at most 255 system calls and every number, the filter terminates
      and allows exactly the numbers in the list. */
  lemma FilterDecides(allowed: seq<nat>, nr: nat)
    requires |allowed| <= 255
    ensures Exec(Program(allowed), 0, 0, nr) == Some(Verdict(allowed, nr))
  {
    ProgramAt(allowed);
    ExecFrom(allowed, 0, nr);
    assert allowed[0..] == allowed;
  }

  ghost predicate Correct(allowed: seq<nat>) {
    forall nr :: Exec(Program(allowed), 0, 0, nr) == Some(Verdict(allowed, nr))
  }

  /** A list in which only the call 256 from the end is number 1. */
  function Witness(n: nat): seq<nat>
    requires n >= 256
  {
    seq(n, i => if i == n - 256 then 1 else 0)
  }

  /** Past 255 the jump of that call has distance 0, so the filter kills a process for a call
      that is on the list. */
  lemma {:induction false} WitnessKills(n: nat, i: nat)
    requires n >= 256 && i <= n
    ensures Exec(Program(Witness(n)), i + 1, 1, 1) == Some(RET_KILL_PROCESS)
    decreases n - i
  {
    var allowed := Witness(n);
    ProgramAt(allowed);
    if i < n {
      assert Program(allowed)[i + 1] == Compare(allowed, i);
      WitnessKills(n, i + 1);
    }
  }

  /** 255 is the exact bound: the generator is right for all lists of length n iff n <= 255. */
  lemma ExactBound(n: nat)
    ensures (forall allowed :: |allowed| == n ==> Correct(allowed)) <==> n <= 255
  {
    if n <= 255 {
      forall allowed, nr | |allowed| == n
        ensures Exec(Program(allowed), 0, 0, nr) == Some(Verdict(allowed, nr))
      {
        FilterDecides(allowed, nr);
      }
    } else {
      var w := Witness(n);
      ProgramAt(w);
      WitnessKills(n, 0);
      assert w[n - 256] == 1;
      assert Exec(Program(w), 0, 0, 1) == Some(RET_KILL_PROCESS) != Some(Verdict(w, 1));
      assert |w| == n && !Correct(w);
    }
  }
}
