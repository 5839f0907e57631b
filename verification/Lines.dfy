/**
 `str::lines`: a text is split after each newline, one carriage return before the newline is
 dropped too, and a last line without newline counts if it is not empty. The functions take the
 newline and the carriage return, so that they serve bytes and characters.
 */
module Lines {

  /** The position of the first x in s, or |s|. */
  function IndexOf<T(==)>(s: seq<T>, x: T): (i: nat)
    ensures i <= |s| && (i < |s| ==> s[i] == x)
    ensures forall j :: 0 <= j < i ==> s[j] != x
  {
    if s == [] || s[0] == x then 0 else IndexOf(s[1..], x) + 1
  }

  /** How often x occurs in s. */
  function Count<T(==)>(s: seq<T>, x: T): (n: nat)
    ensures n <= |s|
  {
    if s == [] then 0 else (if s[0] == x then 1 else 0) + Count(s[1..], x)
  }

  function Chomp<T(==)>(l: seq<T>, cr: T): seq<T> {
    if l != [] && l[|l| - 1] == cr then l[..|l| - 1] else l
  }

  function LinesOf<T(==)>(s: seq<T>, nl: T, cr: T): seq<seq<T>> {
    if s == [] then []
    else
      var i := IndexOf(s, nl);
      if i == |s| then [s] else [Chomp(s[..i], cr)] + LinesOf(s[i + 1..], nl, cr)
  }

  /** The position after the k-th newline. */
  function EndOfLine<T(==)>(s: seq<T>, k: nat, nl: T): (i: nat)
    requires k <= Count(s, nl)
    ensures i <= |s| && (k > 0 ==> i > 0 && s[i - 1] == nl)
    decreases k
  {
    if k == 0 then 0
    else
      CountCut(s, nl);
      var i := IndexOf(s, nl) + 1;
      i + EndOfLine(s[i..], k - 1, nl)
  }

  lemma {:induction false} CountCut<T>(s: seq<T>, nl: T)
    ensures Count(s, nl) == 0 <==> IndexOf(s, nl) == |s|
    ensures Count(s, nl) > 0 ==> Count(s, nl) == 1 + Count(s[IndexOf(s, nl) + 1..], nl)
    decreases |s|
  {
    if s != [] && s[0] != nl {
      CountCut(s[1..], nl);
      var i := IndexOf(s, nl);
      if Count(s, nl) > 0 {
        assert s[1..][i..] == s[i + 1..];
      }
    }
  }

  lemma {:induction false} CountAppend<T>(a: seq<T>, b: seq<T>, nl: T)
    ensures Count(a + b, nl) == Count(a, nl) + Count(b, nl)
    decreases |a|
  {
    if a == [] {
      assert a + b == b;
    } else {
      assert (a + b)[0] == a[0] && (a + b)[1..] == a[1..] + b;
      CountAppend(a[1..], b, nl);
    }
  }

  lemma IndexFound<T>(s: seq<T>, i: nat, x: T)
    requires i < |s| && s[i] == x && forall j :: 0 <= j < i ==> s[j] != x
    ensures IndexOf(s, x) == i
  {
  }

  /** The first line ends at the first newline. */
  lemma LinesStep<T>(s: seq<T>, i: nat, nl: T, cr: T)
    requires i < |s| && s[i] == nl && forall j :: 0 <= j < i ==> s[j] != nl
    ensures LinesOf(s, nl, cr) == [Chomp(s[..i], cr)] + LinesOf(s[i + 1..], nl, cr)
  {
    hide Chomp;
    IndexFound(s, i, nl);
  }

  lemma FirstLineAppend<T>(a: seq<T>, b: seq<T>, i: nat, nl: T, cr: T)
    requires i < |a| && a[i] == nl && forall j :: 0 <= j < i ==> a[j] != nl
    ensures LinesOf(a, nl, cr) == [Chomp(a[..i], cr)] + LinesOf(a[i + 1..], nl, cr)
    ensures LinesOf(a + b, nl, cr) == [Chomp(a[..i], cr)] + LinesOf(a[i + 1..] + b, nl, cr)
  {
    hide LinesOf, Chomp, IndexOf;
    var t := a + b;
    assert forall j :: 0 <= j <= i ==> t[j] == a[j];
    assert t[..i] == a[..i] && t[i + 1..] == a[i + 1..] + b;
    LinesStep(a, i, nl, cr);
    LinesStep(t, i, nl, cr);
  }

  lemma LastNewlineFound<T>(a: seq<T>, nl: T)
    requires a != [] && a[|a| - 1] == nl
    ensures IndexOf(a, nl) < |a|
  {
    hide IndexOf;
  }

  /** Text cut after a newline splits into the lines of its parts. */
  lemma {:induction false} LinesAppend<T>(a: seq<T>, b: seq<T>, nl: T, cr: T)
    requires a == [] || a[|a| - 1] == nl
    ensures LinesOf(a + b, nl, cr) == LinesOf(a, nl, cr) + LinesOf(b, nl, cr)
    decreases |a|
  {
    hide LinesOf, Chomp, IndexOf;
    if a == [] {
      assert a + b == b;
      Empty(nl, cr);
    } else {
      LastNewlineFound(a, nl);
      var i := IndexOf(a, nl);
      FirstLineAppend(a, b, i, nl, cr);
      LinesAppend(a[i + 1..], b, nl, cr);
    }
  }

  /** A text has at least as many lines as newlines, and no more if it ends with one. */
  lemma {:induction false} LineCount<T>(s: seq<T>, nl: T, cr: T)
    ensures Count(s, nl) <= |LinesOf(s, nl, cr)| <= Count(s, nl) + 1
    ensures s == [] || s[|s| - 1] == nl ==> |LinesOf(s, nl, cr)| == Count(s, nl)
    decreases |s|
  {
    hide Chomp, IndexOf, Count;
    Empty(nl, cr);
    CountCut(s, nl);
    var i := IndexOf(s, nl);
    if i < |s| {
      LineCount(s[i + 1..], nl, cr);
    }
  }

  /** The first line of a text with a newline, and the text after it. */
  lemma HeadLine<T>(s: seq<T>, nl: T, cr: T)
    requires Count(s, nl) > 0
    ensures var i := IndexOf(s, nl);
            && i < |s|
            && LinesOf(s[..i + 1], nl, cr) == [Chomp(s[..i], cr)]
            && Count(s[..i + 1], nl) == 1
            && LinesOf(s, nl, cr) == [Chomp(s[..i], cr)] + LinesOf(s[i + 1..], nl, cr)
  {
    hide Chomp, LinesOf, Count;
    CountCut(s, nl);
    var i := IndexOf(s, nl);
    LinesStep(s, i, nl, cr);
    var h := s[..i + 1];
    LinesStep(h, i, nl, cr);
    assert h[..i] == s[..i] && h[i + 1..] == [];
    IndexFound(h, i, nl);
    CountCut(h, nl);
    Empty(nl, cr);
  }

  lemma Empty<T>(nl: T, cr: T)
    ensures Count([], nl) == 0 && LinesOf([], nl, cr) == []
  {
  }

  lemma EndStep<T>(s: seq<T>, k: nat, nl: T)
    requires k <= Count(s, nl)
    ensures k == 0 ==> EndOfLine(s, k, nl) == 0
    ensures k > 0 ==> (CountCut(s, nl); var i := IndexOf(s, nl) + 1;
                       EndOfLine(s, k, nl) == i + EndOfLine(s[i..], k - 1, nl))
  {
  }

  /** The first k complete lines of s are the lines of s up to its k-th newline. */
  lemma {:induction false} FirstLines<T>(s: seq<T>, k: nat, nl: T, cr: T)
    requires k <= Count(s, nl)
    ensures k <= |LinesOf(s, nl, cr)|
    ensures LinesOf(s[..EndOfLine(s, k, nl)], nl, cr) == LinesOf(s, nl, cr)[..k]
    ensures Count(s[..EndOfLine(s, k, nl)], nl) == k
    decreases k
  {
    hide Chomp, LinesOf, Count, IndexOf, EndOfLine;
    EndStep(s, k, nl);
    if k == 0 {
      Empty(nl, cr);
    } else {
      CountCut(s, nl);
      HeadLine(s, nl, cr);
      var i := IndexOf(s, nl) + 1;
      var rest := s[i..];
      FirstLines(rest, k - 1, nl, cr);
      var e := EndOfLine(rest, k - 1, nl);
      assert EndOfLine(s, k, nl) == i + e;
      assert s[..i + e] == s[..i] + rest[..e];
      LinesAppend(s[..i], rest[..e], nl, cr);
      CountAppend(s[..i], rest[..e], nl);
    }
  }

  /** Cutting a text anywhere in front of b affects only the first line of b. */
  lemma LinesTail<T>(a: seq<T>, b: seq<T>, nl: T, cr: T)
    requires Count(b, nl) > 0
    ensures var all, last := LinesOf(a + b, nl, cr), LinesOf(b, nl, cr);
            && 1 <= |last| <= |all|
            && last[1..] == all[|all| - |last| + 1..]
  {
    hide Chomp, LinesOf, Count, IndexOf;
    HeadLine(b, nl, cr);
    var i := IndexOf(b, nl) + 1;
    var front := a + b[..i];
    assert a + b == front + b[i..];
    LinesAppend(front, b[i..], nl, cr);
    assert front[|front| - 1] == nl;
    CountAppend(a, b[..i], nl);
    LineCount(front, nl, cr);
  }

  /** `lines.join("\n") + "\n"` */
  function Joined<T>(ls: seq<seq<T>>, nl: T): seq<T> {
    if |ls| == 0 then [nl] else if |ls| == 1 then ls[0] + [nl] else ls[0] + [nl] + Joined(ls[1..], nl)
  }

  /** Without the carriage return that splitting drops from each line. */
  function Chomps<T(==)>(ls: seq<seq<T>>, cr: T): seq<seq<T>> {
    seq(|ls|, i requires 0 <= i < |ls| => Chomp(ls[i], cr))
  }

  /** Joining lines and splitting the text again gives the lines, but for a carriage return at the end
      of a line: so exactly the lines if none ends in one. */
  lemma {:induction false} LinesOfJoined<T>(ls: seq<seq<T>>, nl: T, cr: T)
    requires ls != [] && forall i :: 0 <= i < |ls| ==> nl !in ls[i]
    ensures LinesOf(Joined(ls, nl), nl, cr) == Chomps(ls, cr)
    ensures LinesOf(Joined(ls, nl), nl, cr) == ls <==> forall i :: 0 <= i < |ls| && ls[i] != [] ==>
            ls[i][|ls[i]| - 1] != cr
    decreases |ls|
  {
    hide LinesOf;
    var t := Joined(ls, nl);
    var n := |ls[0]|;
    assert t[n] == nl && t[..n] == ls[0];
    assert forall j :: 0 <= j < n ==> t[j] == ls[0][j];
    LinesStep(t, n, nl, cr);
    Empty(nl, cr);
    if |ls| == 1 {
      assert t[n + 1..] == [];
    } else {
      assert t[n + 1..] == Joined(ls[1..], nl);
      LinesOfJoined(ls[1..], nl, cr);
    }
    assert LinesOf(t, nl, cr) == Chomps(ls, cr);
    SameExactly(ls, cr);
  }

  lemma SameExactly<T>(ls: seq<seq<T>>, cr: T)
    ensures Chomps(ls, cr) == ls <==> forall i :: 0 <= i < |ls| && ls[i] != [] ==> ls[i][|ls[i]| - 1] != cr
  {
    if Chomps(ls, cr) == ls {
      forall i | 0 <= i < |ls| && ls[i] != []
        ensures ls[i][|ls[i]| - 1] != cr
      {
        assert Chomps(ls, cr)[i] == ls[i];
      }
    }
  }

  /** A line never holds a newline. */
  lemma {:induction false} LinesHoldNone<T>(s: seq<T>, nl: T, cr: T)
    ensures forall i :: 0 <= i < |LinesOf(s, nl, cr)| ==> nl !in LinesOf(s, nl, cr)[i]
    decreases |s|
  {
    if s != [] {
      var i := IndexOf(s, nl);
      if i < |s| {
        LinesHoldNone(s[i + 1..], nl, cr);
      }
    }
  }
}
