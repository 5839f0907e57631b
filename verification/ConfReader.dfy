/**
 What the reader of odoo.conf finds: the first value that a line of the section gives to the key.
 */
module ConfReader {
  import opened Wrappers
  import opened Text
  import opened Conf

  /** A comment: its first character that is no white space is # or ;. */
  ghost predicate Skipped(l: string) {
    exists n :: 0 <= n < |l| && (l[n] == '#' || l[n] == ';') && forall i :: 0 <= i < n ==> IsSpace(l[i])
  }

  /** A section line: an opening bracket first, and a closing one behind it. */
  ghost predicate Opens(l: string) {
    exists n, m :: 0 <= n < m < |l| && l[n] == '[' && l[m] == ']' && forall i :: 0 <= i < n ==> IsSpace(l[i])
  }

  /** The line of this section: its name in brackets, with white space around. */
  ghost predicate OpensIt(l: string, section: string) {
    Opens(l) && Trim(l) == "[" + section + "]"
  }

  /** The value of an assignment: the key, perhaps white space, an equals sign, and the text after it. */
  ghost predicate Gives(l: string, key: string, v: string) {
    exists gap, rest ::
      && TrimStart(l) == key + gap + "=" + rest && (forall i :: 0 <= i < |gap| ==> IsSpace(gap[i]))
      && Trim(rest) == v != ""
  }

  /** Line i stands in the section, or in what `inside` says of the start. */
  ghost predicate StandsIn(ls: Lines, i: nat, inside: bool, section: string)
    requires i < |ls|
  {
    && !Skipped(ls[i]) && !Opens(ls[i])
    && ((inside && forall j :: 0 <= j < i ==> !Opens(ls[j]))
        || exists h :: 0 <= h < i && OpensIt(ls[h], section) && forall j :: h < j < i ==> !Opens(ls[j]))
  }

  lemma MarksAreNoSpace()
    ensures !IsSpace('#') && !IsSpace(';') && !IsSpace('[') && !IsSpace('=')
  {
  }

  /** The first character that is no white space. */
  lemma FirstMark(l: string) returns (n: nat)
    ensures n <= |l| && TrimStart(l) == l[n..] && (forall i :: 0 <= i < n ==> IsSpace(l[i]))
            && (n < |l| ==> !IsSpace(l[n]))
  {
    hide IsSpace, TrimStart;
    TrimStartFacts(l);
    n := |l| - |TrimStart(l)|;
  }

  lemma SameMark(l: string, n: nat, m: nat)
    requires n <= |l| && m < |l| && (forall i :: 0 <= i < n ==> IsSpace(l[i])) && (n < |l| ==> !IsSpace(l[n]))
    requires !IsSpace(l[m]) && forall i :: 0 <= i < m ==> IsSpace(l[i])
    ensures n == m
  {
    hide IsSpace;
  }

  lemma CommentIs(l: string)
    ensures IsComment(TrimStart(l)) <==> Skipped(l)
  {
    hide IsSpace, TrimStart;
    MarksAreNoSpace();
    var n := FirstMark(l);
    if Skipped(l) {
      var m :| 0 <= m < |l| && (l[m] == '#' || l[m] == ';') && forall i :: 0 <= i < m ==> IsSpace(l[i]);
      SameMark(l, n, m);
    }
  }

  lemma SectionIs(l: string)
    ensures Conf.IsSection(TrimStart(l)) <==> Opens(l)
    ensures Opens(l) ==> !Skipped(l)
  {
    hide IsSpace, TrimStart;
    MarksAreNoSpace();
    var n := FirstMark(l);
    if Conf.IsSection(TrimStart(l)) {
      BracketBehind(l, n);
    }
    if Opens(l) {
      var a, b :| 0 <= a < b < |l| && l[a] == '[' && l[b] == ']' && forall i :: 0 <= i < a ==> IsSpace(l[i]);
      SameMark(l, n, a);
      assert l[n..][b - n] == ']';
      NotBoth(l, n);
    }
  }

  lemma BracketBehind(l: string, n: nat)
    requires n <= |l| && (forall i :: 0 <= i < n ==> IsSpace(l[i])) && Conf.IsSection(l[n..])
    ensures Opens(l)
  {
    hide IsSpace;
    var k :| 0 <= k < |l| - n && l[n..][k] == ']';
    assert l[n] == l[n..][0] && l[n + k] == l[n..][k];
  }

  lemma NotBoth(l: string, n: nat)
    requires n < |l| && l[n] == '[' && !IsSpace('[') && forall i :: 0 <= i < n ==> IsSpace(l[i])
    ensures !Skipped(l)
  {
    hide IsSpace;
    MarksAreNoSpace();
  }

  lemma GivenIs(t: string, key: string, gap: string, rest: string)
    requires t == key + gap + "=" + rest && (forall i :: 0 <= i < |gap| ==> IsSpace(gap[i]))
    ensures StartsWith(t, key) && TrimStart(t[|key|..]) == "=" + rest
  {
    hide IsSpace, TrimStart;
    MarksAreNoSpace();
    var w := gap + "=" + rest;
    assert t[|key|..] == w && w[|gap|] == '=';
    TrimStartIs(w, |gap|);
    assert w[|gap|..] == "=" + rest;
  }

  lemma GapOf(t: string, key: string) returns (gap: string)
    requires StartsWith(t, key)
    ensures |key| <= |t| && t == key + gap + TrimStart(t[|key|..]) && forall i :: 0 <= i < |gap| ==> IsSpace(gap[i])
  {
    hide IsSpace, TrimStart;
    var w := t[|key|..];
    TrimStartFacts(w);
    gap := w[..|w| - |TrimStart(w)|];
    assert w == gap + TrimStart(w);
  }

  /** The value that a line gives. */
  lemma ValueIs(l: string, key: string, v: string)
    ensures ValueOf(TrimStart(l), key) == Some(v) <==> Gives(l, key, v)
  {
    hide IsSpace, Trim, TrimStart;
    var t := TrimStart(l);
    if ValueOf(t, key) == Some(v) {
      var gap := GapOf(t, key);
      var u := TrimStart(t[|key|..]);
      assert u == "=" + u[1..];
      assert t == key + gap + "=" + u[1..];
    }
    if Gives(l, key, v) {
      var gap, rest :| t == key + gap + "=" + rest && (forall i :: 0 <= i < |gap| ==> IsSpace(gap[i]))
        && Trim(rest) == v != "";
      GivenIs(t, key, gap, rest);
      assert ("=" + rest)[1..] == rest;
    }
  }

  /** The line of the section, as the reader tests it. */
  lemma OpeningIs(l: string, section: string)
    ensures OpensIt(l, section) <==> Conf.IsSection(TrimStart(l)) && TrimEnd(TrimStart(l)) == Header(section)
  {
    hide TrimStart, TrimEnd, Opens;
    SectionIs(l);
  }

  /** What the first line of a file does. */
  lemma StepIs(l: string, inside: bool, section: string, key: string)
    ensures var (next, v) := Step(l, inside, section, key);
            && next == (if Opens(l) then OpensIt(l, section) else inside)
            && (v.Some? ==> inside && !Skipped(l) && !Opens(l) && Gives(l, key, v.value))
            && (inside && !Skipped(l) && !Opens(l) ==> forall w :: Gives(l, key, w) ==> v == Some(w))
  {
    hide TrimStart, TrimEnd, Opens, OpensIt, Skipped, Gives, ValueOf, IsComment, Conf.IsSection;
    CommentIs(l);
    SectionIs(l);
    OpeningIs(l, section);
    forall w
      ensures ValueOf(TrimStart(l), key) == Some(w) <==> Gives(l, key, w)
    {
      ValueIs(l, key, w);
    }
  }

  /** Standing in the section, seen from the next line. */
  lemma StandsShift(ls: Lines, i: nat, inside: bool, section: string)
    requires 0 < i < |ls|
    ensures StandsIn(ls, i, inside, section) <==>
            StandsIn(ls[1..], i - 1, if Opens(ls[0]) then OpensIt(ls[0], section) else inside, section)
  {
    hide Opens, OpensIt, Skipped;
    var rest := ls[1..];
    var next := if Opens(ls[0]) then OpensIt(ls[0], section) else inside;
    assert forall j :: 0 <= j < |rest| ==> rest[j] == ls[j + 1];
    if StandsIn(ls, i, inside, section) {
      if !(inside && forall j :: 0 <= j < i ==> !Opens(ls[j])) {
        var h :| 0 <= h < i && OpensIt(ls[h], section) && forall j :: h < j < i ==> !Opens(ls[j]);
        OpeningOpens(ls[h], section);
        if h > 0 {
          assert OpensIt(rest[h - 1], section) && forall j :: h - 1 < j < i - 1 ==> !Opens(rest[j]);
        }
      }
    }
    if StandsIn(rest, i - 1, next, section) {
      if next && forall j :: 0 <= j < i - 1 ==> !Opens(rest[j]) {
        assert forall j :: 0 < j < i ==> ls[j] == rest[j - 1];
      } else {
        var h :| 0 <= h < i - 1 && OpensIt(rest[h], section) && forall j :: h < j < i - 1 ==> !Opens(rest[j]);
        assert OpensIt(ls[h + 1], section);
        assert forall j :: h + 1 < j < i ==> ls[j] == rest[j - 1];
      }
    }
  }

  lemma OpeningOpens(l: string, section: string)
    requires OpensIt(l, section)
    ensures Opens(l)
  {
  }

  /** Line i stands in the section and gives v to the key. */
  ghost predicate GivesAt(ls: Lines, i: nat, inside: bool, section: string, key: string, v: string) {
    i < |ls| && StandsIn(ls, i, inside, section) && Gives(ls[i], key, v)
  }

  /** No line before i does so, whatever the value. */
  ghost predicate NoneBefore(ls: Lines, i: nat, inside: bool, section: string, key: string) {
    forall j: nat, w :: j < i ==> !GivesAt(ls, j, inside, section, key, w)
  }

  lemma GivesShift(ls: Lines, i: nat, inside: bool, section: string, key: string, v: string)
    requires 0 < i && ls != []
    ensures GivesAt(ls, i, inside, section, key, v) <==>
            GivesAt(ls[1..], i - 1, if Opens(ls[0]) then OpensIt(ls[0], section) else inside, section, key, v)
  {
    hide Opens, OpensIt, Gives, StandsIn;
    if i < |ls| {
      StandsShift(ls, i, inside, section);
    }
  }

  lemma GivesFirst(ls: Lines, inside: bool, section: string, key: string, v: string)
    requires ls != []
    ensures GivesAt(ls, 0, inside, section, key, v) <==>
              inside && !Skipped(ls[0]) && !Opens(ls[0]) && Gives(ls[0], key, v)
  {
    hide Opens, OpensIt, Gives, Skipped;
  }

  lemma {:induction false} ScanFinds(ls: Lines, inside: bool, section: string, key: string)
    ensures match Scan(ls, inside, section, key)
            case Some(v) =>
              exists i: nat :: GivesAt(ls, i, inside, section, key, v) && NoneBefore(ls, i, inside, section, key)
            case None => NoneBefore(ls, |ls|, inside, section, key)
    decreases |ls|
  {
    hide Step, Opens, OpensIt, Gives, Skipped, GivesAt, NoneBefore;
    if ls == [] {
      assert NoneBefore(ls, 0, inside, section, key) by { NothingBefore(ls, inside, section, key); }
    } else {
      var (next, v) := Step(ls[0], inside, section, key);
      StepIs(ls[0], inside, section, key);
      if v.Some? {
        GivesFirst(ls, inside, section, key, v.value);
        NothingBefore(ls, inside, section, key);
      } else {
        ScanFinds(ls[1..], next, section, key);
        forall w
          ensures !GivesAt(ls, 0, inside, section, key, w)
        {
          GivesFirst(ls, inside, section, key, w);
        }
        match Scan(ls[1..], next, section, key)
        case Some(u) =>
          var i: nat :| GivesAt(ls[1..], i, next, section, key, u) && NoneBefore(ls[1..], i, next, section, key);
          GivesShift(ls, i + 1, inside, section, key, u);
          NoneShift(ls, i + 1, inside, section, key);
        case None =>
          NoneShift(ls, |ls|, inside, section, key);
      }
    }
  }

  lemma NothingBefore(ls: Lines, inside: bool, section: string, key: string)
    ensures NoneBefore(ls, 0, inside, section, key)
  {
    hide GivesAt;
  }

  lemma NoneShift(ls: Lines, i: nat, inside: bool, section: string, key: string)
    requires 0 < i && ls != [] && forall w :: !GivesAt(ls, 0, inside, section, key, w)
    requires NoneBefore(ls[1..], i - 1, if Opens(ls[0]) then OpensIt(ls[0], section) else inside, section, key)
    ensures NoneBefore(ls, i, inside, section, key)
  {
    hide GivesAt, Opens, OpensIt;
    forall j: nat, w | j < i
      ensures !GivesAt(ls, j, inside, section, key, w)
    {
      if j > 0 { GivesShift(ls, j, inside, section, key, w); }
    }
  }

  /** The reader gives the value of the first line that stands in the section, after its header and before the
      next one, and assigns a value to the key; nothing exactly if there is no such line. */
  lemma ReadFinds(ls: Lines, section: string, key: string)
    ensures match Read(ls, section, key)
            case Some(v) =>
              exists i: nat :: GivesAt(ls, i, false, section, key, v) && NoneBefore(ls, i, false, section, key)
            case None => NoneBefore(ls, |ls|, false, section, key)
  {
    ScanFinds(ls, false, section, key);
  }
}
