/**
 The editor and the reader of odoo.conf fit together: what is upserted reads back, and nothing
 else changes.
 */
module ConfRoundTrip {
  import opened Wrappers
  import opened Text
  import opened Conf

  /** A key as it is written in a file: not empty, no '=', no white space around it, and not the
      start of a comment or a section. */
  predicate GoodKey(k: string) {
    k != "" && !IsSpace(k[0]) && !IsSpace(k[|k| - 1]) && '=' !in k && k[0] != '#' && k[0] != ';' && k[0] != '['
  }

  predicate GoodValue(v: string) {
    v != "" && Trim(v) == v
  }

  // ---------------------------------------------------------------------------------------
  // One line
  // ---------------------------------------------------------------------------------------

  /** The line assigns to the key, whatever the value. */
  predicate Assigns(t: string, key: string) {
    StartsWith(t, key) && var rest := TrimStart(t[|key|..]); rest != "" && rest[0] == '='
  }

  /** A line assigns to one key only: what is before its first '='. */
  lemma AssignsKey(t: string, key: string)
    requires GoodKey(key) && Assigns(t, key)
    ensures TrimEnd(t[..Find(t, '=')]) == key
  {
    hide IsSpace, Find, TrimStart, TrimEnd;
    TrimStartFacts(t[|key|..]);
    var rest := TrimStart(t[|key|..]);
    var i := |t| - |rest|;
    assert t[i] == rest[0] == '=';
    assert !IsSpace('=') && forall j :: |key| <= j < i ==> IsSpace(t[j]) by {
      SpaceFacts();
      assert forall j :: |key| <= j < i ==> t[j] == t[|key|..][j - |key|];
    }
    assert forall j :: 0 <= j < |key| ==> t[j] == key[j];
    assert forall j :: 0 <= j < i ==> t[j] != '=';
    assert Find(t, '=') == i;
    TrimEndIs(t[..i], |key|);
    assert t[..i][..|key|] == key;
  }

  lemma SpaceFacts()
    ensures !IsSpace('=') && !IsSpace('[') && !IsSpace(']') && IsSpace(' ') && !IsSpace('#') && !IsSpace(';')
  {
  }

  lemma OneKey(t: string, k: string, l: string)
    requires GoodKey(k) && GoodKey(l) && Assigns(t, k) && k != l
    ensures !Assigns(t, l) && ValueOf(t, l).None?
  {
    hide IsSpace, TrimStart, TrimEnd;
    AssignsKey(t, k);
    if Assigns(t, l) {
      AssignsKey(t, l);
    }
  }

  lemma MatchAssigns(l: string, key: string)
    requires GoodKey(key) && Matches(l, key)
    ensures var t := TrimStart(l); Assigns(t, key) && !IsComment(t) && !IsSection(t)
  {
    hide IsSpace, TrimStart, TrimEnd;
    var t := TrimStart(l);
    var n := |key|;
    SpaceFacts();
    assert t[..n] == key && t[0] == key[0];
    if StartsWith(t, key + "=") {
      assert t[n] == (key + "=")[n] == '=';
      TrimStartIs(t[n..], 0);
    } else {
      assert t[n] == (key + " =")[n] == ' ' && t[n + 1] == (key + " =")[n + 1] == '=';
      TrimStartIs(t[n..], 1);
    }
  }

  lemma GoodValueEdges(v: string)
    requires GoodValue(v)
    ensures !IsSpace(v[0]) && !IsSpace(v[|v| - 1]) && TrimStart(v) == v && TrimEnd(v) == v
  {
    hide IsSpace, TrimStart, TrimEnd;
    TrimStartFacts(v);
    TrimEndFacts(TrimStart(v));
  }

  /** The line the editor writes: the reader finds the value in it, and the editor finds the line. */
  lemma TargetReads(key: string, value: string)
    requires GoodKey(key) && GoodValue(value)
    ensures var l := Target(key, value);
            && TrimStart(l) == l && Matches(l, key) && ValueOf(l, key) == Some(value)
            && !IsOptions(l) && !EndsRange(l)
  {
    hide IsSpace, TrimStart, TrimEnd;
    var l := Target(key, value);
    var n := |key|;
    GoodValueEdges(value);
    SpaceFacts();
    assert l[0] == key[0];
    TrimStartIs(l, 0);
    var tail := l[n..];
    assert tail == " = " + value && tail[1] == '=';
    TrimStartIs(tail, 1);
    var rest := tail[1..];
    var v := rest[1..];
    assert v == " " + value;
    TrimStartIs(v, 1);
    assert v[1..] == value;
    assert (key + " =") <= l;
    TrimKeepsHead(l);
  }

  lemma TrimKeepsHead(l: string)
    requires l != "" && !IsSpace(l[0])
    ensures Trim(l) != "" && Trim(l)[0] == l[0]
  {
    hide IsSpace, TrimStart, TrimEnd;
    TrimStartIs(l, 0);
    TrimEndFacts(l);
  }

  lemma OptionsLine(l: string)
    requires IsOptions(l)
    ensures var t := TrimStart(l); IsSection(t) && !IsComment(t) && TrimEnd(t) == Header(OPTIONS) && EndsRange(l)
  {
    hide IsSpace, TrimStart, TrimEnd;
    var t := TrimStart(l);
    var r := TrimEnd(t);
    TrimEndFacts(t);
    assert r == "[options]" && Header(OPTIONS) == "[options]";
    assert t[0] == r[0] == '[' && t[8] == r[8] == ']';
  }

  /** Only a line the editor takes for a section can bring the reader into one. */
  lemma EnteringEndsRange(l: string, section: string)
    requires TrimEnd(TrimStart(l)) == Header(section)
    ensures EndsRange(l) && (IsOptions(l) <==> section == OPTIONS)
  {
    hide IsSpace, TrimStart, TrimEnd;
    var r := Header(section);
    assert r[0] == '[' && r[|r| - 1] == ']';
    assert r[1..|r| - 1] == section;
    assert "[options]"[1..8] == OPTIONS;
  }

  // ---------------------------------------------------------------------------------------
  // Scanning parts of a file
  // ---------------------------------------------------------------------------------------

  lemma {:induction false} ScanSplit(a: Lines, b: Lines, inSection: bool, section: string, key: string)
    ensures Scan(a + b, inSection, section, key) ==
            match Scan(a, inSection, section, key)
            case Some(v) => Some(v)
            case None => Scan(b, After(a, inSection, section), section, key)
    decreases |a|
  {
    hide IsComment, IsSection, TrimStart, TrimEnd;
    if a == [] {
      assert a + b == b;
    } else {
      assert (a + b)[0] == a[0] && (a + b)[1..] == a[1..] + b;
      ScanSplit(a[1..], b, Step(a[0], inSection, section, key).0, section, key);
    }
  }

  lemma {:induction false} AfterSplit(a: Lines, b: Lines, inSection: bool, section: string)
    ensures After(a + b, inSection, section) == After(b, After(a, inSection, section), section)
    decreases |a|
  {
    hide Step;
    if a == [] {
      assert a + b == b;
    } else {
      assert (a + b)[0] == a[0] && (a + b)[1..] == a[1..] + b;
      AfterSplit(a[1..], b, Step(a[0], inSection, section, "").0, section);
    }
  }

  lemma ScanOne(l: string, inSection: bool, section: string, key: string)
    ensures Scan([l], inSection, section, key) == Step(l, inSection, section, key).1
    ensures After([l], inSection, section) == Step(l, inSection, section, key).0
  {
    hide IsComment, IsSection, TrimStart, TrimEnd, ValueOf;
  }

  /** A reader outside the section stays outside over lines that do not enter it. */
  lemma {:induction false} StaysOutside(ls: Lines, section: string, key: string)
    requires forall i :: 0 <= i < |ls| ==> TrimEnd(TrimStart(ls[i])) != Header(section)
    ensures Scan(ls, false, section, key).None? && !After(ls, false, section)
    decreases |ls|
  {
    hide IsComment, IsSection, TrimStart, TrimEnd, ValueOf;
    if ls != [] {
      StaysOutside(ls[1..], section, key);
    }
  }

  /** A line of the range that keeps the reader from what comes after it: a bracketed line with
      text after the bracket, or the key spelled in a way the editor does not recognise. */
  predicate Stray(l: string, key: string) {
    var t := TrimStart(l);
    !IsComment(t) && (IsSection(t) || ValueOf(t, key).Some?)
  }

  lemma {:induction false} InsideRange(ls: Lines, key: string)
    requires forall i :: 0 <= i < |ls| ==> !EndsRange(ls[i])
    ensures (forall i :: 0 <= i < |ls| ==> !Stray(ls[i], key)) <==>
            Scan(ls, true, OPTIONS, key).None? && After(ls, true, OPTIONS)
    decreases |ls|
  {
    hide IsComment, IsSection, TrimStart, TrimEnd, ValueOf, EndsRange;
    if ls != [] {
      forall i | 0 <= i < |ls|
        ensures TrimEnd(TrimStart(ls[i])) != Header(OPTIONS)
      {
        if TrimEnd(TrimStart(ls[i])) == Header(OPTIONS) {
          EnteringEndsRange(ls[i], OPTIONS);
        }
      }
      var rest := ls[1..];
      assert forall i :: 0 <= i < |rest| ==> rest[i] == ls[i + 1];
      assert forall i :: 0 < i < |ls| ==> ls[i] == rest[i - 1];
      InsideRange(rest, key);
      StaysOutside(rest, OPTIONS, key);
    }
  }

  // ---------------------------------------------------------------------------------------
  // What is upserted reads back
  // ---------------------------------------------------------------------------------------

  /** No stray line stands between the [options] header and the line the editor replaces. */
  ghost predicate Clean(ls: Lines, key: string) {
    var h := OptionsAt(ls);
    h < |ls| && KeyAt(ls, h, key) < RangeEnd(ls, h) ==>
      forall i :: h < i < KeyAt(ls, h, key) ==> !Stray(ls[i], key)
  }

  /** Up to its first [options] header a file gives the reader nothing. */
  lemma UpToHeader(ls: Lines, h: nat, key: string)
    requires h < |ls| && h == OptionsAt(ls)
    ensures Scan(ls[..h + 1], false, OPTIONS, key).None? && After(ls[..h + 1], false, OPTIONS)
  {
    hide Scan, After, IsSpace, TrimStart, TrimEnd, OptionsAt, ValueOf;
    var before := ls[..h];
    forall i | 0 <= i < |before|
      ensures TrimEnd(TrimStart(before[i])) != Header(OPTIONS)
    {
      if TrimEnd(TrimStart(before[i])) == Header(OPTIONS) {
        EnteringEndsRange(before[i], OPTIONS);
      }
    }
    StaysOutside(before, OPTIONS, key);
    OptionsLine(ls[h]);
    ScanOne(ls[h], false, OPTIONS, key);
    assert ls[..h + 1] == before + [ls[h]];
    ScanSplit(before, [ls[h]], false, OPTIONS, key);
    AfterSplit(before, [ls[h]], false, OPTIONS);
  }

  /** What the reader makes of a file in which the line at i of the range of [options] is replaced. */
  lemma ReadReplaced(ls: Lines, h: nat, i: nat, key: string, value: string)
    requires h == OptionsAt(ls) && h < |ls| && GoodKey(key) && GoodValue(value)
    requires i == KeyAt(ls, h, key) && i < RangeEnd(ls, h)
    ensures var m := ls[h + 1..i];
            Read(ls[i := Target(key, value)], OPTIONS, key) ==
            if Scan(m, true, OPTIONS, key).Some? then Scan(m, true, OPTIONS, key)
            else if After(m, true, OPTIONS) then Some(value)
            else Scan(ls[i + 1..], false, OPTIONS, key)
  {
    hide Scan, After, IsSpace, TrimStart, TrimEnd, OptionsAt, KeyAt, RangeEnd, ValueOf, Target;
    var t := Target(key, value);
    var a, m, b := ls[..h + 1], ls[h + 1..i], ls[i + 1..];
    assert ls[i := t] == a + (m + ([t] + b));
    UpToHeader(ls, h, key);
    ScanSplit(a, m + ([t] + b), false, OPTIONS, key);
    ScanSplit(m, [t] + b, true, OPTIONS, key);
    ScanSplit([t], b, After(m, true, OPTIONS), OPTIONS, key);
    ScanOne(t, After(m, true, OPTIONS), OPTIONS, key);
    TargetReads(key, value);
    MatchAssigns(t, key);
  }

  /** The value after lines that enter [options] and give none. */
  lemma ReadAfter(front: Lines, key: string, value: string, back: Lines)
    requires GoodKey(key) && GoodValue(value)
    requires Scan(front, false, OPTIONS, key).None? && After(front, false, OPTIONS)
    ensures Read(front + ([Target(key, value)] + back), OPTIONS, key) == Some(value)
  {
    hide Scan, After, IsSpace, TrimStart, TrimEnd, ValueOf, Target;
    var t := Target(key, value);
    TargetReads(key, value);
    MatchAssigns(t, key);
    ScanOne(t, true, OPTIONS, key);
    ScanSplit(front, [t] + back, false, OPTIONS, key);
    ScanSplit([t], back, true, OPTIONS, key);
  }

  lemma ReadInserted(ls: Lines, key: string, value: string)
    requires GoodKey(key) && GoodValue(value)
    requires var h := OptionsAt(ls); h < |ls| ==> KeyAt(ls, h, key) == RangeEnd(ls, h)
    ensures Read(Upsert(ls, key, value), OPTIONS, key) == Some(value)
  {
    hide Scan, After, Read, KeyAt, RangeEnd, Target, GoodKey, GoodValue, IsOptions, OptionsAt, WithBlank;
    var h := OptionsAt(ls);
    var t := Target(key, value);
    if h < |ls| {
      UpToHeader(ls, h, key);
      ReadAfter(ls[..h + 1], key, value, ls[h + 1..]);
      assert Upsert(ls, key, value) == ls[..h + 1] + ([t] + ls[h + 1..]);
    } else {
      var front := WithBlank(ls);
      var all := front + ["[options]"];
      WithBlankHasNone(ls);
      OptionsAtEnd(front);
      UpToHeader(all, |front|, key);
      assert all[..|front| + 1] == all;
      ReadAfter(all, key, value, []);
      UpsertAtEnd(ls, key, value);
    }
  }

  lemma OptionsAtEnd(front: Lines)
    requires forall i :: 0 <= i < |front| ==> !IsOptions(front[i])
    ensures OptionsAt(front + ["[options]"]) == |front|
  {
    hide IsOptions;
    var all := front + ["[options]"];
    OptionsLiteral();
    assert forall i :: 0 <= i < |front| ==> all[i] == front[i];
    assert all[|front|] == "[options]";
  }

  lemma UpsertAtEnd(ls: Lines, key: string, value: string)
    requires OptionsAt(ls) == |ls|
    ensures Upsert(ls, key, value) == WithBlank(ls) + ["[options]"] + ([Target(key, value)] + [])
  {
    hide Target, OptionsAt;
  }

  lemma OptionsLiteral()
    ensures IsOptions("[options]")
  {
    SpaceFacts();
    TrimStartIs("[options]", 0);
    TrimEndIs("[options]", 9);
  }

  lemma BlankIsNoOptions()
    ensures !IsOptions("") && TrimStart("") == ""
  {
  }

  /** Every good value reads back after an upsert exactly if the file is clean for the key. */
  lemma ReadsBack(ls: Lines, key: string)
    requires GoodKey(key)
    ensures (forall value :: GoodValue(value) ==> Read(Upsert(ls, key, value), OPTIONS, key) == Some(value))
            <==> Clean(ls, key)
  {
    hide Scan, After, IsSpace, TrimStart, TrimEnd, ValueOf, Target, Stray, GoodValue, EndsRange, Read;
    var h := OptionsAt(ls);
    if h == |ls| || KeyAt(ls, h, key) == RangeEnd(ls, h) {
      forall value | GoodValue(value)
        ensures Read(Upsert(ls, key, value), OPTIONS, key) == Some(value)
      {
        ReadInserted(ls, key, value);
      }
    } else {
      var i := KeyAt(ls, h, key);
      var m := ls[h + 1..i];
      assert forall j :: h < j < i ==> ls[j] == m[j - h - 1];
      assert forall j :: 0 <= j < |m| ==> m[j] == ls[j + h + 1];
      InsideRange(m, key);
      forall value | GoodValue(value)
        ensures Clean(ls, key) ==> Read(Upsert(ls, key, value), OPTIONS, key) == Some(value)
      {
        ReadReplaced(ls, h, i, key, value);
      }
      if !Clean(ls, key) {
        AandB();
        ReadReplaced(ls, h, i, key, "a");
        ReadReplaced(ls, h, i, key, "b");
        assert Read(Upsert(ls, key, "a"), OPTIONS, key) == Read(Upsert(ls, key, "b"), OPTIONS, key);
      }
    }
  }

  lemma AandB()
    ensures GoodValue("a") && GoodValue("b")
  {
    TrimStartIs("a", 0);
    TrimEndIs("a", 1);
    TrimStartIs("b", 0);
    TrimEndIs("b", 1);
  }

  // ---------------------------------------------------------------------------------------
  // Nothing else changes
  // ---------------------------------------------------------------------------------------

  /** Lines outside the range of [options] are kept, and the file grows by one line at most (by
      three if it had no such section). */
  lemma OtherSectionsUntouched(ls: Lines, key: string, value: string)
    ensures var h, out := OptionsAt(ls), Upsert(ls, key, value);
            && |ls| <= |out| <= |ls| + 3
            && (h == |ls| ==> ls <= out)
            && (h < |ls| ==>
                  var e := RangeEnd(ls, h);
                  out[..h + 1] == ls[..h + 1] && out[|out| - (|ls| - e)..] == ls[e..])
  {
    hide IsOptions, EndsRange, Matches, OptionsAt, RangeEnd, KeyAt;
  }

  /** If the line at i of the first [options] section is the target, the upsert is done. */
  lemma UpsertDone(ls: Lines, h: nat, i: nat, key: string, value: string)
    requires h < i < |ls| && IsOptions(ls[h]) && ls[i] == Target(key, value)
    requires forall j :: 0 <= j < h ==> !IsOptions(ls[j])
    requires forall j :: h < j < i ==> !EndsRange(ls[j]) && !Matches(ls[j], key)
    requires Matches(ls[i], key) && !EndsRange(ls[i])
    ensures Upsert(ls, key, value) == ls
  {
    hide IsOptions, EndsRange, Matches, Target, OptionsAt, RangeEnd, KeyAt;
    assert OptionsAt(ls) == h;
    assert RangeEnd(ls, h) > i;
    assert KeyAt(ls, h, key) == i;
  }

  /** Upserting the same again changes nothing. */
  lemma UpsertTwice(ls: Lines, key: string, value: string)
    requires GoodKey(key) && GoodValue(value)
    ensures var out := Upsert(ls, key, value); Upsert(out, key, value) == out
  {
    hide GoodKey, GoodValue, IsOptions, EndsRange, Matches, Target, OptionsAt, RangeEnd, KeyAt;
    TargetReads(key, value);
    var h := OptionsAt(ls);
    if h == |ls| {
      OptionsLiteral();
      TwiceAtEnd(WithBlank(ls), key, value) by { WithBlankHasNone(ls); }
      assert Upsert(ls, key, value) == WithBlank(ls) + ["[options]", Target(key, value)];
    } else if KeyAt(ls, h, key) < RangeEnd(ls, h) {
      TwiceReplaced(ls, h, KeyAt(ls, h, key), key, value);
    } else {
      TwiceInserted(ls, h, key, value);
    }
  }

  function WithBlank(ls: Lines): Lines {
    ls + (if ls != [] && ls[|ls| - 1] != "" then [""] else [])
  }

  lemma WithBlankHasNone(ls: Lines)
    requires OptionsAt(ls) == |ls|
    ensures forall i :: 0 <= i < |WithBlank(ls)| ==> !IsOptions(WithBlank(ls)[i])
  {
    hide IsOptions, OptionsAt;
    NoOptionsIn(ls);
    BlankIsNoOptions();
    NoneAppended(ls, "");
    BlankOrNot(ls);
  }

  lemma NoOptionsIn(ls: Lines)
    requires OptionsAt(ls) == |ls|
    ensures forall i :: 0 <= i < |ls| ==> !IsOptions(ls[i])
  {
    hide IsOptions;
  }

  lemma BlankOrNot(ls: Lines)
    ensures WithBlank(ls) == ls || WithBlank(ls) == ls + [""]
  {
  }

  lemma NoneAppended(ls: Lines, l: string)
    requires (forall i :: 0 <= i < |ls| ==> !IsOptions(ls[i])) && !IsOptions(l)
    ensures forall i :: 0 <= i < |ls + [l]| ==> !IsOptions((ls + [l])[i])
  {
  }

  lemma TwiceAtEnd(front: Lines, key: string, value: string)
    requires IsOptions("[options]") && forall i :: 0 <= i < |front| ==> !IsOptions(front[i])
    requires var t := Target(key, value); Matches(t, key) && !EndsRange(t)
    ensures var out := front + ["[options]", Target(key, value)]; Upsert(out, key, value) == out
  {
    hide IsOptions, EndsRange, Matches, Target, Upsert;
    var out := front + ["[options]", Target(key, value)];
    assert forall j :: 0 <= j < |front| ==> out[j] == front[j];
    UpsertDone(out, |front|, |front| + 1, key, value);
  }

  lemma TwiceReplaced(ls: Lines, h: nat, i: nat, key: string, value: string)
    requires h == OptionsAt(ls) && h < |ls| && i == KeyAt(ls, h, key) && i < RangeEnd(ls, h)
    requires var t := Target(key, value); Matches(t, key) && !EndsRange(t)
    ensures var out := ls[i := Target(key, value)]; Upsert(out, key, value) == out
  {
    hide IsOptions, EndsRange, Matches, Target, OptionsAt, RangeEnd, KeyAt, Upsert;
    UpsertDone(ls[i := Target(key, value)], h, i, key, value);
  }

  lemma TwiceInserted(ls: Lines, h: nat, key: string, value: string)
    requires h == OptionsAt(ls) && h < |ls|
    requires var t := Target(key, value); Matches(t, key) && !EndsRange(t)
    ensures var out := ls[..h + 1] + [Target(key, value)] + ls[h + 1..]; Upsert(out, key, value) == out
  {
    hide IsOptions, EndsRange, Matches, Target, OptionsAt, RangeEnd, KeyAt, Upsert;
    var out := ls[..h + 1] + [Target(key, value)] + ls[h + 1..];
    assert forall j :: 0 <= j <= h ==> out[j] == ls[j];
    UpsertDone(out, h, h + 1, key, value);
  }

  /** The line of a key gives nothing to a reader looking for another key, and nothing to one
      that is outside its section. */
  lemma LineOfAnotherKey(l: string, k: string, inSection: bool, section: string, key: string)
    requires GoodKey(k) && Matches(l, k) && (inSection ==> GoodKey(key) && key != k)
    ensures Step(l, inSection, section, key) == (inSection, None)
  {
    hide IsComment, IsSection, TrimStart, TrimEnd, ValueOf, Matches;
    MatchAssigns(l, k);
    if inSection {
      OneKey(TrimStart(l), k, key);
    }
  }

  /** A line that has no effect on the reader can be put in or left out. */
  lemma ScanInert(a: Lines, l: string, b: Lines, section: string, key: string)
    requires var s := After(a, false, section); Step(l, s, section, key) == (s, None)
    ensures Scan(a + [l] + b, false, section, key) == Scan(a + b, false, section, key)
  {
    hide Scan, After, Step;
    var s := After(a, false, section);
    ScanSplit(a, b, false, section, key);
    assert a + [l] + b == a + ([l] + b);
    ScanSplit(a, [l] + b, false, section, key);
    ScanSplit([l], b, s, section, key);
    ScanOne(l, s, section, key);
  }

  /** Inside the range of [options] a reader for another section is outside it. */
  lemma OutsideOtherSection(ls: Lines, h: nat, i: nat, section: string)
    requires h == OptionsAt(ls) && h < |ls| && h < i <= RangeEnd(ls, h) && section != OPTIONS
    ensures !After(ls[..i], false, section)
  {
    hide Scan, After, IsSpace, TrimStart, TrimEnd, OptionsAt, RangeEnd, EndsRange;
    var a, m := ls[..h + 1], ls[h + 1..i];
    var before := ls[..h];
    assert ls[..i] == before + ([ls[h]] + m);
    AfterSplit(before, [ls[h]] + m, false, section);
    var s := After(before, false, section);
    AfterSplit([ls[h]], m, s, section);
    OptionsLine(ls[h]);
    ScanOne(ls[h], s, section, "");
    assert !After([ls[h]], s, section) by {
      if TrimEnd(TrimStart(ls[h])) == Header(section) {
        EnteringEndsRange(ls[h], section);
      }
    }
    forall j | 0 <= j < |m|
      ensures TrimEnd(TrimStart(m[j])) != Header(section)
    {
      assert m[j] == ls[h + 1 + j];
      if TrimEnd(TrimStart(m[j])) == Header(section) {
        EnteringEndsRange(m[j], section);
      }
    }
    StaysOutside(m, section, "");
  }

  /** What an upsert adds to a file without [options] gives a reader only the upserted key. */
  lemma AddedAtEnd(ls: Lines, k: string, value: string, section: string, key: string)
    requires GoodKey(k) && GoodValue(value) && (section == OPTIONS ==> GoodKey(key) && key != k)
    requires OptionsAt(ls) == |ls|
    ensures Read(Upsert(ls, k, value), section, key) == Read(ls, section, key)
  {
    hide Scan, After, IsSpace, TrimStart, TrimEnd, OptionsAt, ValueOf, Target, IsSection, IsComment;
    var t := Target(k, value);
    var blank := if ls != [] && ls[|ls| - 1] != "" then [""] else [];
    var added := blank + (["[options]"] + [t]);
    assert Upsert(ls, k, value) == ls + added;
    ScanSplit(ls, added, false, section, key);
    var s := After(ls, false, section);
    ScanSplit(blank, ["[options]"] + [t], s, section, key);
    BlankScan(blank, s, section, key);
    ScanSplit(["[options]"], [t], s, section, key);
    OptionsLiteral();
    OptionsLine("[options]");
    ScanOne("[options]", s, section, key);
    var s2 := section == OPTIONS;
    assert After(["[options]"], s, section) == s2 by {
      if TrimEnd(TrimStart("[options]")) == Header(section) {
        EnteringEndsRange("[options]", section);
      }
    }
    TargetReads(k, value);
    LineOfAnotherKey(t, k, s2, section, key);
    ScanOne(t, s2, section, key);
  }

  lemma BlankScan(blank: Lines, s: bool, section: string, key: string)
    requires blank == [] || blank == [""]
    ensures Scan(blank, s, section, key).None? && After(blank, s, section) == s
  {
    hide TrimStart, TrimEnd, IsSpace, ValueOf;
    if blank == [""] {
      BlankStep(s, section, key);
      BlankStep(s, section, "");
      assert blank[1..] == [];
    }
  }

  lemma BlankStep(s: bool, section: string, key: string)
    ensures Step("", s, section, key) == (s, None)
  {
    hide TrimStart, TrimEnd, IsSpace, Trim, Header;
    NothingToTrim();
    assert StartsWith("", key) ==> key == "" && ""[|key|..] == "";
  }

  lemma NothingToTrim()
    ensures TrimStart("") == ""
  {
    hide IsSpace;
  }

  lemma UpdateShape(ls: Lines, i: nat, t: string)
    requires i < |ls|
    ensures ls[i := t] == ls[..i] + [t] + ls[i + 1..]
    ensures ls == ls[..i] + [ls[i]] + ls[i + 1..] == ls[..i + 1] + ls[i + 1..]
  {
  }

  /** A line for k inside the range of [options] is inert for every other lookup. */
  lemma InertAt(ls: Lines, at: nat, l: string, b: Lines, k: string, section: string, key: string)
    requires OptionsAt(ls) < |ls| && OptionsAt(ls) < at <= RangeEnd(ls, OptionsAt(ls))
    requires GoodKey(k) && Matches(l, k) && (section == OPTIONS ==> GoodKey(key) && key != k)
    ensures Scan(ls[..at] + [l] + b, false, section, key) == Scan(ls[..at] + b, false, section, key)
  {
    hide Scan, After, Step, GoodKey, Matches, OptionsAt, RangeEnd;
    if section != OPTIONS {
      OutsideOtherSection(ls, OptionsAt(ls), at, section);
    }
    LineOfAnotherKey(l, k, After(ls[..at], false, section), section, key);
    ScanInert(ls[..at], l, b, section, key);
  }

  /** Every other lookup is unchanged: other keys of [options], and all keys of other sections. */
  lemma OtherLookupsUnchanged(ls: Lines, k: string, value: string, section: string, key: string)
    requires GoodKey(k) && GoodValue(value) && (section == OPTIONS ==> GoodKey(key) && key != k)
    ensures Read(Upsert(ls, k, value), section, key) == Read(ls, section, key)
  {
    hide Scan, GoodKey, GoodValue, Matches, Target, OptionsAt, RangeEnd, KeyAt, IsOptions, EndsRange;
    var t := Target(k, value);
    var h := OptionsAt(ls);
    if h == |ls| {
      AddedAtEnd(ls, k, value, section, key);
    } else {
      TargetReads(k, value);
      var i := KeyAt(ls, h, k);
      if i < RangeEnd(ls, h) {
        var b := ls[i + 1..];
        InertAt(ls, i, t, b, k, section, key);
        InertAt(ls, i, ls[i], b, k, section, key);
        UpdateShape(ls, i, t);
      } else {
        InertAt(ls, h + 1, t, ls[h + 1..], k, section, key);
        UpdateShape(ls, h, t);
      }
    }
  }

  /** A value that does not read back: the editor takes the bracketed line for part of [options], the
      reader takes it for the next section. */
  lemma StrayHidesValue()
    ensures Read(Upsert(["[options]", "[a] x", "k = 1"], "k", "2"), OPTIONS, "k") == None
  {
    hide Scan, IsSpace, TrimStart, TrimEnd, Step;
    var ls := ["[options]", "[a] x", "k = 1"];
    LetterFacts();
    OptionsLiteral();
    TrimStartIs("[a] x", 0);
    TrimEndIs("[a] x", 5);
    TrimStartIs("k = 1", 0);
    TrimEndIs("k = 1", 5);
    assert "k" + " =" == "k =" && "k = 1"[..3] == "k =" && "[a] x"[0] == '[' && "[a] x"[4] == 'x';
    assert OptionsAt(ls) == 0;
    assert !EndsRange("[a] x") && !EndsRange("k = 1");
    assert RangeEnd(ls, 0) == 3;
    assert Matches("k = 1", "k");
    assert !Matches("[a] x", "k") by { assert ("k" + "=")[0] == 'k' && ("k" + " =")[0] == 'k'; }
    assert KeyAt(ls, 0, "k") == 2;
    StrayScan(ls[2 := Target("k", "2")]);
  }

  lemma LetterFacts()
    ensures !IsSpace('x') && !IsSpace('k') && !IsSpace('1') && !IsSpace('2') && !IsSpace('[') && !IsSpace(']')
  {
  }

  lemma StrayScan(ls: Lines)
    requires |ls| == 3 && ls[0] == "[options]" && ls[1] == "[a] x" && ls[2] == Target("k", "2")
    ensures Read(ls, OPTIONS, "k") == None
  {
    hide IsSpace, TrimStart, TrimEnd;
    LetterFacts();
    TrimStartIs("[a] x", 0);
    TrimEndIs("[a] x", 5);
    assert Target("k", "2") == "k = 2";
    TrimStartIs("k = 2", 0);
    TrimEndIs("k = 2", 5);
    assert "[a] x"[0] == '[' && "[a] x"[2] == ']' && Header(OPTIONS)[1] == 'o' && "[a] x"[1] == 'a';
    assert "k = 2"[0] == 'k' && Header(OPTIONS)[0] == '[';
    StaysOutside(ls[2..], OPTIONS, "k");
    assert ls[1..][0] == ls[1] && ls[1..][1..] == ls[2..];
    TrimStartIs("[options]", 0);
    assert "[options]"[0] == '[' && "[options]"[8] == ']';
    assert Step(ls[0], false, OPTIONS, "k").1 == None;
    assert Step(ls[1], true, OPTIONS, "k") == (false, None);
    assert Step(ls[1], false, OPTIONS, "k") == (false, None);
    assert Scan(ls[1..], true, OPTIONS, "k") == None && Scan(ls[1..], false, OPTIONS, "k") == None;
    assert Scan(ls, false, OPTIONS, "k") == None;
  }

  // ---------------------------------------------------------------------------------------
  // A whole patch
  // ---------------------------------------------------------------------------------------

  /** A file without surprises for the key: no text after the bracket of a section line, and the
      key spelled "key =" or "key=". */
  ghost predicate Tidy(ls: Lines, key: string) {
    forall i :: 0 <= i < |ls| ==> TidyLine(ls[i], key)
  }

  predicate TidyLine(l: string, key: string) {
    Stray(l, key) ==> EndsRange(l) || Matches(l, key)
  }

  lemma TidyIsClean(ls: Lines, key: string)
    requires Tidy(ls, key)
    ensures Clean(ls, key)
  {
    hide Stray, EndsRange, Matches, IsOptions;
  }

  lemma TargetIsTidy(k: string, value: string, key: string)
    requires GoodKey(k) && GoodValue(value) && GoodKey(key)
    ensures TidyLine(Target(k, value), key)
  {
    hide TrimStart, TrimEnd, IsSpace, ValueOf, Assigns, Matches, EndsRange;
    TargetReads(k, value);
    MatchAssigns(Target(k, value), k);
    if key != k {
      OneKey(TrimStart(Target(k, value)), k, key);
    }
  }

  lemma UpsertStaysTidy(ls: Lines, k: string, value: string, key: string)
    requires Tidy(ls, key) && GoodKey(k) && GoodValue(value) && GoodKey(key)
    ensures Tidy(Upsert(ls, k, value), key)
  {
    hide TidyLine, EndsRange, Matches, IsOptions, Target, GoodKey, GoodValue;
    var out := Upsert(ls, k, value);
    TargetIsTidy(k, value, key);
    HeadersAreTidy(key);
    forall i | 0 <= i < |out|
      ensures TidyLine(out[i], key)
    {
      assert out[i] in ls || out[i] == "" || out[i] == "[options]" || out[i] == Target(k, value);
    }
  }

  lemma HeadersAreTidy(key: string)
    requires GoodKey(key)
    ensures TidyLine("[options]", key) && TidyLine("", key)
  {
    OptionsLiteral();
    OptionsLine("[options]");
    assert TrimStart("") == "";
  }

  lemma {:induction false} AllStaysTidy(ls: Lines, ups: seq<(string, string)>, key: string)
    requires Tidy(ls, key) && GoodKey(key)
    requires forall i :: 0 <= i < |ups| ==> GoodKey(ups[i].0) && GoodValue(ups[i].1)
    ensures Tidy(UpsertAll(ls, ups), key)
    decreases |ups|
  {
    hide Tidy, GoodKey, GoodValue, Upsert;
    if ups != [] {
      var init := ups[..|ups| - 1];
      AllStaysTidy(ls, init, key);
      UpsertStaysTidy(UpsertAll(ls, init), ups[|ups| - 1].0, ups[|ups| - 1].1, key);
    }
  }

  /** A whole patch of distinct keys reads back key by key, and leaves other lookups alone. */
  lemma {:induction false} PatchReadsBack(ls: Lines, ups: seq<(string, string)>, i: nat)
    requires i < |ups| && Tidy(ls, ups[i].0)
    requires forall j :: 0 <= j < |ups| ==> GoodKey(ups[j].0) && GoodValue(ups[j].1)
    requires forall j, k :: 0 <= j < k < |ups| ==> ups[j].0 != ups[k].0
    ensures Read(UpsertAll(ls, ups), OPTIONS, ups[i].0) == Some(ups[i].1)
    decreases |ups|
  {
    hide Tidy, GoodKey, GoodValue, Upsert, Read, Clean;
    var n := |ups| - 1;
    var init := ups[..n];
    var before := UpsertAll(ls, init);
    if i == n {
      AllStaysTidy(ls, init, ups[n].0);
      TidyIsClean(before, ups[n].0);
      ReadsBack(before, ups[n].0);
    } else {
      PatchReadsBack(ls, init, i);
      OtherLookupsUnchanged(before, ups[n].0, ups[n].1, OPTIONS, ups[i].0);
    }
  }
}
