/**
 A patch of odoo.conf as a text: split into lines, patched, joined and written, and then read.
 */
module ConfText {
  import opened Wrappers
  import opened Text
  import opened Conf
  import opened ConfRoundTrip
  import L = Lines

  function LinesOf(text: string): Lines {
    L.LinesOf(text, '\n', '\r')
  }

  /** `patch_odoo_conf`: the new text of the file. */
  function PatchText(text: string, ups: seq<(string, string)>): string {
    L.Joined(UpsertAll(LinesOf(text), ups), '\n')
  }

  /** `parse_conf_value_in_section` on a text. */
  function ReadText(text: string, section: string, key: string): Option<string> {
    Read(LinesOf(text), section, key)
  }

  /** No line holds a newline. */
  ghost predicate Split(ls: Lines) {
    forall i :: 0 <= i < |ls| ==> '\n' !in ls[i]
  }

  /** Keys and values on one line. */
  predicate OneLine(kv: (string, string)) {
    '\n' !in kv.0 && '\n' !in kv.1
  }

  lemma UpsertStaysSplit(ls: Lines, k: string, v: string)
    requires Split(ls) && OneLine((k, v))
    ensures Split(Upsert(ls, k, v)) && Upsert(ls, k, v) != []
  {
    hide IsOptions, EndsRange, Matches;
    var out := Upsert(ls, k, v);
    assert '\n' !in " = ";
    forall i | 0 <= i < |out|
      ensures '\n' !in out[i]
    {
      assert out[i] in ls || out[i] == "" || out[i] == "[options]" || out[i] == Target(k, v);
    }
  }

  lemma {:induction false} AllStaySplit(ls: Lines, ups: seq<(string, string)>)
    requires Split(ls) && forall i :: 0 <= i < |ups| ==> OneLine(ups[i])
    ensures Split(UpsertAll(ls, ups)) && (ups != [] ==> UpsertAll(ls, ups) != [])
    decreases |ups|
  {
    hide Split, OneLine, Upsert;
    if ups != [] {
      var init := ups[..|ups| - 1];
      AllStaySplit(ls, init);
      UpsertStaysSplit(UpsertAll(ls, init), ups[|ups| - 1].0, ups[|ups| - 1].1);
    }
  }

  // ---------------------------------------------------------------------------------------
  // Carriage returns
  // ---------------------------------------------------------------------------------------

  lemma TrimStartReturn(m: string)
    ensures TrimStart(m + "\r") == if TrimStart(m) == "" then "" else TrimStart(m) + "\r"
  {
    hide TrimStart;
    TrimStartFacts(m);
    var n := |m| - |TrimStart(m)|;
    var l := m + "\r";
    assert IsSpace('\r');
    if TrimStart(m) == "" {
      TrimStartIs(l, |l|);
    } else {
      assert l[n] == m[n] == TrimStart(m)[0];
      assert forall i :: 0 <= i < n ==> l[i] == m[i];
      TrimStartIs(l, n);
      assert l[n..] == m[n..] + "\r";
    }
  }

  lemma TrimEndReturn(m: string)
    ensures TrimEnd(m + "\r") == TrimEnd(m)
  {
    hide TrimEnd;
    TrimEndFacts(m);
    var n := |TrimEnd(m)|;
    var l := m + "\r";
    assert IsSpace('\r');
    assert forall i :: 0 <= i < |m| ==> l[i] == m[i];
    assert n > 0 ==> l[n - 1] == TrimEnd(m)[n - 1];
    TrimEndIs(l, n);
    assert l[..n] == m[..n];
  }

  lemma TrimReturn(m: string)
    ensures Trim(m + "\r") == Trim(m)
  {
    hide TrimStart, TrimEnd;
    TrimStartReturn(m);
    TrimEndReturn(TrimStart(m));
  }

  lemma ValueReturn(t: string, key: string)
    requires GoodKey(key)
    ensures ValueOf(t + "\r", key) == ValueOf(t, key)
  {
    hide TrimStart, Trim;
    var l := t + "\r";
    assert IsSpace('\r');
    if |key| <= |t| {
      assert l[..|key|] == t[..|key|];
      assert l[|key|..] == t[|key|..] + "\r";
      TrimStartReturn(t[|key|..]);
      var rest := TrimStart(t[|key|..]);
      if rest != "" {
        assert (rest + "\r")[1..] == rest[1..] + "\r";
        TrimReturn(rest[1..]);
      }
    } else {
      assert l[|l| - 1] == '\r' && key[|key| - 1] != '\r';
      assert |key| == |l| ==> key != l;
    }
  }

  lemma StepReturn(m: string, inSection: bool, section: string, key: string)
    requires GoodKey(key)
    ensures Step(m + "\r", inSection, section, key) == Step(m, inSection, section, key)
  {
    hide TrimStart, TrimEnd, ValueOf, GoodKey;
    TrimStartReturn(m);
    var t := TrimStart(m);
    TrimEndReturn(t);
    ValueReturn(t, key);
    assert ']' in t + "\r" <==> ']' in t;
  }

  /** The reader does not see a carriage return at the end of a line. */
  lemma {:induction false} ReturnsDoNotMatter(ls: Lines, inSection: bool, section: string, key: string)
    requires GoodKey(key)
    ensures Scan(L.Chomps(ls, '\r'), inSection, section, key) == Scan(ls, inSection, section, key)
    decreases |ls|
  {
    hide Step, GoodKey;
    if ls != [] {
      var l, m := ls[0], L.Chomp(ls[0], '\r');
      assert m == l || l == m + "\r";
      StepReturn(m, inSection, section, key);
      assert L.Chomps(ls, '\r')[1..] == L.Chomps(ls[1..], '\r');
      ReturnsDoNotMatter(ls[1..], Step(l, inSection, section, key).0, section, key);
    }
  }

  /** Every key of a patch reads back from the new text of the file, whatever the line ends in it. */
  lemma PatchedTextReadsBack(text: string, ups: seq<(string, string)>, i: nat)
    requires i < |ups| && Tidy(LinesOf(text), ups[i].0)
    requires forall j :: 0 <= j < |ups| ==> GoodKey(ups[j].0) && GoodValue(ups[j].1) && OneLine(ups[j])
    requires forall j, k :: 0 <= j < k < |ups| ==> ups[j].0 != ups[k].0
    ensures ReadText(PatchText(text, ups), OPTIONS, ups[i].0) == Some(ups[i].1)
  {
    hide Tidy, GoodKey, GoodValue, OneLine, Scan, UpsertAll, Split;
    assert Split(LinesOf(text)) by { SplitLines(text); }
    AllStaySplit(LinesOf(text), ups);
    var after := UpsertAll(LinesOf(text), ups);
    TextIsItsLines(after);
    ReturnsDoNotMatter(after, false, OPTIONS, ups[i].0);
    PatchReadsBack(LinesOf(text), ups, i);
  }

  lemma SplitLines(text: string)
    ensures Split(LinesOf(text))
  {
    hide L.LinesOf;
    L.LinesHoldNone(text, '\n', '\r');
  }

  lemma TextIsItsLines(ls: Lines)
    requires ls != [] && Split(ls)
    ensures LinesOf(L.Joined(ls, '\n')) == L.Chomps(ls, '\r')
  {
    hide L.LinesOf, L.Joined;
    L.LinesOfJoined(ls, '\n', '\r');
  }
}
