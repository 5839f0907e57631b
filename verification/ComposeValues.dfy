/**
 What the lines of the compose file say, by a reader of its own: the text after the key up to a comment,
 trimmed, and the number that decimal digits stand for. Flags and resources that are set read as asked.
 */
module ComposeValues {
  import opened Wrappers
  import opened Text
  import opened Compose
  import opened ComposeEdits
  import opened ComposePatch
  import opened ComposeClone

  // ---------------------------------------------------------------------------------------
  // The reader
  // ---------------------------------------------------------------------------------------

  /** The text a line gives to a key. */
  function Field(l: string, key: string): Option<string> {
    var t := TrimStart(l);
    if !StartsWith(t, key + ":") then None
    else
      var rest := t[|key| + 1..];
      Some(Trim(rest[..Find(rest, '#')]))
  }

  /** The comment of a line. */
  function Remark(l: string): string {
    l[Find(l, '#')..]
  }

  predicate AllDigits(s: string) {
    s != "" && forall i :: 0 <= i < |s| ==> '0' <= s[i] <= '9'
  }

  function Power(e: nat): nat {
    if e == 0 then 1 else 10 * Power(e - 1)
  }

  /** The number that decimal digits stand for: each digit times its power of ten. */
  function Number(s: string): int {
    if s == "" then 0 else (s[0] as int - '0' as int) * Power(|s| - 1) + Number(s[1..])
  }

  predicate Reads(l: string, key: string, n: nat) {
    Field(l, key).Some? && AllDigits(Field(l, key).value) && Number(Field(l, key).value) == n
  }

  lemma {:induction false} NumberSnoc(s: string, c: char)
    ensures Number(s + [c]) == 10 * Number(s) + (c as int - '0' as int)
    decreases |s|
  {
    if s == "" {
      assert (s + [c])[1..] == "";
    } else {
      assert (s + [c])[1..] == s[1..] + [c];
      NumberSnoc(s[1..], c);
      TenTimes(s[0] as int - '0' as int, Power(|s| - 1));
    }
  }

  lemma TenTimes(d: int, p: nat)
    ensures d * (10 * p) == 10 * (d * p)
  {
  }

  /** Writing a number and reading it gives the number. */
  lemma {:induction false} DecimalReads(n: nat)
    ensures AllDigits(Decimal(n)) && Number(Decimal(n)) == n
    decreases n
  {
    if n < 10 {
      assert Decimal(n) == "" + [Digit(n)];
      NumberSnoc("", Digit(n));
    } else {
      DecimalReads(n / 10);
      NumberSnoc(Decimal(n / 10), Digit(n % 10));
    }
  }

  // ---------------------------------------------------------------------------------------
  // Lines
  // ---------------------------------------------------------------------------------------

  /** A value with something else than white space at both ends, and no comment. */
  predicate Bare(v: string) {
    v != "" && !IsSpace(v[0]) && !IsSpace(v[|v| - 1]) && '#' !in v
  }

  /** Nothing, or a comment after white space. */
  predicate IsTail(tail: string) {
    tail == "" || (|tail| > 2 && tail[..2] == "  " && tail[2] == '#')
  }

  lemma TrimBare(v: string, n: nat)
    requires Bare(v)
    ensures Trim(" " + v + Spaces(n)) == v
  {
    hide IsSpace;
    SpacesAreSpace();
    var s := " " + v + Spaces(n);
    assert s[1] == v[0] && s[|v|] == v[|v| - 1];
    TrimStartIs(s, 1);
    assert s[1..] == v + Spaces(n);
    TrimEndIs(v + Spaces(n), |v|);
  }

  /** A line built from indentation, key, value and comment. */
  lemma FieldOf(indent: string, key: string, v: string, tail: string)
    requires (forall i :: 0 <= i < |indent| ==> IsSpace(indent[i])) && key != "" && !IsSpace(key[0])
    requires Bare(v) && IsTail(tail)
    ensures var l := indent + (key + ":" + (" " + v + tail)); Field(l, key) == Some(v)
  {
    hide IsSpace, Trim, Bare, Find;
    assert '#' !in v by { BareHasNoComment(v); }
    var rest := " " + v + tail;
    var l := indent + (key + ":" + rest);
    assert l[|indent|] == key[0];
    TrimStartIs(l, |indent|);
    var t := l[|indent|..];
    assert t == key + ":" + rest && t[..|key| + 1] == key + ":" && t[|key| + 1..] == rest;
    if tail == "" {
      assert rest == " " + v + Spaces(0);
      NoHash(rest);
      assert rest[..|rest|] == rest;
      TrimBare(v, 0);
    } else {
      var a := " " + v + Spaces(2);
      assert tail == "  " + tail[2..];
      assert rest == a + tail[2..];
      HashAt(a, tail[2..]);
      assert rest[..|a|] == a;
      TrimBare(v, 2);
    }
  }

  lemma BareHasNoComment(v: string)
    requires Bare(v)
    ensures '#' !in v
  {
  }

  lemma NoHash(s: string)
    requires '#' !in s
    ensures Find(s, '#') == |s|
  {
  }

  lemma HashAt(a: string, u: string)
    requires '#' !in a && u != "" && u[0] == '#'
    ensures Find(a + u, '#') == |a|
  {
    FindAfter(a, u, '#');
  }

  lemma CommentShape(rest: string)
    ensures IsTail(Comment(rest))
    ensures Comment(rest) == if '#' in rest then "  " + Remark(rest) else ""
  {
    hide IsSpace, Find;
    TrimStartFacts(rest);
    var t := TrimStart(rest);
    var n := |rest| - |t|;
    assert rest == rest[..n] + t;
    assert '#' !in rest[..n] by { BlankHasNoHash(rest[..n]); }
    FindAfter(rest[..n], t, '#');
    FindsIt(t, '#');
    FindsIt(rest, '#');
    var h := Find(t, '#');
    if h < |t| {
      assert t[h..] == Remark(rest);
    }
  }

  lemma BlankHasNoHash(s: string)
    requires forall i :: 0 <= i < |s| ==> IsSpace(s[i])
    ensures '#' !in s
  {
  }

  lemma FindsIt(s: string, c: char)
    ensures Find(s, c) < |s| <==> c in s
    ensures Find(s, c) < |s| ==> s[Find(s, c)] == c
  {
  }

  lemma DecimalIsBare(n: nat)
    ensures Bare(Decimal(n))
  {
    DecimalReads(n);
    var d := Decimal(n);
    forall i | 0 <= i < |d|
      ensures !IsSpace(d[i]) && d[i] != '#'
    {
      DigitIsNoSpace(d[i]);
    }
  }

  lemma DigitIsNoSpace(c: char)
    requires '0' <= c <= '9'
    ensures !IsSpace(c) && c != '#'
  {
  }

  /** A key of the file: not empty, without white space in front, and without a comment. */
  predicate IsKey(key: string) {
    key != "" && !IsSpace(key[0]) && '#' !in key
  }

  lemma WithValueShape(l: string, key: string, n: nat)
    requires HasKey(l, key + ":")
    ensures |key| < |TrimStart(l)| && forall i :: 0 <= i < Indent(l) ==> IsSpace(l[..Indent(l)][i])
    ensures WithValue(l, key + ":", n) ==
            l[..Indent(l)] + (key + ":" + (" " + Decimal(n) + Comment(TrimStart(l)[|key| + 1..])))
  {
    hide IsSpace, Decimal, Comment, TrimStart;
  }

  /** A line that gets a new value reads as asked. */
  lemma WithValueField(l: string, key: string, n: nat)
    requires HasKey(l, key + ":") && IsKey(key)
    ensures Field(WithValue(l, key + ":", n), key) == Some(Decimal(n)) && Reads(WithValue(l, key + ":", n), key, n)
  {
    hide IsSpace, Decimal, Comment, Find, TrimStart, Field, Bare, IsTail, Number, AllDigits, WithValue, HasKey;
    WithValueShape(l, key, n);
    var c := Comment(TrimStart(l)[|key| + 1..]);
    CommentShape(TrimStart(l)[|key| + 1..]);
    DecimalIsBare(n);
    FieldOf(l[..Indent(l)], key, Decimal(n), c);
    DecimalReads(n);
  }

  /** A line built from indentation, key, value and the comment of what stood there. */
  lemma BuiltKeeps(indent: string, key: string, v: string, rest: string)
    requires (forall i :: 0 <= i < |indent| ==> IsSpace(indent[i])) && IsKey(key) && '#' !in v
    ensures var w := indent + (key + ":" + (" " + v + Comment(rest)));
            Remark(w) == Remark(rest) && Indent(w) == |indent| && w[..|indent|] == indent
  {
    hide IsSpace, Comment, Find, TrimStart, Remark;
    var tail := Comment(rest);
    var w := indent + (key + ":" + (" " + v + tail));
    assert w[|indent|] == key[0];
    assert Lead(w, 0) == |indent| by { assert forall i :: 0 <= i < |indent| ==> w[i] == indent[i]; }
    BlankHasNoHash(indent);
    var front := indent + key + ":" + " " + v;
    assert w == front + tail && '#' !in front;
    RemarkAfter(front, tail);
    RemarkOfTail(rest);
  }

  lemma RemarkOfLine(l: string, key: string)
    requires HasKey(l, key + ":") && IsKey(key)
    ensures |key| < |TrimStart(l)| && Remark(l) == Remark(TrimStart(l)[|key| + 1..])
  {
    hide IsSpace, Find, TrimStart, Remark;
    TrimStartFacts(l);
    var t := TrimStart(l);
    var m := |l| - |t|;
    var front := l[..m] + key + ":";
    assert t == key + ":" + t[|key| + 1..];
    assert l == front + t[|key| + 1..];
    BlankHasNoHash(l[..m]);
    RemarkAfter(front, t[|key| + 1..]);
  }

  /** It keeps its indentation and its comment. */
  lemma WithValueKeeps(l: string, key: string, n: nat)
    requires HasKey(l, key + ":") && IsKey(key)
    ensures var w := WithValue(l, key + ":", n);
            Remark(w) == Remark(l) && Indent(w) == Indent(l) && w[..Indent(l)] == l[..Indent(l)]
  {
    hide IsSpace, Decimal, Comment, Find, TrimStart, Bare, Remark, IsKey, WithValue, HasKey;
    WithValueShape(l, key, n);
    RemarkOfLine(l, key);
    DecimalIsBare(n);
    assert '#' !in Decimal(n) by { BareHasNoComment(Decimal(n)); }
    BuiltKeeps(l[..Indent(l)], key, Decimal(n), TrimStart(l)[|key| + 1..]);
  }

  lemma RemarkAfter(a: string, b: string)
    requires '#' !in a
    ensures Remark(a + b) == Remark(b)
  {
    FindAfter(a, b, '#');
  }

  lemma RemarkOfTail(rest: string)
    ensures Remark(Comment(rest)) == Remark(rest)
  {
    hide Comment, Find;
    CommentShape(rest);
    FindsIt(rest, '#');
    if '#' in rest {
      var u := Remark(rest);
      RemarkAfter("  ", u);
      assert u[0] == '#';
      HashAt("", u);
      assert "" + u == u && u[0..] == u;
    } else {
      NoHash(rest);
      NoHash("");
    }
  }

  lemma OverrideReads(l: string, key: string, n: nat)
    requires IsKey(key)
    ensures Field(Override(l, key + ":", n), key) == Some(Decimal(n)) && Reads(Override(l, key + ":", n), key, n)
  {
    hide IsSpace, Decimal, Comment, TrimStart, Field, Bare, IsTail, Number, AllDigits;
    var rest := if HasKey(l, key + ":") then TrimStart(l)[|key + ":"|..] else "";
    CommentShape(rest);
    SpacesAreSpace();
    DecimalIsBare(n);
    DecimalReads(n);
    FieldOf(Spaces(Indent(l)), key, Decimal(n), Comment(rest));
    assert Override(l, key + ":", n) == Spaces(Indent(l)) + (key + ":" + (" " + Decimal(n) + Comment(rest)));
  }

  lemma NewLineReads(key: string, n: nat)
    requires IsKey(key)
    ensures Field(NewLine(key + ":", n), key) == Some(Decimal(n)) && Reads(NewLine(key + ":", n), key, n)
  {
    hide IsSpace, Decimal, Field, Bare, Number, AllDigits;
    SpacesAreSpace();
    DecimalIsBare(n);
    DecimalReads(n);
    FieldOf("    ", key, Decimal(n), "");
    assert NewLine(key + ":", n) == "    " + (key + ":" + (" " + Decimal(n) + ""));
  }

  function Flag(b: bool): string {
    if b then "true" else "false"
  }

  lemma FlagsAreBare()
    ensures Bare("true") && Bare("false") && IsKey("disabled") && IsKey("skip_warmup")
  {
  }

  lemma DisabledReads(l: string, disabled: bool)
    ensures Field(DisabledLine(l, disabled), "disabled") == Some(Flag(disabled))
    ensures Field("    disabled: true", "disabled") == Some("true")
  {
    hide IsSpace, Field, Bare;
    SpacesAreSpace();
    FlagsAreBare();
    FieldOf(Spaces(Indent(l)), "disabled", Flag(disabled), "");
    assert DisabledLine(l, disabled) == Spaces(Indent(l)) + ("disabled" + ":" + (" " + Flag(disabled) + ""));
    FieldOf("    ", "disabled", "true", "");
    assert "    disabled: true" == "    " + ("disabled" + ":" + (" " + "true" + ""));
  }

  lemma WarmupReads(l: string)
    ensures Field(WarmupLine(l), "skip_warmup") == Some("true")
    ensures Field("    skip_warmup: true", "skip_warmup") == Some("true")
  {
    hide IsSpace, Field, Bare;
    SpacesAreSpace();
    FlagsAreBare();
    FieldOf(Spaces(Indent(l)), "skip_warmup", "true", "");
    assert WarmupLine(l) == Spaces(Indent(l)) + ("skip_warmup" + ":" + (" " + "true" + ""));
    FieldOf("    ", "skip_warmup", "true", "");
    assert "    skip_warmup: true" == "    " + ("skip_warmup" + ":" + (" " + "true" + ""));
  }

  lemma FieldIsKey(l: string, key: string)
    ensures Field(l, key).Some? <==> HasKey(l, key + ":")
  {
    hide TrimStart;
  }

  // ---------------------------------------------------------------------------------------
  // The editors
  // ---------------------------------------------------------------------------------------

  /** Whether a service is disabled, as its block says: every `disabled:` line says so, and without one
      it is not. */
  ghost predicate ReadsDisabled(f: File, b: Block, disabled: bool)
    requires b.end <= |f|
  {
    && (forall i :: b.start <= i < b.end && Field(f[i], "disabled").Some? ==>
       Field(f[i], "disabled") == Some(Flag(disabled)))
    && (disabled ==> exists i :: b.start <= i < b.end && Field(f[i], "disabled").Some?)
  }

  lemma SaysReads(f: File, b: Block, disabled: bool)
    requires b.end <= |f| && Says(f, b, disabled)
    ensures ReadsDisabled(f, b, disabled)
  {
    hide HasKey, DisabledLine, Field;
    assert DISABLED == "disabled" + ":";
    forall i | b.start <= i < b.end
      ensures Field(f[i], "disabled").Some? <==> HasKey(f[i], DISABLED)
      ensures Field(f[i], "disabled").Some? ==> Field(f[i], "disabled") == Some(Flag(disabled))
    {
      FieldIsKey(f[i], "disabled");
      DisabledReads(f[i], disabled);
    }
  }

  /** After setting the flag of a service its block reads as asked. */
  lemma FlipReads(f: File, name: string, disabled: bool)
    requires Locate(f, name).Some? && !HasKey(f[Locate(f, name).value.start], DISABLED)
    ensures SetDisabled(f, name, disabled).Some?
    ensures var g := SetDisabled(f, name, disabled).value.0;
            Locate(g, name).Some? && ReadsDisabled(g, Locate(g, name).value, disabled)
  {
    hide Locate, Says, HasKey;
    FlipTwice(f, name, disabled);
    SaysReads(SetDisabled(f, name, disabled).value.0, Locate(SetDisabled(f, name, disabled).value.0, name).value,
      disabled);
  }

  lemma FlagIndent(l: string, disabled: bool)
    ensures Indent(WarmupLine(l)) == Indent(l) && Indent(DisabledLine(l, disabled)) == Indent(l)
  {
    hide IsSpace;
    SpacesAreSpace();
    FlagLettersMark();
    assert WarmupLine(l)[Indent(l)] == 's' && DisabledLine(l, disabled)[Indent(l)] == 'd';
  }

  lemma FlagLettersMark()
    ensures !IsSpace('s') && !IsSpace('d')
  {
  }

  /** A flag that is set keeps its place. */
  lemma FlipKeepsPlace(f: File, name: string, disabled: bool, i: nat)
    requires Locate(f, name).Some? && Locate(f, name).value.start <= i < Locate(f, name).value.end
    requires i < |f| && Field(f[i], "disabled").Some?
    ensures SetDisabled(f, name, disabled).Some?
    ensures var g := SetDisabled(f, name, disabled).value.0;
            |g| == |f| && Field(g[i], "disabled") == Some(Flag(disabled)) && Indent(g[i]) == Indent(f[i])
  {
    hide Locate, HasKey, DisabledLine, Field, Indent;
    assert DISABLED == "disabled" + ":";
    FieldIsKey(f[i], "disabled");
    DisabledReads(f[i], disabled);
    FlagIndent(f[i], disabled);
    LocateBounds(f, name);
    var b := Locate(f, name).value;
    var g := SetDisabled(f, name, disabled).value.0;
    assert HasDisabled(f, b);
    assert g == Flip(f, b, disabled);
  }

  /** Every line that is not such a flag of the block stays, moved by one behind a flag that is inserted. */
  lemma FlipKeepsLines(f: File, name: string, disabled: bool, i: nat)
    requires Locate(f, name).Some? && i < |f|
    requires var b := Locate(f, name).value; b.start <= i < b.end ==> Field(f[i], "disabled").None?
    ensures SetDisabled(f, name, disabled).Some?
    ensures var g := SetDisabled(f, name, disabled).value.0; var n := |g| - |f|;
            && (n == 0 || n == 1)
            && (if i <= Locate(f, name).value.start then g[i] == f[i] else g[i + n] == f[i])
  {
    hide Locate, HasKey, DisabledLine, Field, HasDisabled;
    assert DISABLED == "disabled" + ":";
    FieldIsKey(f[i], "disabled");
    LocateBounds(f, name);
    var b := Locate(f, name).value;
    var d := Flip(f, b, disabled);
    assert d[i] == f[i];
    FlippedOrInserted(f, name, disabled);
  }

  lemma FlippedOrInserted(f: File, name: string, disabled: bool)
    requires Locate(f, name).Some? && Locate(f, name).value.start < Locate(f, name).value.end <= |f|
    ensures var b := Locate(f, name).value; var d := Flip(f, b, disabled); var g := SetDisabled(f, name,
            disabled).value.0;
            g == d || g == d[..b.start + 1] + ["    disabled: true"] + d[b.start + 1..]
  {
    hide Locate, Flip, HasDisabled;
  }

  /** The first line of the block with the key reads as n. */
  ghost predicate FirstReads(f: File, b: Block, key: string, n: nat)
    requires b.end <= |f|
  {
    exists i :: b.start <= i < b.end && Reads(f[i], key, n) && forall j :: b.start <= j < i ==> Field(f[j], key).None?
  }

  lemma SettledReads(f: File, key: string, n: nat, b: Block)
    requires b.start <= b.end <= |f| && IsKey(key) && Settled(f, key + ":", Some(n), b)
    ensures FirstReads(f, b, key, n)
  {
    hide Field, WithValue, HasKey;
    var i := KeyLine(f, key + ":", b.start, b.end);
    WithValueField(f[i], key, n);
    forall j | b.start <= j < i
      ensures Field(f[j], key).None?
    {
      FieldIsKey(f[j], key);
    }
  }

  lemma ResourceKeys()
    ensures IsKey("ram") && IsKey("chrs") && IsKey("balloon_mb")
    ensures RAM == "ram" + ":" && CHRS == "chrs" + ":" && BALLOON == "balloon_mb" + ":"
    ensures RAM != CHRS && RAM != BALLOON && CHRS != BALLOON
  {
    assert "ram:"[0] != "chrs:"[0] && "ram:"[0] != "balloon_mb:"[0] && "chrs:"[0] != "balloon_mb:"[0];
  }

  /** After patching, every resource asked for reads as asked, at the first line of the block that has
      its key. */
  lemma PatchReads(f: File, name: string, want: Resources)
    requires Locate(f, name).Some?
    ensures PatchResources(f, name, want).Some?
    ensures var g := PatchResources(f, name, want).value;
            && Locate(g, name).Some?
            && var b := Interior(g, name);
               && (want.ram.Some? ==> FirstReads(g, b, "ram", want.ram.value))
               && (want.chrs.Some? ==> FirstReads(g, b, "chrs", want.chrs.value))
               && (want.balloon.Some? ==> FirstReads(g, b, "balloon_mb", want.balloon.value))
  {
    hide Locate, PatchResources, Settled, FirstReads;
    PatchTwice(f, name, want);
    ResourceKeys();
    var g := PatchResources(f, name, want).value;
    var b := Interior(g, name);
    assert Settled(g, RAM, Of(want, RAM), b) && Settled(g, CHRS, Of(want, CHRS), b)
      && Settled(g, BALLOON, Of(want, BALLOON), b);
    if want.ram.Some? { SettledReads(g, "ram", want.ram.value, b); }
    if want.chrs.Some? { SettledReads(g, "chrs", want.chrs.value, b); }
    if want.balloon.Some? { SettledReads(g, "balloon_mb", want.balloon.value, b); }
  }
}
