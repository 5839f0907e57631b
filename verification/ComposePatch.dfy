/**
 Patching the resources of a block: exactly the first line of each requested key gets the new
 value, missing keys are inserted after the header, and everything else stays where it was.
 */
module ComposePatch {
  import opened Wrappers
  import opened Text
  import opened Compose
  import opened ComposeEdits

  /** The first line from i on with the key, or end. */
  function KeyLine(f: File, key: string, i: nat, end: nat): (r: nat)
    requires i <= end <= |f|
    ensures i <= r <= end && (r < end ==> HasKey(f[r], key))
    ensures forall j :: i <= j < r ==> !HasKey(f[j], key)
    decreases end - i
  {
    hide HasKey;
    if i == end || HasKey(f[i], key) then i else KeyLine(f, key, i + 1, end)
  }

  /** Line j is the one that is patched for the key. */
  predicate PatchedFor(f: File, key: string, v: Option<nat>, b: Block, j: nat)
    requires b.start <= b.end <= |f|
  {
    v.Some? && j < b.end && j == KeyLine(f, key, b.start, b.end)
  }

  /** What is asked for each key: the first line with the key in the range gets the value, and no
      other line changes. */
  function PatchedLine(f: File, want: Resources, b: Block, j: nat): string
    requires b.start <= b.end <= |f| && j < |f|
  {
    if PatchedFor(f, RAM, want.ram, b, j) then WithValue(f[j], RAM, want.ram.value)
    else if PatchedFor(f, CHRS, want.chrs, b, j) then WithValue(f[j], CHRS, want.chrs.value)
    else if PatchedFor(f, BALLOON, want.balloon, b, j) then WithValue(f[j], BALLOON, want.balloon.value)
    else f[j]
  }

  /** The keys without a line. */
  function Unpatched(f: File, key: string, v: Option<nat>, b: Block): Option<nat>
    requires b.start <= b.end <= |f|
  {
    if KeyLine(f, key, b.start, b.end) < b.end then None else v
  }

  function Patched(f: File, want: Resources, b: Block): Patching
    requires b.start <= b.end <= |f|
  {
    Patching(
      seq(|f|, j requires 0 <= j < |f| => PatchedLine(f, want, b, j)),
      Resources(Unpatched(f, RAM, want.ram, b), Unpatched(f, CHRS, want.chrs, b),
        Unpatched(f, BALLOON, want.balloon, b)))
  }

  lemma KeysDiffer(l: string)
    ensures HasKey(l, RAM) ==> !HasKey(l, CHRS) && !HasKey(l, BALLOON)
    ensures HasKey(l, CHRS) ==> !HasKey(l, BALLOON)
  {
    hide TrimStart;
    assert HasKey(l, RAM) ==> TrimStart(l)[0] == RAM[0];
    assert HasKey(l, CHRS) ==> TrimStart(l)[0] == CHRS[0];
    assert HasKey(l, BALLOON) ==> TrimStart(l)[0] == BALLOON[0];
  }

  lemma KeyLineIs(f: File, key: string, i: nat, end: nat, r: nat)
    requires i <= r <= end <= |f|
    requires (r < end ==> HasKey(f[r], key)) && forall j :: i <= j < r ==> !HasKey(f[j], key)
    ensures KeyLine(f, key, i, end) == r
  {
    hide HasKey, KeyLine;
  }

  /** The first line with a key does not depend on the lines before the range. */
  lemma KeyLineTail(f: File, g: File, key: string, i: nat, end: nat)
    requires i <= end <= |f| == |g| && f[i..] == g[i..]
    ensures KeyLine(f, key, i, end) == KeyLine(g, key, i, end)
  {
    hide HasKey, KeyLine;
    forall j | i <= j < end
      ensures f[j] == g[j]
    {
      assert f[j] == f[i..][j - i] && g[j] == g[i..][j - i];
    }
    KeyLineIs(f, key, i, end, KeyLine(g, key, i, end));
  }

  lemma KeyLineStep(p: Patching, key: string, i: nat, end: nat)
    requires i < end <= |p.lines|
    ensures KeyLine(p.lines, key, i, end) ==
            if HasKey(p.lines[i], key) then i else KeyLine(PatchLine(p, i).lines, key, i + 1, end)
  {
    hide HasKey, WithValue, KeyLine;
    var q := PatchLine(p, i);
    assert q.lines[i + 1..] == p.lines[i + 1..];
    KeyLineTail(p.lines, q.lines, key, i + 1, end);
    KeyLineIs(p.lines, key, i, end, if HasKey(p.lines[i], key) then i else KeyLine(q.lines, key, i + 1, end));
  }

  lemma PatchLineLeft(p: Patching, i: nat, end: nat)
    requires i < end <= |p.lines|
    ensures Patched(PatchLine(p, i).lines, PatchLine(p, i).left, Block(i + 1, end)).left
         == Patched(p.lines, p.left, Block(i, end)).left
  {
    hide HasKey, WithValue, KeyLine;
    KeysDiffer(p.lines[i]);
    KeyLineStep(p, RAM, i, end);
    KeyLineStep(p, CHRS, i, end);
    KeyLineStep(p, BALLOON, i, end);
  }

  lemma PatchLineAt(p: Patching, i: nat, end: nat, j: nat)
    requires i < end <= |p.lines| && j < |p.lines|
    ensures PatchedLine(PatchLine(p, i).lines, PatchLine(p, i).left, Block(i + 1, end), j)
         == PatchedLine(p.lines, p.left, Block(i, end), j)
  {
    hide HasKey, WithValue, KeyLine;
    KeysDiffer(p.lines[i]);
    KeyLineStep(p, RAM, i, end);
    KeyLineStep(p, CHRS, i, end);
    KeyLineStep(p, BALLOON, i, end);
  }

  lemma PatchLineSpec(p: Patching, i: nat, end: nat)
    requires i < end <= |p.lines|
    ensures var q := PatchLine(p, i); Patched(q.lines, q.left, Block(i + 1, end)) == Patched(p.lines, p.left, Block(i, end))
  {
    hide PatchLine, PatchedLine, Unpatched;
    var q := PatchLine(p, i);
    var a, b := Patched(q.lines, q.left, Block(i + 1, end)), Patched(p.lines, p.left, Block(i, end));
    forall j | 0 <= j < |p.lines|
      ensures a.lines[j] == b.lines[j]
    {
      PatchLineAt(p, i, end, j);
    }
    PatchLineLeft(p, i, end);
  }

  /** The loop patches exactly the first line of each requested key. */
  lemma {:induction false} PatchRangeSpec(p: Patching, i: nat, end: nat)
    requires i <= end <= |p.lines|
    ensures PatchRange(p, i, end) == Patched(p.lines, p.left, Block(i, end))
    decreases end - i
  {
    hide PatchLine, Patched;
    if i == end {
      NothingToPatch(p, i);
    } else {
      PatchLineSpec(p, i, end);
      PatchRangeSpec(PatchLine(p, i), i + 1, end);
    }
  }

  lemma NothingToPatch(p: Patching, i: nat)
    requires i <= |p.lines|
    ensures Patched(p.lines, p.left, Block(i, i)) == p
  {
    hide HasKey;
  }

  // ---------------------------------------------------------------------------------------
  // Frame
  // ---------------------------------------------------------------------------------------

  /** What a text ends with is what its tail ends with. */
  lemma TailEnds(a: string, u: string)
    requires u != "" && !IsSpace(u[0])
    ensures EndsWithColon(a + u) == EndsWithColon(u)
  {
    hide IsSpace;
    TrimEndFacts(u);
    assert !IsSpace(u[0]);
    var n := |TrimEnd(u)|;
    assert n > 0 && u[n - 1] == TrimEnd(u)[n - 1];
    var s := a + u;
    assert forall i :: 0 <= i < |u| ==> s[|a| + i] == u[i];
    forall i | |a| + n <= i < |s|
      ensures IsSpace(s[i])
    {
      assert s[i] == u[i - |a|];
    }
    TrimEndIs(s, |a| + n);
  }

  lemma EndsInDigit(a: string, n: nat)
    ensures !EndsWithColon(a + Decimal(n))
  {
    var s := a + Decimal(n);
    assert s[|s| - 1] == Decimal(n)[|Decimal(n)| - 1];
    TrimEndIs(s, |s|);
  }

  /** The comment is a tail of the text. */
  lemma CommentTail(rest: string) returns (m: nat)
    requires Comment(rest) != ""
    ensures m < |rest| && rest[m] == '#' && Comment(rest) == "  " + rest[m..]
  {
    hide IsSpace, TrimStart;
    var t := TrimStart(rest);
    TrimStartFacts(rest);
    m := |rest| - |t| + Find(t, '#');
    assert t[Find(t, '#')..] == rest[m..];
  }

  /** A comment that was kept ends the new text as it ended the old one. */
  lemma CommentEnds(head: string, front: string, rest: string)
    requires Comment(rest) != ""
    ensures EndsWithColon(head + Comment(rest)) == EndsWithColon(front + rest)
  {
    hide IsSpace, EndsWithColon, Comment;
    SpacesAreSpace();
    var m := CommentTail(rest);
    var u := rest[m..];
    assert head + Comment(rest) == (head + "  ") + u;
    assert front + rest == (front + rest[..m]) + u;
    TailEnds(head + "  ", u);
    TailEnds(front + rest[..m], u);
  }

  /** Only the old comment can make the new line end in a colon. */
  lemma WithValueEnds(l: string, key: string, n: nat)
    requires HasKey(l, key)
    ensures EndsWithColon(WithValue(l, key, n)) ==> EndsWithColon(l)
  {
    hide IsSpace, EndsWithColon, Decimal, Comment, TrimStart;
    TrimStartFacts(l);
    var m := |l| - |TrimStart(l)| + |key|;
    var head := l[..Indent(l)] + key + " ";
    var rest := TrimStart(l)[|key|..];
    assert l == l[..m] + rest;
    EndsInDigit(head, n);
    assert Comment(rest) == "" ==> WithValue(l, key, n) == head + Decimal(n);
    if Comment(rest) != "" {
      CommentEnds(head + Decimal(n), l[..m], rest);
    }
  }

  lemma PatchedShape(l: string, key: string, n: nat)
    requires PlainKey(key) && HasKey(l, key) && !EndsBlock(l)
    ensures SameShape(l, WithValue(l, key, n))
  {
    hide IsSpace, EndsWithColon, NameOf, EndsBlock, IsHeader, Decimal, Comment, TrimStart;
    InteriorKey(l, key);
    var m := Indent(l);
    var w := WithValue(l, key, n);
    assert w[..m] == l[..m] && w[m] == key[0];
    assert forall i :: 0 <= i < m ==> w[i] == w[..m][i] == l[..m][i] == l[i];
    WithValueEnds(l, key, n);
    SpacesAreSpace();
    assert TwoSpaces(w) ==> TwoSpaces(l);
    SameIndent(l, m, w, key[0]);
  }

  /** An inserted line plays no part in locating blocks. */
  lemma NewLineInert(key: string, n: nat)
    requires PlainKey(key)
    ensures Inert(NewLine(key, n)) && TrimStart(NewLine(key, n)) == key + " " + Decimal(n)
  {
    hide IsSpace, NameOf, Decimal;
    SpacesAreSpace();
    var l := NewLine(key, n);
    FirstCharacter(l, 4);
    assert l[4..] == key + " " + Decimal(n);
  }

  lemma MissingInert(left: Resources)
    ensures forall l <- MissingLines(left) :: Inert(l)
  {
    hide Inert, NewLine;
    SpacesAreSpace();
    if left.chrs.Some? { NewLineInert(CHRS, left.chrs.value); }
    if left.ram.Some? { NewLineInert(RAM, left.ram.value); }
    if left.balloon.Some? { NewLineInert(BALLOON, left.balloon.value); }
  }

  lemma PatchedShapes(f: File, want: Resources, b: Block)
    requires b.start <= b.end <= |f| && forall i :: b.start <= i < b.end ==> !EndsBlock(f[i])
    ensures SameShapes(f, Patched(f, want, b).lines) && |Patched(f, want, b).lines| == |f|
    ensures var g := Patched(f, want, b).lines; g[..b.start] == f[..b.start] && g[b.end..] == f[b.end..]
  {
    hide KeyLine, HasKey, WithValue, EndsBlock, SameShape;
    SpacesAreSpace();
    forall i | 0 <= i < |f|
      ensures SameShape(f[i], PatchedLine(f, want, b, i))
    {
      ShapeOfItself(f[i]);
      if PatchedFor(f, RAM, want.ram, b, i) { PatchedShape(f[i], RAM, want.ram.value); }
      if PatchedFor(f, CHRS, want.chrs, b, i) { PatchedShape(f[i], CHRS, want.chrs.value); }
      if PatchedFor(f, BALLOON, want.balloon, b, i) { PatchedShape(f[i], BALLOON, want.balloon.value); }
    }
  }

  /** The interior of a located block. */
  function Interior(f: File, name: string): (b: Block)
    requires Locate(f, name).Some?
    ensures b.start == Locate(f, name).value.start + 1 && b.end == Locate(f, name).value.end && b.start <= b.end <= |f|
  {
    LocateBounds(f, name);
    Block(Locate(f, name).value.start + 1, Locate(f, name).value.end)
  }

  /** The lines patching inserts after the header. */
  function Added(f: File, name: string, want: Resources): File
    requires Locate(f, name).Some?
  {
    MissingLines(Patched(f, want, Interior(f, name)).left)
  }

  lemma PatchIs(f: File, name: string, want: Resources)
    requires Locate(f, name).Some?
    ensures var b := Interior(f, name); var lines := Patched(f, want, b).lines;
            PatchResources(f, name, want) == Some(lines[..b.start] + Added(f, name, want) + lines[b.start..])
  {
    hide Patched, MissingLines, Locate, PatchRange;
    PatchRangeSpec(Patching(f, want), Interior(f, name).start, Interior(f, name).end);
  }

  /** The patched lines, without those that are added. */
  function Changed(f: File, name: string, want: Resources): (g: File)
    requires Locate(f, name).Some?
    ensures |g| == |f|
  {
    Patched(f, want, Interior(f, name)).lines
  }

  lemma ChangedFrame(f: File, name: string, want: Resources, other: string)
    requires Locate(f, name).Some?
    ensures var b := Interior(f, name); var g := Changed(f, name, want);
            g[..b.start] == f[..b.start] && g[b.end..] == f[b.end..] && Locate(g, other) == Locate(f, other)
  {
    hide Patched, Locate, EndsBlock, SameShapes;
    BlockLines(f, name);
    var b := Interior(f, name);
    PatchedShapes(f, want, b);
    LocateBySame(f, Changed(f, name, want), other);
  }

  /** Patching leaves every line outside the block alone, and for every name the block located
      afterwards is the one located before, moved by the inserted lines. */
  lemma PatchFrame(f: File, name: string, want: Resources, other: string)
    requires Locate(f, name).Some?
    ensures PatchResources(f, name, want).Some?
    ensures var b := Interior(f, name);
            var g := PatchResources(f, name, want).value;
            var k := |Added(f, name, want)|;
            && |g| == |f| + k
            && g[..b.start] == f[..b.start] && g[b.end + k..] == f[b.end..]
            && Locate(g, other) == ShiftBlock(Locate(f, other), b.start, k)
  {
    hide Patched, MissingLines, Locate, Inert, Inserted, PatchResources;
    PatchIs(f, name, want);
    ChangedFrame(f, name, want, other);
    var b := Interior(f, name);
    var lines := Changed(f, name, want);
    var added := Added(f, name, want);
    MissingInert(Patched(f, want, b).left);
    assert forall i :: 0 <= i < |added| ==> Inert(added[i]);
    InsertedAt(lines, b.start, added);
    LocateByInserted(lines, lines[..b.start] + added + lines[b.start..], b.start, |added|, other);
  }

  // ---------------------------------------------------------------------------------------
  // Patching twice
  // ---------------------------------------------------------------------------------------

  function Of(r: Resources, key: string): Option<nat> {
    if key == RAM then r.ram else if key == CHRS then r.chrs else r.balloon
  }

  predicate IsResource(key: string) {
    key == RAM || key == CHRS || key == BALLOON
  }

  lemma OtherKey(l: string, key: string, other: string)
    requires IsResource(key) && IsResource(other) && HasKey(l, key) && key != other
    ensures !HasKey(l, other)
  {
    hide HasKey;
    KeysDiffer(l);
  }

  lemma DecimalHasNoHash(n: nat)
    ensures '#' !in Decimal(n) && !IsSpace(Decimal(n)[0])
  {
  }

  /** Writing a value into a line that has it changes nothing. */
  lemma WithValueTwice(l: string, key: string, n: nat)
    requires HasKey(l, key) && PlainKey(key)
    ensures var w := WithValue(l, key, n); HasKey(w, key) && WithValue(w, key, n) == w
  {
    hide IsSpace, Decimal, Comment, TrimStart;
    TrimStartFacts(l);
    var m := Indent(l);
    assert TrimStart(l) == l[m..] by { TrimStartIs(l, m); }
    var c := Comment(TrimStart(l)[|key|..]);
    var w := WithValue(l, key, n);
    assert w[..m] == l[..m] && w[m] == key[0];
    assert forall i :: 0 <= i < m ==> w[i] == w[..m][i] == l[i];
    TrimStartIs(w, m);
    assert Lead(w, 0) == m;
    assert w[m..] == key + " " + Decimal(n) + c;
    assert w[m..][|key|..] == " " + Decimal(n) + c;
    CommentOfValue(n, TrimStart(l)[|key|..]);
  }

  lemma FindAfter(a: string, b: string, c: char)
    requires c !in a
    ensures Find(a + b, c) == |a| + Find(b, c)
  {
    hide Find;
    var s := a + b;
    assert forall j :: 0 <= j < |a| ==> s[j] == a[j];
    assert forall j :: 0 <= j < |b| ==> s[|a| + j] == b[j];
  }

  lemma CommentIsTail(s: string, a: string, u: string)
    requires s == " " + a + u && a != "" && !IsSpace(a[0]) && '#' !in a && (u == "" || u[0] == '#')
    ensures Comment(s) == if u == "" then "" else "  " + u
  {
    hide IsSpace, TrimStart, Find;
    SpacesAreSpace();
    assert s[1] == a[0];
    TrimStartIs(s, 1);
    assert s[1..] == a + u;
    FindAfter(a, u, '#');
    if u != "" {
      assert Find(u, '#') == 0;
      assert (a + u)[|a|..] == u;
    }
  }

  lemma CommentOfValue(n: nat, rest: string)
    ensures Comment(" " + Decimal(n) + Comment(rest)) == Comment(rest)
  {
    hide IsSpace, Decimal, Comment;
    DecimalHasNoHash(n);
    var d := Decimal(n);
    if Comment(rest) != "" {
      var m := CommentTail(rest);
      var u := rest[m..];
      assert " " + d + Comment(rest) == " " + (d + "  ") + u;
      CommentIsTail(" " + (d + "  ") + u, d + "  ", u);
    } else {
      assert " " + d + "" == " " + d + Comment(rest);
      CommentIsTail(" " + d + "", d, "");
    }
  }

  lemma NoComment()
    ensures Comment("") == ""
  {
    TrimStartIs("", 0);
  }

  lemma NewLineIsValue(key: string, n: nat)
    requires PlainKey(key)
    ensures HasKey(NewLine(key, n), key) && WithValue(NewLine(key, n), key, n) == NewLine(key, n)
  {
    hide IsSpace, Decimal, TrimStart, Comment;
    SpacesAreSpace();
    NewLineInert(key, n);
    var l := NewLine(key, n);
    assert Lead(l, 0) == 4 by { assert l[4] == key[0]; }
    assert TrimStart(l)[|key|..] == " " + Decimal(n);
    NoComment();
    CommentOfValue(n, "");
    assert " " + Decimal(n) + Comment("") == " " + Decimal(n);
  }

  /** A patched line has the keys it had. */
  lemma PatchedLineKeys(f: File, want: Resources, b: Block, j: nat, key: string)
    requires b.start <= b.end <= |f| && j < |f| && IsResource(key)
    ensures HasKey(PatchedLine(f, want, b, j), key) == HasKey(f[j], key)
  {
    hide HasKey, WithValue, KeyLine;
    SpacesAreSpace();
    forall k | IsResource(k) && PatchedFor(f, k, Of(want, k), b, j)
      ensures HasKey(f[j], k) && HasKey(WithValue(f[j], k, Of(want, k).value), k)
    {
      WithValueTwice(f[j], k, Of(want, k).value);
    }
    forall l, k | IsResource(k) && HasKey(l, k) && k != key
      ensures !HasKey(l, key)
    {
      OtherKey(l, k, key);
    }
    assert IsResource(RAM) && IsResource(CHRS) && IsResource(BALLOON);
  }

  lemma PatchedKeyLine(f: File, want: Resources, b: Block, key: string)
    requires b.start <= b.end <= |f| && IsResource(key)
    ensures KeyLine(Patched(f, want, b).lines, key, b.start, b.end) == KeyLine(f, key, b.start, b.end)
  {
    hide HasKey, KeyLine, PatchedLine;
    var g := Patched(f, want, b).lines;
    forall j | 0 <= j < |f|
      ensures HasKey(g[j], key) == HasKey(f[j], key)
    {
      PatchedLineKeys(f, want, b, j, key);
    }
    KeyLineIs(g, key, b.start, b.end, KeyLine(f, key, b.start, b.end));
  }

  /** Where a key is found once lines have been inserted in front of the range. */
  lemma KeyLineInserted(f: File, xs: File, key: string, i: nat, end: nat)
    requires i <= end <= |f|
    ensures var t := KeyLine(xs, key, 0, |xs|);
            var r := KeyLine(f[..i] + xs + f[i..], key, i, end + |xs|);
            r == if t < |xs| then i + t else KeyLine(f, key, i, end) + |xs|
  {
    hide HasKey, KeyLine;
    var g := f[..i] + xs + f[i..];
    var t := KeyLine(xs, key, 0, |xs|);
    assert forall j :: 0 <= j < |xs| ==> g[i + j] == xs[j];
    forall j | i + |xs| <= j < end + |xs|
      ensures g[j] == f[j - |xs|]
    {
    }
    if t < |xs| {
      forall j | i <= j < i + t
        ensures !HasKey(g[j], key)
      {
        assert g[j] == xs[j - i];
      }
      KeyLineIs(g, key, i, end + |xs|, i + t);
    } else {
      var r := KeyLine(f, key, i, end) + |xs|;
      forall j | i <= j < r
        ensures !HasKey(g[j], key)
      {
        assert j < i + |xs| ==> g[j] == xs[j - i];
      }
      KeyLineIs(g, key, i, end + |xs|, r);
    }
  }

  /** The inserted lines hold the missing keys and no others. */
  lemma MissingKeyLine(left: Resources, key: string)
    requires IsResource(key)
    ensures var m := MissingLines(left); var t := KeyLine(m, key, 0, |m|);
            if Of(left, key).Some? then t < |m| && m[t] == NewLine(key, Of(left, key).value) else t == |m|
  {
    hide HasKey, NewLine, KeyLine;
    var m := MissingLines(left);
    SpacesAreSpace();
    forall k | IsResource(k) && Of(left, k).Some?
      ensures HasKey(NewLine(k, Of(left, k).value), key) <==> k == key
    {
      NewLineIsValue(k, Of(left, k).value);
      if k != key {
        OtherKey(NewLine(k, Of(left, k).value), k, key);
      }
    }
    assert IsResource(RAM) && IsResource(CHRS) && IsResource(BALLOON);
    var before := if key == CHRS then [] else if key == RAM then Missing(CHRS, left.chrs)
                  else Missing(CHRS, left.chrs) + Missing(RAM, left.ram);
    KeyLineIs(m, key, 0, |m|, if Of(left, key).Some? then |before| else |m|);
  }

  /** The block already says what is wanted for the key. */
  predicate Settled(f: File, key: string, v: Option<nat>, b: Block)
    requires b.start <= b.end <= |f|
  {
    var r := KeyLine(f, key, b.start, b.end);
    v.Some? ==> r < b.end && WithValue(f[r], key, v.value) == f[r]
  }

  lemma PatchSettles(f: File, want: Resources, b: Block, key: string)
    requires b.start <= b.end <= |f| && IsResource(key)
    ensures var p := Patched(f, want, b); var m := MissingLines(p.left);
            Settled(p.lines[..b.start] + m + p.lines[b.start..], key, Of(want, key), Block(b.start, b.end + |m|))
  {
    hide HasKey, NewLine, KeyLine, WithValue, MissingLines;
    var p := Patched(f, want, b);
    var m := MissingLines(p.left);
    PatchedKeyLine(f, want, b, key);
    KeyLineInserted(p.lines, m, key, b.start, b.end);
    MissingKeyLine(p.left, key);
    SpacesAreSpace();
    var r := KeyLine(f, key, b.start, b.end);
    if Of(want, key).Some? {
      var n := Of(want, key).value;
      if r < b.end {
        WithValueTwice(f[r], key, n);
        PatchedLineIs(f, want, b, key);
      } else {
        NewLineIsValue(key, n);
      }
    }
  }

  lemma PatchedLineIs(f: File, want: Resources, b: Block, key: string)
    requires b.start <= b.end <= |f| && IsResource(key) && Of(want, key).Some?
    ensures var r := KeyLine(f, key, b.start, b.end);
            r < b.end ==> PatchedLine(f, want, b, r) == WithValue(f[r], key, Of(want, key).value)
  {
    hide HasKey, KeyLine, WithValue;
    var r := KeyLine(f, key, b.start, b.end);
    if r < b.end {
      KeysDiffer(f[r]);
    }
  }

  lemma SettledIsFixed(f: File, want: Resources, b: Block)
    requires b.start <= b.end <= |f|
    requires Settled(f, RAM, want.ram, b) && Settled(f, CHRS, want.chrs, b) && Settled(f, BALLOON, want.balloon, b)
    ensures Patched(f, want, b) == Patching(f, Resources(None, None, None))
  {
    hide HasKey, KeyLine, WithValue;
  }

  lemma PatchedInterior(f: File, name: string, want: Resources)
    requires Locate(f, name).Some?
    ensures PatchResources(f, name, want).Some?
    ensures var g := PatchResources(f, name, want).value; var b := Interior(f, name);
            && Locate(g, name).Some?
            && Interior(g, name) == Block(b.start, b.end + |Added(f, name, want)|)
  {
    hide Patched, MissingLines, Locate, PatchResources, Added;
    PatchFrame(f, name, want, name);
  }

  /** Every requested key stands in the block with its value. */
  ghost predicate AllSettled(f: File, name: string, want: Resources)
    requires Locate(f, name).Some?
  {
    forall key | IsResource(key) :: Settled(f, key, Of(want, key), Interior(f, name))
  }

  lemma PatchSettlesAll(f: File, name: string, want: Resources)
    requires Locate(f, name).Some? && PatchResources(f, name, want).Some?
    requires Locate(PatchResources(f, name, want).value, name).Some?
    ensures AllSettled(PatchResources(f, name, want).value, name, want)
  {
    hide Patched, MissingLines, Locate, Settled, PatchResources;
    PatchIs(f, name, want);
    PatchedInterior(f, name, want);
    forall key | IsResource(key)
      ensures Settled(PatchResources(f, name, want).value, key, Of(want, key),
              Interior(PatchResources(f, name, want).value, name))
    {
      PatchSettles(f, want, Interior(f, name), key);
    }
  }

  lemma SettledPatch(g: File, name: string, want: Resources)
    requires Locate(g, name).Some? && AllSettled(g, name, want)
    ensures PatchResources(g, name, want) == Some(g)
  {
    hide Patched, MissingLines, Locate, Settled, PatchResources;
    PatchIs(g, name, want);
    var b := Interior(g, name);
    assert Settled(g, RAM, Of(want, RAM), b) && Settled(g, CHRS, Of(want, CHRS), b)
      && Settled(g, BALLOON, Of(want, BALLOON), b);
    SettledIsFixed(g, want, b);
    NothingMissing();
    assert g[..b.start] + [] + g[b.start..] == g;
  }

  /** After patching, every requested key stands in the block with its value, and patching again
      changes nothing. */
  lemma PatchTwice(f: File, name: string, want: Resources)
    requires Locate(f, name).Some?
    ensures PatchResources(f, name, want).Some?
    ensures var g := PatchResources(f, name, want).value;
            Locate(g, name).Some? && AllSettled(g, name, want) && PatchResources(g, name, want) == Some(g)
  {
    hide Locate, PatchResources, AllSettled;
    PatchedInterior(f, name, want);
    PatchSettlesAll(f, name, want);
    SettledPatch(PatchResources(f, name, want).value, name, want);
  }

  lemma NothingMissing()
    ensures MissingLines(Resources(None, None, None)) == []
  {
  }
}
