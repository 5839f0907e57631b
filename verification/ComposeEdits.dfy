/**
 The editors of nkr-compose.yml touch only the block they were asked to edit, keep its
 boundaries, and keep every other block where it was.
 */
module ComposeEdits {
  import opened Wrappers
  import opened Text
  import opened Compose

  // ---------------------------------------------------------------------------------------
  // What locating a block depends on
  // ---------------------------------------------------------------------------------------

  /** A line that plays no part in locating blocks. */
  predicate Inert(l: string) {
    NameOf(l).None? && !IsHeader(l) && !EndsBlock(l)
  }

  predicate SameShape(k: string, l: string) {
    NameOf(k) == NameOf(l) && IsHeader(k) == IsHeader(l) && EndsBlock(k) == EndsBlock(l)
  }

  ghost predicate SameShapes(f: File, g: File) {
    |f| == |g| && forall i :: 0 <= i < |f| ==> SameShape(f[i], g[i])
  }

  lemma LocateBySame(f: File, g: File, name: string)
    requires SameShapes(f, g)
    ensures Locate(f, name) == Locate(g, name)
  {
    hide NameOf, IsHeader, EndsBlock, FindName, HeaderBefore, BlockEnd;
    assert FindName(f, name, 0) == FindName(g, name, 0);
    var i := FindName(f, name, 0);
    if i < |f| {
      assert HeaderBefore(f, i) == HeaderBefore(g, i);
      if HeaderBefore(f, i).Some? {
        var s := HeaderBefore(f, i).value;
        assert BlockEnd(f, s + 1) == BlockEnd(g, s + 1);
      }
    }
  }

  /** Where an index goes when k lines are inserted at p. */
  function Shift(i: nat, p: nat, k: nat): nat {
    if i < p then i else i + k
  }

  function ShiftBlock(b: Option<Block>, p: nat, k: nat): Option<Block> {
    match b case None => None case Some(x) => Some(Block(Shift(x.start, p, k), Shift(x.end, p, k)))
  }

  ghost predicate Inserted(f: File, g: File, p: nat, k: nat) {
    && 0 < p <= |f| && |g| == |f| + k
    && (forall i :: 0 <= i < p ==> g[i] == f[i])
    && (forall i :: p <= i < p + k ==> Inert(g[i]))
    && (forall i :: p + k <= i < |g| ==> g[i] == f[i - k])
  }

  lemma InsertedAt(f: File, p: nat, xs: File)
    requires 0 < p <= |f| && forall i :: 0 <= i < |xs| ==> Inert(xs[i])
    ensures Inserted(f, f[..p] + xs + f[p..], p, |xs|)
  {
    hide Inert;
  }

  lemma InsertedLine(f: File, g: File, p: nat, k: nat, m: nat)
    requires Inserted(f, g, p, k) && m < |g|
    ensures if m < p then g[m] == f[m] else if m < p + k then Inert(g[m]) else g[m] == f[m - k]
  {
    hide Inert;
  }

  lemma FindNameShifts(f: File, g: File, p: nat, k: nat, name: string)
    requires Inserted(f, g, p, k)
    ensures FindName(g, name, 0) == Shift(FindName(f, name, 0), p, k)
  {
    hide NameOf, IsHeader, EndsBlock, FindName;
    var i := FindName(f, name, 0);
    var j := Shift(i, p, k);
    if j < |g| {
      assert g[j] == f[i];
    }
    forall m | 0 <= m < j
      ensures NameOf(g[m]) != Some(name)
    {
      if m >= p + k {
        assert g[m] == f[m - k];
      }
    }
  }

  lemma HeaderShifts(f: File, g: File, p: nat, k: nat, i: nat)
    requires Inserted(f, g, p, k) && i < |f|
    ensures Shift(i, p, k) < |g|
    ensures HeaderBefore(g, Shift(i, p, k)) ==
            match HeaderBefore(f, i) case None => None case Some(s) => Some(Shift(s, p, k))
  {
    hide NameOf, IsHeader, EndsBlock, HeaderBefore, Inserted;
    InsertedBounds(f, g, p, k);
    var h := HeaderBefore(f, i);
    var j := Shift(i, p, k);
    var low := if h.Some? then Shift(h.value, p, k) + 1 else 0;
    forall m | low <= m <= j
      ensures !IsHeader(g[m])
    {
      InsertedLine(f, g, p, k, m);
    }
    if h.Some? {
      InsertedLine(f, g, p, k, low - 1);
    }
  }

  lemma EndShifts(f: File, g: File, p: nat, k: nat, s: nat)
    requires Inserted(f, g, p, k) && s < |f|
    ensures BlockEnd(g, Shift(s, p, k) + 1) == Shift(BlockEnd(f, s + 1), p, k)
  {
    hide NameOf, IsHeader, EndsBlock, BlockEnd;
    var e := BlockEnd(f, s + 1);
    var j := Shift(e, p, k);
    if j < |g| {
      assert g[j] == f[e];
    }
    forall m | Shift(s, p, k) < m < j
      ensures !EndsBlock(g[m])
    {
      if m >= p + k {
        assert g[m] == f[m - k];
      }
    }
  }

  /** Inserting inert lines moves blocks and nothing else; the block they fall into grows. */
  lemma LocateByInserted(f: File, g: File, p: nat, k: nat, name: string)
    requires Inserted(f, g, p, k)
    ensures Locate(g, name) == ShiftBlock(Locate(f, name), p, k)
  {
    hide NameOf, IsHeader, EndsBlock, FindName, HeaderBefore, BlockEnd, Inserted;
    InsertedBounds(f, g, p, k);
    FindNameShifts(f, g, p, k, name);
    var i := FindName(f, name, 0);
    if i < |f| {
      HeaderShifts(f, g, p, k, i);
      if HeaderBefore(f, i).Some? {
        EndShifts(f, g, p, k, HeaderBefore(f, i).value);
      }
    }
  }

  lemma InsertedBounds(f: File, g: File, p: nat, k: nat)
    requires Inserted(f, g, p, k)
    ensures 0 < p <= |f| && |g| == |f| + k
  {
  }

  // ---------------------------------------------------------------------------------------
  // Lines that give a key
  // ---------------------------------------------------------------------------------------

  /** Keys that are not nkr_name: their first letter tells. */
  predicate PlainKey(key: string) {
    key != "" && !IsSpace(key[0]) && key[0] != 'n' && key[0] != '#' && key[0] != '-'
  }

  /** A line whose first non-blank character is neither that of a name, a comment nor a list item. */
  lemma FirstCharacter(l: string, n: nat)
    requires n < |l| && (forall i :: 0 <= i < n ==> IsSpace(l[i])) && !IsSpace(l[n])
    ensures TrimStart(l) == l[n..] && Indent(l) == n
    ensures l[n] != 'n' ==> NameOf(l).None?
    ensures forall c :: FirstIs(l, c) <==> l[n] == c
  {
    hide IsSpace, StripKey, Unquote;
    TrimStartIs(l, n);
    TrimEndFacts(l[n..]);
    assert Lead(l, 0) == n;
    var t := Trim(l);
    assert !IsSpace(l[n..][0]);
    assert t[0] == l[n];
  }

  /** In a block, after its header, a line with such a key is no header and starts with a space. */
  lemma InteriorKey(l: string, key: string)
    requires PlainKey(key) && HasKey(l, key) && !EndsBlock(l)
    ensures Inert(l) && 0 < Indent(l) < |l| && l[0] == ' '
    ensures (forall i :: 0 <= i < Indent(l) ==> IsSpace(l[i])) && l[Indent(l)] == key[0]
    ensures TwoSpaces(l) ==> !EndsWithColon(l)
  {
    hide IsSpace, TrimStart, EndsWithColon, NameOf;
    SpacesAreSpace();
    TrimStartFacts(l);
    var n := |l| - |TrimStart(l)|;
    assert l[n] == TrimStart(l)[0] == key[0];
    FirstCharacter(l, n);
    assert !IsTopLevel(l);
  }

  /** A line indented like l with another text: no header unless it ends like one. */
  lemma SameIndent(l: string, n: nat, new': string, c: char)
    requires 0 < n < |l| && n < |new'| && new'[..n] == l[..n] && new'[n] == l[n] == c
    requires (forall i :: 0 <= i < n ==> IsSpace(l[i])) && !IsSpace(c) && c != 'n' && c != '-' && c != '#'
             && l[0] == ' '
    requires TwoSpaces(new') ==> !EndsWithColon(new')
    ensures Inert(new')
  {
    hide IsSpace, EndsWithColon, NameOf;
    assert forall i :: 0 <= i < n ==> new'[i] == new'[..n][i] == l[..n][i] == l[i];
    FirstCharacter(new', n);
  }

  // ---------------------------------------------------------------------------------------
  // disabled
  // ---------------------------------------------------------------------------------------

  lemma SpacesAreSpace()
    ensures IsSpace(' ') && !IsSpace('#') && !IsSpace('d') && !IsSpace('e') && !IsSpace('r') && !IsSpace('c')
            && !IsSpace('b')
  {
  }

  /** The line written for `disabled` is one, and writing it again gives the same. */
  lemma DisabledLineFacts(l: string, disabled: bool)
    ensures var d := DisabledLine(l, disabled);
            && HasKey(d, DISABLED) && Indent(d) == Indent(l)
            && DisabledLine(d, disabled) == d
            && !EndsWithColon(d) && NameOf(d).None?
            && (Indent(l) > 0 ==> Inert(d))
  {
    hide IsSpace, NameOf;
    SpacesAreSpace();
    var d := DisabledLine(l, disabled);
    var n := Indent(l);
    assert d[n] == 'd';
    FirstCharacter(d, n);
    assert d[n..] == DISABLED + (if disabled then " true" else " false");
    TrimEndIs(d, |d|);
  }

  lemma FlippedShape(l: string, disabled: bool)
    requires HasKey(l, DISABLED) && !EndsBlock(l)
    ensures SameShape(l, DisabledLine(l, disabled))
  {
    hide IsSpace, NameOf, EndsBlock, IsHeader;
    SpacesAreSpace();
    InteriorKey(l, DISABLED);
    DisabledLineFacts(l, disabled);
  }

  /** Every line of a located block after its header neither is a service header nor starts a section. */
  lemma BlockLines(f: File, name: string)
    requires Locate(f, name).Some?
    ensures var b := Locate(f, name).value;
            IsHeader(f[b.start]) && forall i :: b.start < i < b.end ==> !EndsBlock(f[i])
  {
    hide NameOf, IsHeader, EndsBlock, FindName, HeaderBefore, BlockEnd;
  }

  lemma FlipKeepsShapes(f: File, name: string, disabled: bool)
    requires Locate(f, name).Some? && !HasKey(f[Locate(f, name).value.start], DISABLED)
    ensures SameShapes(f, Flip(f, Locate(f, name).value, disabled))
  {
    hide HasKey, DisabledLine, SameShape, Locate;
    LocateBounds(f, name);
    BlockLines(f, name);
    var b := Locate(f, name).value;
    var g := Flip(f, b, disabled);
    forall i | 0 <= i < |f|
      ensures SameShape(f[i], g[i])
    {
      if b.start <= i < b.end && HasKey(f[i], DISABLED) {
        FlippedShape(f[i], disabled);
      } else {
        ShapeOfItself(f[i]);
      }
    }
  }

  lemma ShapeOfItself(l: string)
    ensures SameShape(l, l)
  {
  }

  /** How many lines flipping inserts. */
  function FlipGrowth(f: File, b: Block, disabled: bool): nat
    requires b.end <= |f|
  {
    if !HasDisabled(f, b) && disabled then 1 else 0
  }

  lemma InsertedDisabledLine()
    ensures var l := "    disabled: true";
            Inert(l) && l == DisabledLine(l, true) && HasKey(l, DISABLED)
  {
    hide IsSpace, NameOf;
    SpacesAreSpace();
    var l := "    disabled: true";
    FirstCharacter(l, 4);
    assert Spaces(4) == "    ";
    assert l == DisabledLine(l, true);
    DisabledLineFacts(l, true);
  }

  lemma FlipOutside(f: File, b: Block, disabled: bool)
    requires b.start < b.end <= |f| && !HasKey(f[b.start], DISABLED)
    ensures var h := Flip(f, b, disabled);
            |h| == |f| && h[..b.start + 1] == f[..b.start + 1] && h[b.end..] == f[b.end..]
  {
    hide HasKey, DisabledLine;
  }

  /** Flipping changes only `disabled:` lines of the block, possibly by inserting one after its
      header: the rest of the file is untouched, and for every name the block located afterwards is
      the one located before, moved by the inserted line. This is so unless the service itself
      is called "disabled". */
  lemma FlipFrame(f: File, name: string, disabled: bool, other: string)
    requires Locate(f, name).Some? && !HasKey(f[Locate(f, name).value.start], DISABLED)
    ensures SetDisabled(f, name, disabled).Some?
    ensures var b := Locate(f, name).value;
            var g := SetDisabled(f, name, disabled).value.0;
            var k := FlipGrowth(f, b, disabled);
            && |g| == |f| + k
            && g[..b.start + 1] == f[..b.start + 1] && g[b.end + k..] == f[b.end..]
            && Locate(g, other) == ShiftBlock(Locate(f, other), b.start + 1, k)
  {
    hide Locate, HasKey, DisabledLine, SameShapes, Inserted, Inert, Flip;
    LocateBounds(f, name);
    var b := Locate(f, name).value;
    var h := Flip(f, b, disabled);
    FlipKeepsShapes(f, name, disabled);
    LocateBySame(f, h, other);
    FlipOutside(f, b, disabled);
    if FlipGrowth(f, b, disabled) == 1 {
      var l := "    disabled: true";
      InsertedDisabledLine();
      InsertedAt(h, b.start + 1, [l]);
      LocateByInserted(h, InsertAt(h, b.start + 1, l), b.start + 1, 1, other);
    } else {
      ShiftByZero(Locate(f, other), b.start + 1);
    }
  }

  lemma ShiftByZero(b: Option<Block>, p: nat)
    ensures ShiftBlock(b, p, 0) == b
  {
  }

  /** For a service called "disabled" the flip overwrites its header. */
  lemma FlipDestroysItsHeader(f: File, name: string, disabled: bool)
    requires Locate(f, name).Some?
    ensures var b := Locate(f, name).value;
            IsHeader(Flip(f, b, disabled)[b.start]) <==> !HasKey(f[b.start], DISABLED)
  {
    hide Locate, HasKey, DisabledLine;
    LocateBounds(f, name);
    BlockLines(f, name);
    var b := Locate(f, name).value;
    if HasKey(f[b.start], DISABLED) {
      DisabledLineFacts(f[b.start], disabled);
    }
  }

  /** Every `disabled:` line of the block is the one for the flag, and there is one if it is set. */
  ghost predicate Says(f: File, b: Block, disabled: bool)
    requires b.end <= |f|
  {
    && (disabled ==> HasDisabled(f, b))
    && (forall i :: b.start <= i < b.end && HasKey(f[i], DISABLED) ==> f[i] == DisabledLine(f[i], disabled))
  }

  lemma FlippedSays(f: File, b: Block, disabled: bool)
    requires b.end <= |f| && (disabled ==> HasDisabled(f, b))
    ensures Says(Flip(f, b, disabled), b, disabled)
  {
    hide HasKey, DisabledLine;
    var g := Flip(f, b, disabled);
    forall i | b.start <= i < b.end
      ensures HasKey(f[i], DISABLED) ==> HasKey(g[i], DISABLED)
      ensures HasKey(g[i], DISABLED) ==> g[i] == DisabledLine(g[i], disabled)
    {
      if HasKey(f[i], DISABLED) {
        DisabledLineFacts(f[i], disabled);
      }
    }
  }

  lemma InsertedSays(f: File, b: Block)
    requires b.start < b.end <= |f| && !HasDisabled(f, b)
    ensures Says(InsertAt(Flip(f, b, true), b.start + 1, "    disabled: true"), Block(b.start, b.end + 1), true)
  {
    hide HasKey, DisabledLine;
    assert Flip(f, b, true) == f;
    var g := InsertAt(f, b.start + 1, "    disabled: true");
    InsertedDisabledLine();
    assert g[b.start + 1] == "    disabled: true";
    forall i | b.start <= i < b.end + 1 && i != b.start + 1
      ensures !HasKey(g[i], DISABLED)
    {
      assert g[i] == if i <= b.start then f[i] else f[i - 1];
    }
  }

  lemma SaysIsFixed(g: File, name: string, disabled: bool)
    requires Locate(g, name).Some? && Says(g, Locate(g, name).value, disabled)
    ensures SetDisabled(g, name, disabled) == Some((g, false))
  {
    hide Locate, HasKey, DisabledLine;
    assert Flip(g, Locate(g, name).value, disabled) == g;
  }

  /** After a flip the block says what was asked, and flipping again reports no change. */
  lemma FlipTwice(f: File, name: string, disabled: bool)
    requires Locate(f, name).Some? && !HasKey(f[Locate(f, name).value.start], DISABLED)
    ensures var g := SetDisabled(f, name, disabled).value.0;
            && Locate(g, name).Some? && Says(g, Locate(g, name).value, disabled)
            && SetDisabled(g, name, disabled) == Some((g, false))
  {
    hide Locate, HasDisabled, Says, Flip;
    FlipFrame(f, name, disabled, name);
    LocateBounds(f, name);
    var b := Locate(f, name).value;
    if FlipGrowth(f, b, disabled) == 1 {
      InsertedSays(f, b);
    } else {
      FlippedSays(f, b, disabled);
    }
    SaysIsFixed(SetDisabled(f, name, disabled).value.0, name, disabled);
  }

  // ---------------------------------------------------------------------------------------
  // Removing a block
  // ---------------------------------------------------------------------------------------

  lemma FindNameIs(f: File, name: string, i: nat)
    requires i <= |f| && (i < |f| ==> NameOf(f[i]) == Some(name)) && forall j :: 0 <= j < i ==>
             NameOf(f[j]) != Some(name)
    ensures FindName(f, name, 0) == i
  {
    hide NameOf, FindName;
    var r := FindName(f, name, 0);
    assert r < |f| ==> NameOf(f[r]) == Some(name);
  }

  lemma HeaderBeforeIs(f: File, i: nat, h: nat)
    requires h <= i < |f| && IsHeader(f[h]) && forall j :: h < j <= i ==> !IsHeader(f[j])
    ensures HeaderBefore(f, i) == Some(h)
  {
    hide IsHeader, HeaderBefore;
    var r := HeaderBefore(f, i);
  }

  lemma BlockEndIs(f: File, i: nat, e: nat)
    requires i <= e <= |f| && (e < |f| ==> EndsBlock(f[e])) && forall j :: i <= j < e ==> !EndsBlock(f[j])
    ensures BlockEnd(f, i) == e
  {
    hide EndsBlock, BlockEnd;
    var r := BlockEnd(f, i);
  }

  /** Two blocks stand apart. */
  predicate Disjoint(a: Block, b: Block) {
    a.end <= b.start || b.end <= a.start
  }

  /** Where a block is found, from its parts. */
  lemma LocateFrom(f: File, name: string, i: nat, h: nat, e: nat)
    requires h <= i < |f| && h < e <= |f| && NameOf(f[i]) == Some(name) && forall j :: 0 <= j < i ==>
             NameOf(f[j]) != Some(name)
    requires IsHeader(f[h]) && forall j :: h < j <= i ==> !IsHeader(f[j])
    requires (e < |f| ==> EndsBlock(f[e])) && forall j :: h < j < e ==> !EndsBlock(f[j])
    ensures Locate(f, name) == Some(Block(h, e))
  {
    hide NameOf, IsHeader, EndsBlock, FindName, HeaderBefore, BlockEnd;
    FindNameIs(f, name, i);
    HeaderBeforeIs(f, i, h);
    BlockEndIs(f, h + 1, e);
  }

  lemma LocateParts(f: File, name: string) returns (i: nat)
    requires Locate(f, name).Some?
    ensures NameAt(f, name, i)
  {
    hide NameOf, IsHeader, EndsBlock, FindName, HeaderBefore, BlockEnd;
    i := FindName(f, name, 0);
  }

  /** g is f without the n lines from p on. */
  ghost predicate Cut(f: File, g: File, p: nat, n: nat) {
    && p + n <= |f| && |g| == |f| - n
    && (forall j :: 0 <= j < p ==> g[j] == f[j]) && forall j :: p + n <= j < |f| ==> g[j - n] == f[j]
  }

  lemma CutLines(f: File, g: File, p: nat, n: nat)
    requires Cut(f, g, p, n)
    ensures p + n <= |f| && |g| == |f| - n
    ensures (forall j :: 0 <= j < p ==> g[j] == f[j]) && forall j :: p <= j < |g| ==> g[j] == f[j + n]
  {
    forall j | p <= j < |g|
      ensures g[j] == f[j + n]
    {
      assert g[j + n - n] == f[j + n];
    }
  }

  lemma CutBefore(f: File, g: File, p: nat, n: nat, name: string, i: nat)
    requires Cut(f, g, p, n) && Locate(f, name).Some? && p + n <= Locate(f, name).value.start
    requires NameAt(f, name, i) && (forall j :: p <= j < p + n ==> NameOf(f[j]) != Some(name))
    ensures var o := Locate(f, name).value; Locate(g, name) == Some(Block(o.start - n, o.end - n))
  {
    hide NameOf, IsHeader, EndsBlock, Locate, Cut;
    LocateBounds(f, name);
    var o := Locate(f, name).value;
    CutLines(f, g, p, n);
    LocateFrom(g, name, i - n, o.start - n, o.end - n);
  }

  lemma CutBehind(f: File, g: File, p: nat, n: nat, name: string, i: nat)
    requires Cut(f, g, p, n) && Locate(f, name).Some? && Locate(f, name).value.end <= p && NameAt(f, name, i) && i < p
    requires p + n < |f| ==> EndsBlock(f[p + n])
    ensures Locate(g, name) == Locate(f, name)
  {
    hide NameOf, IsHeader, EndsBlock, Locate, Cut;
    LocateBounds(f, name);
    var o := Locate(f, name).value;
    CutLines(f, g, p, n);
    LocateFrom(g, name, i, o.start, o.end);
  }

  /** The first line with the name, and the parts of its block. */
  ghost predicate NameAt(f: File, name: string, i: nat)
    requires Locate(f, name).Some?
  {
    var b := Locate(f, name).value;
    && b.start <= i < |f| && NameOf(f[i]) == Some(name) && (forall j :: 0 <= j < i ==> NameOf(f[j]) != Some(name))
    && IsHeader(f[b.start]) && (forall j :: b.start < j <= i ==> !IsHeader(f[j]))
    && b.start < b.end <= |f| && (b.end < |f| ==> EndsBlock(f[b.end])) && forall j :: b.start < j < b.end ==>
       !EndsBlock(f[j])
  }

  /** Removing a block takes exactly its lines out, and every instance whose block stands apart from it is found
      where it was, moved up by the lines that are gone. */
  lemma RemoveKeepsOthers(f: File, name: string, other: string)
    requires Locate(f, name).Some? && Locate(f, other).Some? && Disjoint(Locate(f, name).value, Locate(f, other).value)
    ensures var b := Locate(f, name).value; var o := Locate(f, other).value; var g := Remove(f, name);
            var n := b.end - b.start;
            && b.start < b.end && Cut(f, g, b.start, n)
            && Locate(g, other) == Some(if b.end <= o.start then Block(o.start - n, o.end - n) else o)
  {
    hide NameOf, IsHeader, EndsBlock, Locate, Cut, NameAt;
    LocateBounds(f, name);
    var b, o := Locate(f, name).value, Locate(f, other).value;
    var n := b.end - b.start;
    RemoveCuts(f, name);
    var k := LocateParts(f, name);
    var i := LocateParts(f, other);
    NamesApart(f, name, k, other, i);
    if b.end <= o.start {
      CutBefore(f, Remove(f, name), b.start, n, other, i);
    } else {
      CutBehind(f, Remove(f, name), b.start, n, other, i);
    }
  }

  lemma RemoveCuts(f: File, name: string)
    requires Locate(f, name).Some?
    ensures var b := Locate(f, name).value; b.start < b.end <= |f| && Cut(f, Remove(f, name), b.start, b.end - b.start)
  {
    hide Locate;
    LocateBounds(f, name);
  }

  lemma NamesApart(f: File, name: string, k: nat, other: string, i: nat)
    requires Locate(f, name).Some? && Locate(f, other).Some? && Disjoint(Locate(f, name).value, Locate(f, other).value)
    requires NameAt(f, name, k) && NameAt(f, other, i)
    ensures var b := Locate(f, name).value; var o := Locate(f, other).value;
            && (b.end < |f| ==> EndsBlock(f[b.end]))
            && (if b.end <= o.start then forall j :: b.start <= j < b.end ==>
               NameOf(f[j]) != Some(other) else i < b.start)
  {
    hide NameOf, IsHeader, EndsBlock, Locate;
  }
}
