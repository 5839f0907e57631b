/**
 Text editing of nkr-compose.yml: finding the block of an instance by its nkr_name, removing it,
 flipping its `disabled` line and patching its resources. The file is edited as lines; the YAML is
 never parsed.
 */
module Compose {
  import opened Wrappers
  import opened Text

  type File = seq<string>

  // ---------------------------------------------------------------------------------------
  // Lines
  // ---------------------------------------------------------------------------------------

  /** Indented by exactly two spaces. */
  predicate TwoSpaces(l: string) {
    |l| >= 3 && l[0] == ' ' && l[1] == ' ' && l[2] != ' '
  }

  predicate EndsWithColon(l: string) {
    var t := TrimEnd(l);
    t != "" && t[|t| - 1] == ':'
  }

  predicate FirstIs(l: string, c: char) {
    var t := TrimStart(l);
    t != "" && t[0] == c
  }

  /** The test for a service header when looking backwards from a name. */
  predicate IsHeader(l: string) {
    TwoSpaces(l) && EndsWithColon(l) && !FirstIs(l, '-')
  }

  /** The test for the next service header, which also leaves out comments. */
  predicate IsServiceHeader(l: string) {
    IsHeader(l) && !FirstIs(l, '#')
  }

  predicate IsTopLevel(l: string) {
    l != "" && l[0] != ' ' && l[0] != '#'
  }

  predicate EndsBlock(l: string) {
    IsServiceHeader(l) || IsTopLevel(l)
  }

  const NAME_KEY: string := "nkr_name:"

  /** `trim_start_matches(NAME_KEY)`: the key is taken off as often as it occurs. */
  function StripKey(s: string): string {
    if StartsWith(s, NAME_KEY) then StripKey(s[|NAME_KEY|..]) else s
  }

  function DropLeft(s: string, c: char): string {
    if s != "" && s[0] == c then DropLeft(s[1..], c) else s
  }

  function DropRight(s: string, c: char): string {
    if s != "" && s[|s| - 1] == c then DropRight(s[..|s| - 1], c) else s
  }

  /** `trim_matches(c)` */
  function Unquote(s: string, c: char): string {
    DropRight(DropLeft(s, c), c)
  }

  /** The name a line gives, if it is an nkr_name line. */
  function NameOf(l: string): Option<string> {
    var t := Trim(l);
    if StartsWith(t, NAME_KEY) then Some(Unquote(Unquote(Trim(StripKey(t)), '"'), '\'')) else None
  }

  // ---------------------------------------------------------------------------------------
  // Blocks
  // ---------------------------------------------------------------------------------------

  /** The first line with the name, or |f|. */
  function FindName(f: File, name: string, i: nat): (r: nat)
    requires i <= |f|
    ensures i <= r <= |f| && (r < |f| ==> NameOf(f[r]) == Some(name))
    ensures forall j :: i <= j < r ==> NameOf(f[j]) != Some(name)
    decreases |f| - i
  {
    hide NameOf;
    if i == |f| || NameOf(f[i]) == Some(name) then i else FindName(f, name, i + 1)
  }

  /** The last header at or before line i. */
  function HeaderBefore(f: File, i: nat): (r: Option<nat>)
    requires i < |f|
    ensures r.Some? ==> r.value <= i && IsHeader(f[r.value]) && forall j :: r.value < j <= i ==> !IsHeader(f[j])
    ensures r.None? ==> forall j :: 0 <= j <= i ==> !IsHeader(f[j])
  {
    if IsHeader(f[i]) then Some(i) else if i == 0 then None else HeaderBefore(f, i - 1)
  }

  /** The first line from i on that ends a block, or |f|. */
  function BlockEnd(f: File, i: nat): (r: nat)
    requires i <= |f|
    ensures i <= r <= |f| && (r < |f| ==> EndsBlock(f[r]))
    ensures forall j :: i <= j < r ==> !EndsBlock(f[j])
    decreases |f| - i
  {
    if i == |f| || EndsBlock(f[i]) then i else BlockEnd(f, i + 1)
  }

  datatype Block = Block(start: nat, end: nat)

  /** The block of an instance: from the header before its name to the next header or section. */
  function Locate(f: File, name: string): (b: Option<Block>)
    ensures b.Some? ==> b.value.start < b.value.end <= |f|
  {
    var i := FindName(f, name, 0);
    if i == |f| then None
    else
      match HeaderBefore(f, i)
      case None => None
      case Some(s) => Some(Block(s, BlockEnd(f, s + 1)))
  }

  /** `remove_compose_block` */
  function Remove(f: File, name: string): File {
    match Locate(f, name)
    case None => f
    case Some(b) => f[..b.start] + f[b.end..]
  }

  // ---------------------------------------------------------------------------------------
  // What a located block is
  // ---------------------------------------------------------------------------------------

  /** The character c, and only white space behind it. */
  ghost predicate EndsIn(l: string, c: char) {
    exists n :: 0 <= n < |l| && l[n] == c && !IsSpace(c) && forall i :: n < i < |l| ==> IsSpace(l[i])
  }

  /** The character c, and only white space before it. */
  ghost predicate BeginsIn(l: string, c: char) {
    exists n :: 0 <= n < |l| && l[n] == c && !IsSpace(c) && forall i :: 0 <= i < n ==> IsSpace(l[i])
  }

  /** Two spaces, something else, and a colon at the end; no list item. */
  ghost predicate Heads(l: string) {
    |l| >= 3 && l[..2] == "  " && l[2] != ' ' && EndsIn(l, ':') && !BeginsIn(l, '-')
  }

  /** A header that is no comment, or a line that is neither empty nor indented nor a comment. */
  ghost predicate Stops(l: string) {
    (Heads(l) && !BeginsIn(l, '#')) || (l != "" && l[0] != ' ' && l[0] != '#')
  }

  lemma EndsInIs(l: string)
    ensures EndsWithColon(l) <==> EndsIn(l, ':')
  {
    hide IsSpace;
    ColonIsMark();
    TrimEndFacts(l);
    var t := TrimEnd(l);
    if EndsWithColon(l) {
      assert l[|t| - 1] == ':';
    }
    if EndsIn(l, ':') {
      var n :| 0 <= n < |l| && l[n] == ':' && forall i :: n < i < |l| ==> IsSpace(l[i]);
      TrimEndIs(l, n + 1);
    }
  }

  lemma BeginsInIs(l: string, c: char)
    requires !IsSpace(c)
    ensures FirstIs(l, c) <==> BeginsIn(l, c)
  {
    hide IsSpace;
    TrimStartFacts(l);
    var t := TrimStart(l);
    if FirstIs(l, c) {
      assert l[|l| - |t|] == c;
    }
    if BeginsIn(l, c) {
      var n :| 0 <= n < |l| && l[n] == c && forall i :: 0 <= i < n ==> IsSpace(l[i]);
      TrimStartIs(l, n);
    }
  }

  lemma ColonIsMark()
    ensures !IsSpace(':') && !IsSpace('-') && !IsSpace('#')
  {
  }

  lemma HeadsIs(l: string)
    ensures IsHeader(l) <==> Heads(l)
    ensures EndsBlock(l) <==> Stops(l)
  {
    hide EndsWithColon, FirstIs, EndsIn, BeginsIn, IsSpace;
    ColonIsMark();
    EndsInIs(l);
    BeginsInIs(l, '-');
    BeginsInIs(l, '#');
    assert |l| >= 3 ==> (l[..2] == "  " <==> l[0] == ' ' && l[1] == ' ');
  }

  /** The block of a name: it begins with the last header before the first line with the name, and it ends
      where the next header or section begins. There is none exactly if there is no such line or no header
      before it. */
  lemma LocateMeans(f: File, name: string)
    ensures match Locate(f, name)
            case Some(b) =>
              && Heads(f[b.start])
              && (exists i :: b.start <= i < |f| && NameOf(f[i]) == Some(name) && (forall j :: 0 <= j < i ==> NameOf(f[j]) != Some(name))
                              && forall j :: b.start < j <= i ==> !Heads(f[j]))
              && (forall j :: b.start < j < b.end ==> !Stops(f[j]))
              && (b.end < |f| ==> Stops(f[b.end]))
            case None =>
              forall i :: 0 <= i < |f| && NameOf(f[i]) == Some(name) ==>
                exists k :: 0 <= k <= i && NameOf(f[k]) == Some(name) && forall j :: 0 <= j <= k ==> !Heads(f[j])
  {
    hide IsHeader, Heads, EndsBlock, Stops, NameOf, FindName, HeaderBefore, BlockEnd;
    forall i | 0 <= i < |f|
      ensures (IsHeader(f[i]) <==> Heads(f[i])) && (EndsBlock(f[i]) <==> Stops(f[i]))
    {
      HeadsIs(f[i]);
    }
    var i := FindName(f, name, 0);
    if i < |f| {
      assert NameOf(f[i]) == Some(name);
      var s := HeaderBefore(f, i);
      if s.Some? {
        var e := BlockEnd(f, s.value + 1);
        assert forall j :: s.value + 1 <= j < e ==> !EndsBlock(f[j]);
      }
    }
  }

  method LocateBlock(f: File, name: string) returns (r: Option<Block>)
    ensures r == Locate(f, name)
  {
    hide NameOf, IsHeader, EndsBlock;
    var start: Option<nat> := None;
    var i := 0;
    while i < |f|
      invariant i <= |f| && start == None && FindName(f, name, 0) == FindName(f, name, i)
    {
      if NameOf(f[i]) == Some(name) {
        var j := i;
        while !IsHeader(f[j]) && j > 0
          invariant j <= i && HeaderBefore(f, i) == HeaderBefore(f, j)
          decreases j
        {
          j := j - 1;
        }
        if IsHeader(f[j]) {
          start := Some(j);
        }
        break;
      }
      i := i + 1;
    }
    if start.None? {
      return None;
    }
    var e := start.value + 1;
    while e < |f| && !EndsBlock(f[e])
      invariant start.value < e <= |f| && BlockEnd(f, start.value + 1) == BlockEnd(f, e)
    {
      e := e + 1;
    }
    return Some(Block(start.value, e));
  }

  method RemoveComposeBlock(f: File, name: string) returns (kept: File)
    ensures kept == Remove(f, name)
  {
    hide Locate;
    var b := LocateBlock(f, name);
    if b.None? {
      return f;
    }
    LocateBounds(f, name);
    var start, end := b.value.start, b.value.end;
    kept := [];
    for i := 0 to |f|
      invariant i <= start ==> kept == f[..i]
      invariant start < i <= end ==> kept == f[..start]
      invariant end < i ==> kept == f[..start] + f[end..i]
    {
      if i < start || i >= end {
        kept := kept + [f[i]];
      }
    }
    assert f[end..|f|] == f[end..];
  }

  // ---------------------------------------------------------------------------------------
  // Editing a line
  // ---------------------------------------------------------------------------------------

  function Spaces(n: nat): (s: string)
    ensures |s| == n && forall i :: 0 <= i < n ==> s[i] == ' '
  {
    seq(n, _ => ' ')
  }

  /** How far a line is indented. */
  function Indent(l: string): nat {
    Lead(l, 0)
  }

  function Digit(n: nat): char
    requires n < 10
  {
    '0' + n as char
  }

  /** A number in decimal. */
  function Decimal(n: nat): (s: string)
    ensures s != "" && '0' <= s[|s| - 1] <= '9'
  {
    if n < 10 then [Digit(n)] else Decimal(n / 10) + [Digit(n % 10)]
  }

  /** `rest_trailing_comment`: the comment after a value, two spaces before it. */
  function Comment(rest: string): string {
    var t := TrimStart(rest);
    var h := Find(t, '#');
    if h < |t| then "  " + t[h..] else ""
  }

  predicate HasKey(l: string, key: string) {
    StartsWith(TrimStart(l), key)
  }

  /** The line of a key with a new value; its indentation and comment are kept. */
  function WithValue(l: string, key: string, n: nat): string
    requires HasKey(l, key)
  {
    l[..Indent(l)] + key + " " + Decimal(n) + Comment(TrimStart(l)[|key|..])
  }

  // ---------------------------------------------------------------------------------------
  // disabled
  // ---------------------------------------------------------------------------------------

  const DISABLED: string := "disabled:"

  function DisabledLine(l: string, disabled: bool): string {
    Spaces(Indent(l)) + DISABLED + (if disabled then " true" else " false")
  }

  /** The lines with the flag set on each `disabled:` line of the block. */
  function Flip(f: File, b: Block, disabled: bool): File
    requires b.end <= |f|
  {
    seq(|f|, i requires 0 <= i < |f| =>
      if b.start <= i < b.end && HasKey(f[i], DISABLED) then DisabledLine(f[i], disabled) else f[i])
  }

  predicate HasDisabled(f: File, b: Block)
    requires b.end <= |f|
  {
    exists i :: b.start <= i < b.end && HasKey(f[i], DISABLED)
  }

  function InsertAt(f: File, i: nat, l: string): File
    requires i <= |f|
  {
    f[..i] + [l] + f[i..]
  }

  /** `set_compose_block_disabled`: the new lines and whether anything changed; None if there is no block. */
  function SetDisabled(f: File, name: string, disabled: bool): Option<(File, bool)> {
    match Locate(f, name)
    case None => None
    case Some(b) =>
      var g := Flip(f, b, disabled);
      if !HasDisabled(f, b) && disabled then Some((InsertAt(g, b.start + 1, "    disabled: true"), true))
      else Some((if g == f then f else g, g != f))
  }

  method SetComposeBlockDisabled(f: File, name: string, disabled: bool) returns (r: Option<(File, bool)>)
    ensures r == SetDisabled(f, name, disabled)
  {
    hide HasKey, DisabledLine, Locate;
    var b := LocateBlock(f, name);
    if b.None? {
      return None;
    }
    var start, end := b.value.start, b.value.end;
    LocateBounds(f, name);
    var lines: File := [];
    var found, changed := false, false;
    for i := 0 to |f|
      invariant lines == Flip(f, b.value, disabled)[..i]
      invariant found <==> exists j :: start <= j < end && j < i && HasKey(f[j], DISABLED)
      invariant changed <==> lines != f[..i]
    {
      var line := f[i];
      if i >= start && i < end && HasKey(f[i], DISABLED) {
        found := true;
        line := DisabledLine(f[i], disabled);
        if line != f[i] {
          changed := true;
        }
      }
      assert Flip(f, b.value, disabled)[i] == line;
      assert f[..i + 1] == f[..i] + [f[i]];
      ghost var before := lines;
      lines := lines + [line];
      assert lines[i] == line && lines[..i] == before;
    }
    assert f[..|f|] == f && Flip(f, b.value, disabled)[..|f|] == Flip(f, b.value, disabled);
    if !found && disabled {
      lines := InsertAt(lines, start + 1, "    disabled: true");
      changed := true;
    }
    if !changed {
      return Some((f, false));
    }
    return Some((lines, true));
  }

  lemma LocateBounds(f: File, name: string)
    ensures Locate(f, name).Some? ==> Locate(f, name).value.start < Locate(f, name).value.end <= |f|
  {
  }

  // ---------------------------------------------------------------------------------------
  // ram, chrs, balloon_mb
  // ---------------------------------------------------------------------------------------

  datatype Resources = Resources(ram: Option<nat>, chrs: Option<nat>, balloon: Option<nat>)

  const RAM: string := "ram:"
  const CHRS: string := "chrs:"
  const BALLOON: string := "balloon_mb:"

  /** What is still to be done, and the lines so far. */
  datatype Patching = Patching(lines: File, left: Resources)

  /** One turn of the loop over the block. */
  function PatchLine(p: Patching, i: nat): (q: Patching)
    requires i < |p.lines|
    ensures |q.lines| == |p.lines|
  {
    var l := p.lines[i];
    if p.left.ram.Some? && HasKey(l, RAM) then
      Patching(p.lines[i := WithValue(l, RAM, p.left.ram.value)], p.left.(ram := None))
    else if p.left.chrs.Some? && HasKey(l, CHRS) then
      Patching(p.lines[i := WithValue(l, CHRS, p.left.chrs.value)], p.left.(chrs := None))
    else if p.left.balloon.Some? && HasKey(l, BALLOON) then
      Patching(p.lines[i := WithValue(l, BALLOON, p.left.balloon.value)], p.left.(balloon := None))
    else p
  }

  function PatchRange(p: Patching, i: nat, end: nat): (q: Patching)
    requires i <= end <= |p.lines|
    ensures |q.lines| == |p.lines|
    decreases end - i
  {
    if i == end then p else PatchRange(PatchLine(p, i), i + 1, end)
  }

  /** The line that is inserted for a key the block does not have. */
  function NewLine(key: string, n: nat): string {
    "    " + key + " " + Decimal(n)
  }

  function Missing(key: string, v: Option<nat>): File {
    if v.Some? then [NewLine(key, v.value)] else []
  }

  function MissingLines(left: Resources): File {
    Missing(CHRS, left.chrs) + Missing(RAM, left.ram) + Missing(BALLOON, left.balloon)
  }

  /** `patch_compose_block_resources`; None if there is no block. */
  function PatchResources(f: File, name: string, want: Resources): Option<File> {
    match Locate(f, name)
    case None => None
    case Some(b) =>
      var p := PatchRange(Patching(f, want), b.start + 1, b.end);
      Some(p.lines[..b.start + 1] + MissingLines(p.left) + p.lines[b.start + 1..])
  }

  /** Once everything is done the rest of the block is left alone. */
  lemma {:induction false} NothingLeft(p: Patching, i: nat, end: nat)
    requires i <= end <= |p.lines| && p.left == Resources(None, None, None)
    ensures PatchRange(p, i, end) == p
    decreases end - i
  {
    if i < end {
      NothingLeft(p, i + 1, end);
    }
  }

  method PatchComposeBlockResources(f: File, name: string, want: Resources) returns (r: Option<File>)
    ensures r == if want == Resources(None, None, None) then Some(f) else PatchResources(f, name, want)
  {
    hide Locate, HasKey, WithValue, MissingLines;
    if want == Resources(None, None, None) {
      return Some(f);
    }
    var b := LocateBlock(f, name);
    if b.None? {
      return None;
    }
    LocateBounds(f, name);
    var start, end := b.value.start, b.value.end;
    var out := f;
    var left := want;
    var i := start + 1;
    while i < end
      invariant start < i <= end && |out| == |f|
      invariant PatchRange(Patching(out, left), i, end) == PatchRange(Patching(f, want), start + 1, end)
    {
      assert PatchRange(Patching(out, left), i, end) == PatchRange(PatchLine(Patching(out, left), i), i + 1, end);
      if left.ram.Some? && HasKey(out[i], RAM) {
        out, left := out[i := WithValue(out[i], RAM, left.ram.value)], left.(ram := None);
      } else if left.chrs.Some? && HasKey(out[i], CHRS) {
        out, left := out[i := WithValue(out[i], CHRS, left.chrs.value)], left.(chrs := None);
      } else if left.balloon.Some? && HasKey(out[i], BALLOON) {
        out, left := out[i := WithValue(out[i], BALLOON, left.balloon.value)], left.(balloon := None);
      }
      i := i + 1;
      if left.ram.None? && left.chrs.None? && left.balloon.None? {
        NothingLeft(Patching(out, left), i, end);
        break;
      }
    }
    assert PatchRange(Patching(f, want), start + 1, end) == Patching(out, left);
    var lines := AddMissing(out, start + 1, left);
    return Some(lines);
  }

  lemma InsertAfter(f: File, at: nat, a: File, l: string)
    requires at <= |f|
    ensures InsertAt(f[..at] + a + f[at..], at + |a|, l) == f[..at] + (a + [l]) + f[at..]
  {
  }

  /** The keys the block did not have go after its header. */
  method AddMissing(f: File, at: nat, left: Resources) returns (out: File)
    requires at <= |f|
    ensures out == f[..at] + MissingLines(left) + f[at..]
  {
    hide NewLine, InsertAt;
    ghost var a, b, c := Missing(CHRS, left.chrs), Missing(RAM, left.ram), Missing(BALLOON, left.balloon);
    out := f;
    assert f == f[..at] + [] + f[at..];
    var insertAt := at;
    if left.chrs.Some? {
      InsertAfter(f, at, [], NewLine(CHRS, left.chrs.value));
      out := InsertAt(out, insertAt, NewLine(CHRS, left.chrs.value));
      insertAt := insertAt + 1;
    }
    assert out == f[..at] + a + f[at..] && insertAt == at + |a|;
    if left.ram.Some? {
      InsertAfter(f, at, a, NewLine(RAM, left.ram.value));
      out := InsertAt(out, insertAt, NewLine(RAM, left.ram.value));
      insertAt := insertAt + 1;
    }
    assert out == f[..at] + (a + b) + f[at..] && insertAt == at + |a + b|;
    if left.balloon.Some? {
      InsertAfter(f, at, a + b, NewLine(BALLOON, left.balloon.value));
      out := InsertAt(out, insertAt, NewLine(BALLOON, left.balloon.value));
    }
    assert out == f[..at] + (a + b + c) + f[at..];
  }
}
