/**
 The two log readers of the API: the last lines of a file, read backwards in chunks, and pages
 of a growing file, read forwards from a byte offset. Lines are sequences of bytes.
 */
module LogReaders {
  import opened Wrappers
  import opened Lines

  type Byte = b: nat | b < 256
  type Bytes = seq<Byte>

  const NL: Byte := 10
  const CR: Byte := 13
  const CHUNK: nat := 64 * 1024

  function Min(a: nat, b: nat): nat {
    if a < b then a else b
  }

  function BytesLines(s: Bytes): seq<Bytes> {
    LinesOf(s, NL, CR)
  }

  // ---------------------------------------------------------------------------------------
  // The last lines
  // ---------------------------------------------------------------------------------------

  /** The last min(|file|, maxBytes) bytes. */
  function Suffix(file: Bytes, maxBytes: nat): Bytes {
    file[|file| - Min(|file|, maxBytes)..]
  }

  function LastN<T>(ls: seq<T>, n: nat): seq<T> {
    ls[|ls| - Min(|ls|, n)..]
  }

  /** What is asked for: of the last maxBytes bytes, cut into lines at each newline, the last maxLines. */
  lemma TailIs(file: Bytes, maxLines: nat, maxBytes: nat)
    ensures var from := if |file| <= maxBytes then 0 else |file| - maxBytes; var all := LinesOf(file[from..], 10, 13);
            LastN(BytesLines(Suffix(file, maxBytes)), maxLines) ==
              all[if |all| <= maxLines then 0 else |all| - maxLines..]
  {
    hide LinesOf;
  }

  /** Bytes in front of a buffer with more than n newlines do not change its last n lines: what
      they change is its first line, and that one is not among them. */
  lemma EarlyStop(front: Bytes, buf: Bytes, n: nat)
    requires Count(buf, NL) > n
    ensures LastN(BytesLines(buf), n) == LastN(BytesLines(front + buf), n)
  {
    hide Count, LinesOf;
    LinesTail(front, buf, NL, CR);
    LineCount(buf, NL, CR);
    var all, last := BytesLines(front + buf), BytesLines(buf);
    assert LastN(last, n) == last[1..][|last| - 1 - n..];
    assert LastN(all, n) == all[|all| - |last| + 1..][|last| - 1 - n..];
  }

  /** Reading 64 KiB chunks backwards and stopping on the newline count gives exactly the last
      lines of the whole suffix. */
  method ReadTailLines(file: Bytes, maxLines: nat, maxBytes: nat) returns (lines: seq<Bytes>)
    ensures lines == LastN(BytesLines(Suffix(file, maxBytes)), maxLines)
  {
    var fileSize := |file|;
    var readCap := Min(fileSize, maxBytes);
    var startOff := fileSize - readCap;
    var buf: Bytes := [];
    var pos := fileSize;
    var enough := false;
    while pos > startOff && !enough
      invariant startOff <= pos <= fileSize && buf == file[pos..]
      invariant enough ==> Count(buf, NL) > maxLines
      decreases pos, !enough
    {
      var chunkStart := if pos < CHUNK || pos - CHUNK < startOff then startOff else pos - CHUNK;
      buf := file[chunkStart..pos] + buf;
      pos := chunkStart;
      enough := Count(buf, NL) > maxLines;
    }
    if enough {
      EarlyStop(file[startOff..pos], buf, maxLines);
      assert Suffix(file, maxBytes) == file[startOff..pos] + buf;
    }
    lines := LastN(BytesLines(buf), maxLines);
  }

  // ---------------------------------------------------------------------------------------
  // A page
  // ---------------------------------------------------------------------------------------

  /** The position of the last newline of s, if any. */
  function LastNewline(s: Bytes): (r: Option<nat>)
    ensures r.None? ==> NL !in s
    ensures r.Some? ==> r.value < |s| && s[r.value] == NL && NL !in s[r.value + 1..]
  {
    if s == [] then None
    else if s[|s| - 1] == NL then Some(|s| - 1)
    else
      var r := LastNewline(s[..|s| - 1]);
      assert s == s[..|s| - 1] + [s[|s| - 1]];
      if r.Some? then
        assert s[r.value + 1..] == s[..|s| - 1][r.value + 1..] + [s[|s| - 1]];
        r
      else r
  }

  /** How far a page goes: to the end of its last line. */
  function PageEnd(window: Bytes, maxLines: nat): nat {
    EndOfLine(window, Min(maxLines, Count(window, NL)), NL)
  }

  lemma {:induction false} NoNewline(s: Bytes)
    requires NL !in s
    ensures Count(s, NL) == 0
    decreases |s|
  {
    if s != [] {
      NoNewline(s[1..]);
    }
  }

  /** After the last newline there is none, so the last newline ends line number Count. */
  lemma {:induction false} EndOfLast(s: Bytes, p: nat)
    requires p < |s| && s[p] == NL && NL !in s[p + 1..]
    ensures Count(s, NL) > 0 && EndOfLine(s, Count(s, NL), NL) == p + 1
    decreases |s|
  {
    hide Count, EndOfLine, IndexOf;
    CountCut(s, NL);
    var i := IndexOf(s, NL) + 1;
    var rest := s[i..];
    EndStep(s, Count(s, NL), NL);
    if i == p + 1 {
      NoNewline(rest);
      EndStep(rest, 0, NL);
    } else {
      assert rest[p - i + 1..] == s[p + 1..];
      EndOfLast(rest, p - i);
    }
  }

  /** Up to maxLines lines of the window, and how many bytes they take: the loop that looks for
      the end of the last line returned. */
  method CutAfter(slice: Bytes, maxLines: nat) returns (consumed: nat)
    requires 0 < maxLines <= Count(slice, NL)
    ensures consumed == EndOfLine(slice, maxLines, NL)
  {
    hide Count, EndOfLine, IndexOf;
    consumed := 0;
    var count := 0;
    var i := 0;
    assert slice[0..] == slice;
    while i < |slice|
      invariant i <= |slice| && 0 <= count < maxLines
      invariant maxLines - count <= Count(slice[i..], NL)
      invariant i + EndOfLine(slice[i..], maxLines - count, NL) == EndOfLine(slice, maxLines, NL)
    {
      ghost var here := slice[i..];
      assert here[1..] == slice[i + 1..];
      if slice[i] == NL {
        TakeNewline(here, maxLines - count);
        count := count + 1;
        if count == maxLines {
          consumed := i + 1;
          return;
        }
      } else {
        SkipByte(here, maxLines - count);
      }
      i := i + 1;
    }
  }

  lemma TakeNewline(s: Bytes, k: nat)
    requires s != [] && s[0] == NL && 0 < k <= Count(s, NL)
    ensures k - 1 <= Count(s[1..], NL)
    ensures EndOfLine(s, k, NL) == 1 + EndOfLine(s[1..], k - 1, NL)
    ensures k == 1 ==> EndOfLine(s, k, NL) == 1
  {
    EndStep(s, k, NL);
    EndStep(s[1..], k - 1, NL);
  }

  lemma SkipByte(s: Bytes, k: nat)
    requires s != [] && s[0] != NL && 0 < k <= Count(s, NL)
    ensures k <= Count(s[1..], NL) && EndOfLine(s, k, NL) == 1 + EndOfLine(s[1..], k, NL)
  {
    CountCut(s, NL);
    CountCut(s[1..], NL);
    var i := IndexOf(s, NL);
    assert s[1..][i..] == s[i + 1..];
  }

  /** `read_forward_lines` on a file it can read, where the read returns `got` bytes: exactly the
      first maxLines complete lines of those bytes, and the offset after them. */
  method ReadForwardLines(file: Bytes, start: nat, maxLines: nat, got: nat) returns (lines: seq<Bytes>, next: nat)
    requires start + got <= |file|
    ensures var window := file[start..start + got];
            lines == BytesLines(window[..PageEnd(window, maxLines)]) && next == start + PageEnd(window, maxLines)
  {
    hide Count, EndOfLine, IndexOf, LinesOf;
    var buf := file[start..start + got];
    var lastNl := LastNewline(buf);
    if lastNl.None? {
      NoNewline(buf);
      EndStep(buf, 0, NL);
      Empty(NL, CR);
      return [], start;
    }
    var slice := buf[..lastNl.value + 1];
    EndOfLast(buf, lastNl.value);
    FirstLines(buf, Count(buf, NL), NL, CR);
    LineCount(slice, NL, CR);
    lines := BytesLines(slice);
    if |lines| > maxLines {
      lines := lines[..maxLines];
      FirstLines(buf, maxLines, NL, CR);
      SliceEnds(buf, slice, maxLines);
      var consumed := 0;
      EndStep(slice, 0, NL);
      if maxLines > 0 {
        consumed := CutAfter(slice, maxLines);
      }
      return lines, start + consumed;
    }
    return lines, start + |slice|;
  }

  /** Dropping what follows the last newline does not move the ends of lines. */
  lemma {:induction false} SliceEnds(s: Bytes, slice: Bytes, k: nat)
    requires slice <= s && k <= Count(slice, NL) <= Count(s, NL)
    ensures EndOfLine(slice, k, NL) == EndOfLine(s, k, NL)
    decreases k
  {
    hide Count, EndOfLine, IndexOf;
    EndStep(s, k, NL);
    EndStep(slice, k, NL);
    if k > 0 {
      CountCut(s, NL);
      CountCut(slice, NL);
      var i := IndexOf(slice, NL);
      IndexFound(s, i, NL);
      CountAppend(slice[i + 1..], s[|slice|..], NL);
      assert s[i + 1..] == slice[i + 1..] + s[|slice|..];
      SliceEnds(s[i + 1..], slice[i + 1..], k - 1);
    }
  }

  // ---------------------------------------------------------------------------------------
  // Paging a growing log
  // ---------------------------------------------------------------------------------------

  lemma PageEndsLine(w: Bytes, maxLines: nat)
    ensures PageEnd(w, maxLines) <= |w|
    ensures PageEnd(w, maxLines) > 0 ==> w[PageEnd(w, maxLines) - 1] == NL
  {
  }

  /** A log that only grows, the reader's offset, and the lines it has been given. */
  datatype Paging = Paging(log: Bytes, offset: nat, collected: seq<Bytes>)

  datatype Event =
    | Append(bytes: Bytes)
    | Page(maxLines: nat, got: nat)        // a read of at most `got` bytes

  function Window(s: Paging, got: nat): Bytes
    requires s.offset <= |s.log|
  {
    s.log[s.offset..s.offset + Min(got, |s.log| - s.offset)]
  }

  function Next(s: Paging, e: Event): (t: Paging)
    requires s.offset <= |s.log|
    ensures t.offset <= |t.log|
  {
    match e
    case Append(bytes) => s.(log := s.log + bytes)
    case Page(maxLines, got) =>
      var w := Window(s, got);
      s.(offset := s.offset + PageEnd(w, maxLines), collected := s.collected + BytesLines(w[..PageEnd(w, maxLines)]))
  }

  function Run(s: Paging, es: seq<Event>): Paging
    requires s.offset <= |s.log|
    decreases |es|
  {
    if es == [] then s else Run(Next(s, es[0]), es[1..])
  }

  /** The reader stands at the start of a line and has been given all lines before it, once and in order. */
  ghost predicate Inv(s: Paging) {
    && s.offset <= |s.log|
    && (s.offset > 0 ==> s.log[s.offset - 1] == NL)
    && s.collected == BytesLines(s.log[..s.offset])
  }

  lemma NextInv(s: Paging, e: Event)
    requires Inv(s)
    ensures Inv(Next(s, e))
  {
    hide LinesOf, PageEnd;
    match e
    case Append(bytes) =>
      assert (s.log + bytes)[..s.offset] == s.log[..s.offset];
    case Page(maxLines, got) =>
      var w := Window(s, got);
      var n := PageEnd(w, maxLines);
      PageEndsLine(w, maxLines);
      LinesAppend(s.log[..s.offset], w[..n], NL, CR);
      assert s.log[..s.offset + n] == s.log[..s.offset] + w[..n];
  }

  /** For any page sizes, any short reads and any growth in between, paging from 0 gives every
      line up to the offset exactly once and in order, and each offset is just after a newline. */
  lemma {:induction false} PagesAreExact(s: Paging, es: seq<Event>)
    requires Inv(s)
    ensures Inv(Run(s, es))
    decreases |es|
  {
    hide Inv, Next;
    if es != [] {
      assert s.offset <= |s.log| by { InvBounds(s); }
      NextInv(s, es[0]);
      InvBounds(Next(s, es[0]));
      PagesAreExact(Next(s, es[0]), es[1..]);
    }
  }

  lemma InvBounds(s: Paging)
    requires Inv(s)
    ensures s.offset <= |s.log|
  {
  }

  /** A page makes progress exactly when the bytes read contain a newline and a line is asked
      for; so a line longer than the read is never passed. */
  lemma Progress(s: Paging, maxLines: nat, got: nat)
    requires s.offset <= |s.log|
    ensures Next(s, Page(maxLines, got)).offset > s.offset <==> NL in Window(s, got) && maxLines > 0
  {
    var w := Window(s, got);
    if NL in w {
      CountCut(w, NL);
      var i := IndexOf(w, NL);
      var j :| 0 <= j < |w| && w[j] == NL;
      assert i <= j;
    } else {
      NoNewline(w);
    }
  }

  /** A page that reads to the end leaves no complete line behind exactly if it asks for as many
      lines as there are. */
  lemma CatchesUp(s: Paging, maxLines: nat, got: nat)
    requires Inv(s) && got >= |s.log| - s.offset
    ensures var t := Next(s, Page(maxLines, got));
            NL !in t.log[t.offset..] <==> Count(Window(s, got), NL) <= maxLines
  {
    hide Count, EndOfLine, LinesOf, LastNewline;
    var w := Window(s, got);
    assert w == s.log[s.offset..] by { WholeWindow(s, got); }
    var k := Min(maxLines, Count(w, NL));
    LinesLeft(w, k);
    var t := Next(s, Page(maxLines, got));
    assert t.log[t.offset..] == w[EndOfLine(w, k, NL)..];
    NoneIsZero(t.log[t.offset..]);
  }

  /** After the k-th newline the others are left. */
  lemma {:induction false} LinesLeft(w: Bytes, k: nat)
    requires k <= Count(w, NL)
    ensures Count(w[EndOfLine(w, k, NL)..], NL) == Count(w, NL) - k
    decreases k
  {
    hide Count, EndOfLine, IndexOf;
    EndStep(w, k, NL);
    if k == 0 {
      assert w[0..] == w;
    } else {
      CountCut(w, NL);
      var i := IndexOf(w, NL) + 1;
      LinesLeft(w[i..], k - 1);
      assert w[i..][EndOfLine(w[i..], k - 1, NL)..] == w[EndOfLine(w, k, NL)..];
    }
  }

  lemma NoneIsZero(s: Bytes)
    ensures NL !in s <==> Count(s, NL) == 0
  {
    hide Count, IndexOf;
    CountCut(s, NL);
    var i := IndexOf(s, NL);
    assert i < |s| ==> s[i] == NL;
  }

  lemma WholeWindow(s: Paging, got: nat)
    requires Inv(s) && got >= |s.log| - s.offset
    ensures Window(s, got) == s.log[s.offset..] && s.offset <= |s.log|
  {
    InvBounds(s);
    hide Inv;
    assert s.log[s.offset..][..|s.log| - s.offset] == s.log[s.offset..];
  }
}
