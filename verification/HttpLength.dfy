/**
 Which length a header block announces, and that a request with such a block is read as it was sent.
 */
module HttpLength {
  import opened Wrappers
  import opened Lines
  import opened LogReaders
  import opened HttpReader

  // ---------------------------------------------------------------------------------------
  // Numbers
  // ---------------------------------------------------------------------------------------

  predicate IsDigit(b: Byte) {
    '0' as int <= b <= '9' as int
  }

  predicate AllDigits(s: Bytes) {
    s != [] && forall i :: 0 <= i < |s| ==> IsDigit(s[i])
  }

  function Power(e: nat): nat {
    if e == 0 then 1 else 10 * Power(e - 1)
  }

  /** The number that decimal digits stand for: each digit times its power of ten. */
  function Number(s: Bytes): int {
    if s == [] then 0 else (s[0] - '0' as int) * Power(|s| - 1) + Number(s[1..])
  }

  lemma {:induction false} DigitsAre(s: Bytes, value: nat)
    requires forall i :: 0 <= i < |s| ==> IsDigit(s[i])
    ensures Number(s) >= 0 && Digits(s, value) == Some(value * Power(|s|) + Number(s))
    decreases |s|
  {
    if s != [] {
      var d := s[0] - '0' as int;
      DigitsAre(s[1..], value * 10 + d);
      Spread(value, d, Power(|s| - 1));
      assert d * Power(|s| - 1) >= 0;
    }
  }

  lemma Spread(v: nat, d: nat, p: nat)
    ensures (v * 10 + d) * p == v * (10 * p) + d * p
  {
  }

  lemma {:induction false} NotDigits(s: Bytes, value: nat)
    requires exists i :: 0 <= i < |s| && !IsDigit(s[i])
    ensures Digits(s, value).None?
    decreases |s|
  {
    if IsDigit(s[0]) {
      var i :| 0 <= i < |s| && !IsDigit(s[i]);
      assert s[1..][i - 1] == s[i];
      NotDigits(s[1..], value * 10 + (s[0] - 48));
    }
  }

  /** What follows an optional plus sign. */
  function Unsigned(s: Bytes): Bytes {
    if s != [] && s[0] == '+' as int then s[1..] else s
  }

  /** A field value is a number exactly if it is decimal digits that fit 64 bits. */
  lemma ParsedNumber(s: Bytes)
    ensures var d := Unsigned(s);
            ParseUsize(s) == if AllDigits(d) && Number(d) < 0x1_0000_0000_0000_0000 then Some(Number(d)) else None
  {
    var d := Unsigned(s);
    if AllDigits(d) {
      DigitsAre(d, 0);
    } else if d != [] {
      NotDigits(d, 0);
    }
  }

  // ---------------------------------------------------------------------------------------
  // White space and names
  // ---------------------------------------------------------------------------------------

  predicate Blank(s: Bytes) {
    forall i :: 0 <= i < |s| ==> s[i] in [9, 10, 11, 12, 13, 32]
  }

  /** The text begins and ends with something else than white space, or is empty. */
  predicate Tight(s: Bytes) {
    s == [] || (s[0] !in [9, 10, 11, 12, 13, 32] && s[|s| - 1] !in [9, 10, 11, 12, 13, 32])
  }

  lemma {:induction false} TrimLeftIs(a: Bytes, s: Bytes)
    requires Blank(a) && (s == [] || s[0] !in [9, 10, 11, 12, 13, 32])
    ensures TrimLeft(a + s) == s
    decreases |a|
  {
    if a == [] {
      assert a + s == s;
    } else {
      assert (a + s)[0] == a[0] && (a + s)[1..] == a[1..] + s;
      TrimLeftIs(a[1..], s);
    }
  }

  lemma {:induction false} TrimRightIs(s: Bytes, b: Bytes)
    requires Blank(b) && (s == [] || s[|s| - 1] !in [9, 10, 11, 12, 13, 32])
    ensures TrimRight(s + b) == s
    decreases |b|
  {
    if b == [] {
      assert s + b == s;
    } else {
      var n := |b| - 1;
      var t := s + b;
      assert t[|t| - 1] == b[n];
      assert t[..|t| - 1] == s + b[..n];
      assert IsSpace(b[n]);
      TrimRightIs(s, b[..n]);
    }
  }

  /** Trimming takes away the white space around a text. */
  lemma TrimIs(a: Bytes, s: Bytes, b: Bytes)
    requires Blank(a) && Blank(b) && Tight(s)
    ensures Trim(a + s + b) == s
  {
    if s == [] {
      assert a + s + b == (a + b) + [];
      TrimLeftIs(a + b, []);
    } else {
      assert a + s + b == a + (s + b);
      TrimLeftIs(a, s + b);
      TrimRightIs(s, b);
    }
  }

  lemma {:induction false} TrimLeftParts(s: Bytes) returns (a: Bytes)
    ensures Blank(a) && s == a + TrimLeft(s) && (TrimLeft(s) != [] ==> TrimLeft(s)[0] !in [9, 10, 11, 12, 13, 32])
    decreases |s|
  {
    if s == [] || !IsSpace(s[0]) {
      a := [];
    } else {
      var r := TrimLeftParts(s[1..]);
      a := [s[0]] + r;
    }
  }

  lemma {:induction false} TrimRightParts(s: Bytes) returns (b: Bytes)
    ensures Blank(b) && s == TrimRight(s) + b
    decreases |s|
  {
    if s == [] || !IsSpace(s[|s| - 1]) {
      b := [];
    } else {
      var r := TrimRightParts(s[..|s| - 1]);
      b := r + [s[|s| - 1]];
    }
  }

  function LowerCase(b: Byte): Byte {
    if 'A' as int <= b <= 'Z' as int then b - 'A' as int + 'a' as int else b
  }

  /** The name in any case, with white space around it. */
  ghost predicate NamesLength(k: Bytes) {
    exists a: Bytes, w: Bytes, b: Bytes :: k == a + w + b && Blank(a) && Blank(b) && IsLengthName(w)
  }

  predicate IsLengthName(w: Bytes) {
    |w| == 14 && forall i :: 0 <= i < 14 ==> LowerCase(w[i]) == "content-length"[i] as int
  }

  lemma LengthName(w: Bytes)
    ensures SameName(w, CONTENT_LENGTH) <==> IsLengthName(w)
    ensures IsLengthName(w) ==> Tight(w)
  {
    var name := "content-length";
    assert forall i :: 0 <= i < 14 ==> CONTENT_LENGTH[i] == name[i] as int;
    assert forall i :: 0 <= i < 14 ==> LowerByte(CONTENT_LENGTH[i]) == CONTENT_LENGTH[i];
    if IsLengthName(w) {
      assert LowerCase(w[0]) == 'c' as int && LowerCase(w[13]) == 'h' as int;
    }
  }

  lemma NameIs(k: Bytes)
    ensures SameName(Trim(k), CONTENT_LENGTH) <==> NamesLength(k)
  {
    hide SameName, IsLengthName, TrimLeft, TrimRight;
    LengthName(Trim(k));
    if SameName(Trim(k), CONTENT_LENGTH) {
      var a := TrimLeftParts(k);
      var b := TrimRightParts(TrimLeft(k));
      assert k == a + Trim(k) + b;
    }
    if NamesLength(k) {
      var a, w, b :| k == a + w + b && Blank(a) && Blank(b) && IsLengthName(w);
      LengthName(w);
      TrimIs(a, w, b);
    }
  }

  // ---------------------------------------------------------------------------------------
  // The header line
  // ---------------------------------------------------------------------------------------

  /** A line with a colon whose first part names the length. */
  ghost predicate LengthLine(l: Bytes, k: Bytes, v: Bytes) {
    l == k + [':' as int] + v && ':' as int !in k && NamesLength(k)
  }

  ghost predicate TellsLength(l: Bytes) {
    exists k, v :: LengthLine(l, k, v)
  }

  lemma TellsIt(l: Bytes, k: Bytes, v: Bytes)
    requires LengthLine(l, k, v)
    ensures TellsLength(l)
  {
  }

  lemma ColonAt(k: Bytes, v: Bytes)
    requires ':' as int !in k
    ensures var l := k + [':' as int] + v; IndexOf(l, 58) == |k| && l[..|k|] == k && l[|k| + 1..] == v
  {
    var l := k + [':' as int] + v;
    assert l[|k|] == 58 && forall j :: 0 <= j < |k| ==> l[j] == k[j];
    IndexFound(l, |k|, 58);
  }

  /** The first such line decides. */
  lemma {:induction false} FirstLengthLine(before: seq<Bytes>, l: Bytes, after: seq<Bytes>, k: Bytes, v: Bytes)
    requires LengthLine(l, k, v) && forall i :: 0 <= i < |before| ==> !TellsLength(before[i])
    ensures LengthIn(before + [l] + after) == match ParseUsize(Trim(v)) case Some(n) => n case None => 0
    decreases |before|
  {
    hide SameName, NamesLength, ParseUsize, Trim, TellsLength;
    var lines := before + [l] + after;
    if before == [] {
      assert lines[0] == l;
      ColonAt(k, v);
      NameIs(k);
    } else {
      assert lines[0] == before[0] && lines[1..] == before[1..] + [l] + after;
      assert forall i :: 0 <= i < |before[1..]| ==> before[1..][i] == before[i + 1];
      FirstLengthLine(before[1..], l, after, k, v);
      NoLengthLine(before[0]);
    }
  }

  lemma SplitAt(l: Bytes, c: nat)
    requires c < |l|
    ensures l == l[..c] + [l[c]] + l[c + 1..]
  {
  }

  lemma SplitAtColon(l: Bytes)
    requires IndexOf(l, 58) < |l|
    ensures var c := IndexOf(l, 58); l == l[..c] + [':' as int] + l[c + 1..] && ':' as int !in l[..c]
  {
    var c := IndexOf(l, 58);
    assert l[c] == 58;
    SplitAt(l, c);
    forall i | 0 <= i < c
      ensures l[..c][i] != 58
    {
    }
  }

  lemma NoLengthLine(l: Bytes)
    requires !TellsLength(l)
    ensures var c := IndexOf(l, 58); !(c < |l| && SameName(Trim(l[..c]), CONTENT_LENGTH))
  {
    hide SameName, NamesLength, Trim, IndexOf, TellsLength;
    var c := IndexOf(l, 58);
    if c < |l| {
      NameIs(l[..c]);
      SplitAtColon(l);
      if NamesLength(l[..c]) {
        TellsIt(l, l[..c], l[c + 1..]);
      }
    }
  }

  lemma {:induction false} NoLengthLines(lines: seq<Bytes>)
    requires forall i :: 0 <= i < |lines| ==> !TellsLength(lines[i])
    ensures LengthIn(lines) == 0
    decreases |lines|
  {
    hide SameName, TellsLength, ParseUsize, Trim;
    if lines != [] {
      NoLengthLine(lines[0]);
      assert forall i :: 0 <= i < |lines[1..]| ==> lines[1..][i] == lines[i + 1];
      NoLengthLines(lines[1..]);
    }
  }

  // ---------------------------------------------------------------------------------------
  // The request
  // ---------------------------------------------------------------------------------------

  const CRLF_CRLF: Bytes := [13, 10, 13, 10]

  /** The head announces n: among its lines the first that names the length gives n in decimal, with
      white space around it. */
  ghost predicate Announces(head: Bytes, n: nat) {
    exists before: seq<Bytes>, l: Bytes, after: seq<Bytes>, k: Bytes, a: Bytes, d: Bytes, b: Bytes ::
      && BytesLines(head) == before + [l] + after && LengthLine(l, k, a + d + b)
      && (forall i :: 0 <= i < |before| ==> !TellsLength(before[i]))
      && Blank(a) && Blank(b) && AllDigits(Unsigned(d)) && Number(Unsigned(d)) == n
  }

  lemma AnnouncedLength(head: Bytes, n: nat)
    requires Announces(head, n) && n < 0x1_0000_0000_0000_0000
    ensures ContentLength(head) == n
  {
    hide LengthLine, TellsLength, LengthIn, BytesLines, Number, ParseUsize, Blank, Trim, AllDigits;
    var before, l, after, k, a, d, b :| && BytesLines(head) == before + [l] + after && LengthLine(l, k, a + d + b)
      && (forall i :: 0 <= i < |before| ==> !TellsLength(before[i]))
      && Blank(a) && Blank(b) && AllDigits(Unsigned(d)) && Number(Unsigned(d)) == n;
    FirstLengthLine(before, l, after, k, a + d + b);
    DigitsAreTight(d);
    TrimIs(a, d, b);
    ParsedNumber(d);
  }

  lemma DigitsAreTight(d: Bytes)
    requires AllDigits(Unsigned(d))
    ensures Tight(d)
  {
    var u := Unsigned(d);
    assert u[|u| - 1] == d[|d| - 1];
  }

  predicate EmptyLineAt(s: Bytes, i: nat) {
    i + 4 <= |s| && s[i..i + 4] == CRLF_CRLF
  }

  /** The head holds no empty line before its end. */
  predicate OneBlock(head: Bytes) {
    forall i :: 0 <= i < |head| ==> !EmptyLineAt(head + CRLF_CRLF, i)
  }

  lemma BlockEnds(head: Bytes, rest: Bytes)
    requires OneBlock(head)
    ensures FindDoubleCrlf(head + CRLF_CRLF + rest, 0) == Some(|head|)
  {
    hide FindDoubleCrlf;
    var data := head + CRLF_CRLF + rest;
    assert TERMINATOR == CRLF_CRLF;
    assert data[|head|..|head| + 4] == CRLF_CRLF;
    forall i | 0 <= i < |head|
      ensures !EndsAt(data, i)
    {
      assert !EmptyLineAt(head + CRLF_CRLF, i);
      assert data[i..i + 4] == (head + CRLF_CRLF)[i..i + 4];
    }
    assert EndsAt(data, |head|);
  }

  /** A request whose head ends within 64 KiB and announces the length of its body, up to 1 MiB, is read
      as it was sent, in whatever pieces it comes and whatever follows; one that announces more is
      rejected. */
  lemma RequestIsRead(head: Bytes, body: Bytes, more: Bytes, n: nat, plan: seq<nat>)
    requires OneBlock(head) && |head| + 4 <= 0x1_0001 && Announces(head, n) && n < 0x1_0000_0000_0000_0000
    ensures |body| == n <= 1024 * 1024 ==>
              Outcome(head + CRLF_CRLF + (body + more), plan) == Some(Request(head, body))
    ensures n > 1024 * 1024 ==> Outcome(head + CRLF_CRLF + (body + more), plan).None?
  {
    hide FindDoubleCrlf, OneBlock, Announces, ContentLength, Outcome;
    var data := head + CRLF_CRLF + (body + more);
    BlockEnds(head, body + more);
    AnnouncedLength(head, n);
    assert data[..|head|] == head && data[|head| + 4..] == body + more;
    OnlyTheBytesMatter(data, plan, |head|);
    assert |body| == n ==> (body + more)[..n] == body;
  }

  /** Without such a line, or with one that gives no number, the body is empty. */
  lemma NoLengthNoBody(head: Bytes, rest: Bytes, plan: seq<nat>)
    requires OneBlock(head) && |head| + 4 <= 0x1_0001
    requires forall i :: 0 <= i < |BytesLines(head)| ==> !TellsLength(BytesLines(head)[i])
    ensures Outcome(head + CRLF_CRLF + rest, plan) == Some(Request(head, []))
  {
    hide FindDoubleCrlf, OneBlock, TellsLength, LengthIn, Outcome, BytesLines;
    var data := head + CRLF_CRLF + rest;
    BlockEnds(head, rest);
    NoLengthLines(BytesLines(head));
    assert data[..|head|] == head;
    OnlyTheBytesMatter(data, plan, |head|);
  }
}
