/**
 Reading one HTTP request from a stream that delivers its bytes in pieces of any size.
 */
module HttpReader {
  import opened Wrappers
  import opened Lines
  import opened LogReaders

  const CHUNK_SIZE: nat := 1024
  const HEADER_CAP: nat := 64 * 1024
  const BODY_CAP: nat := 1024 * 1024
  const TERMINATOR: Bytes := [13, 10, 13, 10]

  // ---------------------------------------------------------------------------------------
  // Headers
  // ---------------------------------------------------------------------------------------

  predicate EndsAt(s: Bytes, i: nat) {
    i + 4 <= |s| && s[i..i + 4] == TERMINATOR
  }

  /** `find_double_crlf` */
  function FindDoubleCrlf(s: Bytes, i: nat): (r: Option<nat>)
    ensures r.Some? ==> i <= r.value && EndsAt(s, r.value)
    ensures forall j :: i <= j < (if r.Some? then r.value else |s|) ==> !EndsAt(s, j)
    decreases |s| - i
  {
    if i + 4 > |s| then None
    else if EndsAt(s, i) then Some(i)
    else FindDoubleCrlf(s, i + 1)
  }

  /** White space among the bytes. */
  predicate IsSpace(b: Byte) {
    9 <= b <= 13 || b == 32
  }

  function TrimLeft(s: Bytes): Bytes {
    if s == [] || !IsSpace(s[0]) then s else TrimLeft(s[1..])
  }

  function TrimRight(s: Bytes): Bytes {
    if s == [] || !IsSpace(s[|s| - 1]) then s else TrimRight(s[..|s| - 1])
  }

  function Trim(s: Bytes): Bytes {
    TrimRight(TrimLeft(s))
  }

  function LowerByte(b: Byte): Byte {
    if 65 <= b <= 90 then b + 32 else b
  }

  /** `eq_ignore_ascii_case` */
  predicate SameName(a: Bytes, b: Bytes) {
    |a| == |b| && forall i :: 0 <= i < |a| ==> LowerByte(a[i]) == LowerByte(b[i])
  }

  /** "content-length" */
  const CONTENT_LENGTH: Bytes := [99, 111, 110, 116, 101, 110, 116, 45, 108, 101, 110, 103, 116, 104]

  function Digits(s: Bytes, value: nat): Option<nat>
    decreases |s|
  {
    if s == [] then Some(value)
    else if 48 <= s[0] <= 57 then Digits(s[1..], value * 10 + (s[0] - 48))
    else None
  }

  /** `parse::<usize>`: an optional plus sign and digits; a value past 64 bits is an error. */
  function ParseUsize(s: Bytes): Option<nat> {
    var d := if s != [] && s[0] == 43 then s[1..] else s;
    if d == [] then None
    else
      match Digits(d, 0)
      case Some(n) => if n < 0x1_0000_0000_0000_0000 then Some(n) else None
      case None => None
  }

  /** The value of the first Content-Length line that has a colon; 0 if there is none or it
      does not parse. */
  function LengthIn(lines: seq<Bytes>): nat {
    if lines == [] then 0
    else
      var l := lines[0];
      var c := IndexOf(l, 58);
      if c < |l| && SameName(Trim(l[..c]), CONTENT_LENGTH) then
        (match ParseUsize(Trim(l[c + 1..])) case Some(n) => n case None => 0)
      else LengthIn(lines[1..])
  }

  function ContentLength(headers: Bytes): nat {
    LengthIn(BytesLines(headers))
  }

  // ---------------------------------------------------------------------------------------
  // The one-line specification
  // ---------------------------------------------------------------------------------------

  datatype Request = Request(headers: Bytes, body: Bytes)

  /** What the bytes of a stream say, if its header block ends at hidx. */
  function Parsed(data: Bytes, hidx: nat): Option<Request>
    requires hidx + 4 <= |data|
  {
    var cl := ContentLength(data[..hidx]);
    var rest := data[hidx + 4..];
    if cl > BODY_CAP then None else Some(Request(data[..hidx], rest[..Min(cl, |rest|)]))
  }

  // ---------------------------------------------------------------------------------------
  // The stream
  // ---------------------------------------------------------------------------------------

  /** How many bytes a read gives at pos: the next size of the plan, at least one, at most a
      chunk and what is left; 0 at the end. */
  function ReadSize(data: Bytes, pos: nat, plan: seq<nat>): (n: nat)
    requires pos <= |data|
    ensures n <= CHUNK_SIZE && pos + n <= |data| && (n == 0 <==> pos == |data|)
  {
    var want := if plan == [] || plan[0] > CHUNK_SIZE then CHUNK_SIZE else if plan[0] == 0 then 1 else plan[0];
    Min(want, |data| - pos)
  }

  function Rest(plan: seq<nat>): seq<nat> {
    if plan == [] then [] else plan[1..]
  }

  class Stream {
    const data: Bytes
    var pos: nat
    var plan: seq<nat>

    constructor (data: Bytes, plan: seq<nat>)
      ensures this.data == data && pos == 0 && this.plan == plan
    {
      this.data := data;
      this.plan := plan;
      pos := 0;
    }

    method Read() returns (chunk: Bytes)
      requires pos <= |data|
      modifies this
      ensures var n := ReadSize(data, old(pos), old(plan));
              chunk == data[old(pos)..old(pos) + n] && pos == old(pos) + n && plan == Rest(old(plan))
    {
      var n := ReadSize(data, pos, plan);
      chunk := data[pos..pos + n];
      pos := pos + n;
      plan := Rest(plan);
    }
  }

  /** The loop that waits for the end of the headers: where they end and how much was read. */
  function AwaitHeaders(data: Bytes, pos: nat, plan: seq<nat>): (r: Option<(nat, nat)>)
    requires pos <= |data|
    ensures r.Some? ==> r.value.0 + 4 <= r.value.1 <= |data| && FindDoubleCrlf(data[..r.value.1], 0) == Some(r.value.0)
    decreases |data| - pos
  {
    var n := ReadSize(data, pos, plan);
    if n == 0 then None
    else
      match FindDoubleCrlf(data[..pos + n], 0)
      case Some(h) => Some((h, pos + n))
      case None => if pos + n > HEADER_CAP then None else AwaitHeaders(data, pos + n, Rest(plan))
  }

  /** The result of reading the stream with the given plan. */
  function Outcome(data: Bytes, plan: seq<nat>): Option<Request> {
    match AwaitHeaders(data, 0, plan)
    case None => None
    case Some((h, _)) => Parsed(data, h)
  }

  method ReadHeaderBlock(stream: Stream) returns (buf: Bytes, headerEnd: Option<nat>)
    requires stream.pos == 0
    modifies stream
    ensures match AwaitHeaders(stream.data, 0, old(stream.plan))
            case None => headerEnd == None
            case Some((h, p)) => headerEnd == Some(h) && stream.pos == p && buf == stream.data[..p]
  {
    hide FindDoubleCrlf;
    var data := stream.data;
    buf := [];
    headerEnd := None;
    while headerEnd.None?
      invariant stream.pos <= |data| && buf == data[..stream.pos]
      invariant headerEnd.None? ==>
                AwaitHeaders(data, 0, old(stream.plan)) == AwaitHeaders(data, stream.pos, stream.plan)
      invariant headerEnd.Some? ==> AwaitHeaders(data, 0, old(stream.plan)) == Some((headerEnd.value, stream.pos))
      decreases headerEnd.None?, |data| - stream.pos
    {
      var chunk := stream.Read();
      if chunk == [] {
        return;
      }
      buf := buf + chunk;
      assert buf == data[..stream.pos];
      headerEnd := FindDoubleCrlf(buf, 0);
      if headerEnd.None? && |buf| > HEADER_CAP {
        return;
      }
    }
  }

  method ReadRequest(stream: Stream) returns (r: Option<Request>)
    requires stream.pos == 0
    modifies stream
    ensures r == Outcome(stream.data, old(stream.plan))
  {
    hide FindDoubleCrlf, ContentLength, AwaitHeaders;
    var data := stream.data;
    var buf, headerEnd := ReadHeaderBlock(stream);
    if headerEnd.None? {
      return None;
    }
    var headers := buf[..headerEnd.value];
    var cl := ContentLength(headers);
    assert headers == data[..headerEnd.value];
    if cl > BODY_CAP {
      return None;
    }
    var bodyStart := headerEnd.value + 4;
    var body := buf[bodyStart..];
    while |body| < cl
      invariant bodyStart <= stream.pos <= |data| && body == data[bodyStart..stream.pos]
      decreases |data| - stream.pos
    {
      var chunk := stream.Read();
      if chunk == [] {
        break;
      }
      body := body + chunk;
    }
    body := body[..Min(cl, |body|)];
    assert body == data[bodyStart..][..Min(cl, |data| - bodyStart)];
    return Some(Request(headers, body));
  }

  // ---------------------------------------------------------------------------------------
  // How far the result depends on the pieces
  // ---------------------------------------------------------------------------------------

  /** The terminator is found as soon as its last byte has been read, and not before. */
  lemma FoundInPrefix(data: Bytes, p: nat)
    requires p <= |data|
    ensures FindDoubleCrlf(data[..p], 0) ==
            match FindDoubleCrlf(data, 0) case Some(h) => (if h + 4 <= p then Some(h) else None) case None => None
  {
    hide FindDoubleCrlf, EndsAt;
    forall i: nat
      ensures EndsAt(data[..p], i) <==> i + 4 <= p && EndsAt(data, i)
    {
      EndsInPrefix(data, p, i);
    }
    assert forall i: nat :: EndsAt(data, i) ==> i + 4 <= |data| by { EndsInside(data); }
    assert forall i: nat :: EndsAt(data[..p], i) ==> i + 4 <= p;
  }

  lemma EndsInPrefix(data: Bytes, p: nat, i: nat)
    requires p <= |data|
    ensures EndsAt(data[..p], i) <==> i + 4 <= p && EndsAt(data, i)
  {
    if i + 4 <= p {
      assert data[..p][i..i + 4] == data[i..i + 4];
    }
  }

  lemma EndsInside(data: Bytes)
    ensures forall i: nat :: EndsAt(data, i) ==> i + 4 <= |data|
  {
  }

  /** Past a terminator that ends within one byte of the cap, the plan does not matter. */
  lemma {:induction false} EarlyEnd(data: Bytes, h: nat, pos: nat, plan: seq<nat>)
    requires FindDoubleCrlf(data, 0) == Some(h) && h + 4 <= HEADER_CAP + 1 && pos < h + 4
    ensures AwaitHeaders(data, pos, plan).Some? && AwaitHeaders(data, pos, plan).value.0 == h
    decreases |data| - pos
  {
    hide FindDoubleCrlf;
    var n := ReadSize(data, pos, plan);
    FoundInPrefix(data, pos + n);
    if pos + n < h + 4 {
      EarlyEnd(data, h, pos + n, Rest(plan));
    }
  }

  lemma {:induction false} LateEnd(data: Bytes, pos: nat, plan: seq<nat>)
    requires match FindDoubleCrlf(data, 0) case Some(h) => h + 4 > HEADER_CAP + CHUNK_SIZE case None => true
    requires pos <= |data| && pos <= HEADER_CAP
    ensures AwaitHeaders(data, pos, plan).None?
    decreases |data| - pos
  {
    hide FindDoubleCrlf;
    var n := ReadSize(data, pos, plan);
    FoundInPrefix(data, pos + n);
    if n > 0 && pos + n <= HEADER_CAP {
      LateEnd(data, pos + n, Rest(plan));
    }
  }

  /** The result depends only on the bytes if the headers end within 64 KiB and one byte: it is
      what the one-line specification says, and rejected exactly for a Content-Length past 1 MiB. */
  lemma OnlyTheBytesMatter(data: Bytes, plan: seq<nat>, h: nat)
    requires FindDoubleCrlf(data, 0) == Some(h) && h + 4 <= 65537
    ensures Outcome(data, plan) == Parsed(data, h)
    ensures Outcome(data, plan).None? <==> ContentLength(data[..h]) > 0x10_0000
  {
    EarlyEnd(data, h, 0, plan);
  }

  /** It is rejected if they end past 64 KiB and a chunk, or never. */
  lemma TooLong(data: Bytes, plan: seq<nat>)
    requires match FindDoubleCrlf(data, 0) case Some(h) => h + 4 > 66560 case None => true
    ensures Outcome(data, plan).None?
  {
    LateEnd(data, 0, plan);
  }

  /** k reads of a whole chunk, then more. */
  function Chunks(k: nat, after: seq<nat>): seq<nat> {
    if k == 0 then after else [CHUNK_SIZE] + Chunks(k - 1, after)
  }

  lemma WholeChunk(data: Bytes, pos: nat, plan: seq<nat>)
    requires pos + CHUNK_SIZE <= |data| && plan != [] && plan[0] == CHUNK_SIZE
    ensures ReadSize(data, pos, plan) == CHUNK_SIZE
  {
  }

  lemma {:induction false} ReadChunks(data: Bytes, pos: nat, k: nat, after: seq<nat>)
    requires pos + k * CHUNK_SIZE <= HEADER_CAP && pos + k * CHUNK_SIZE <= |data|
    requires match FindDoubleCrlf(data, 0) case Some(h) => h + 4 > HEADER_CAP case None => true
    ensures AwaitHeaders(data, pos, Chunks(k, after)) == AwaitHeaders(data, pos + k * CHUNK_SIZE, after)
    decreases k
  {
    hide FindDoubleCrlf, ReadSize;
    if k > 0 {
      var plan := Chunks(k, after);
      assert plan[0] == CHUNK_SIZE && plan[1..] == Chunks(k - 1, after);
      assert ReadSize(data, pos, plan) == CHUNK_SIZE by { WholeChunk(data, pos, plan); }
      FoundInPrefix(data, pos + CHUNK_SIZE);
      ReadChunks(data, pos + CHUNK_SIZE, k - 1, after);
    }
  }

  /** In between it does depend on the pieces: reads of whole chunks accept the request, and
      after the same chunks a read of one byte makes it exceed the cap. So a header block is read
      independently of the pieces exactly if it ends by 65537 or past 66560. */
  lemma GapDependsOnPieces(data: Bytes, h: nat) returns (accepting: seq<nat>, rejecting: seq<nat>)
    requires FindDoubleCrlf(data, 0) == Some(h) && 65537 < h + 4 <= 66560
    requires ContentLength(data[..h]) <= 0x10_0000
    ensures Outcome(data, accepting) == Parsed(data, h) && Parsed(data, h).Some?
    ensures Outcome(data, rejecting) == None
  {
    hide FindDoubleCrlf, ContentLength;
    accepting := Chunks(64, [CHUNK_SIZE]);
    rejecting := Chunks(64, [1]);
    ReadChunks(data, 0, 64, [CHUNK_SIZE]);
    ReadChunks(data, 0, 64, [1]);
    var p := HEADER_CAP + ReadSize(data, HEADER_CAP, [CHUNK_SIZE]);
    FoundInPrefix(data, p);
    FoundInPrefix(data, HEADER_CAP + 1);
  }
}
