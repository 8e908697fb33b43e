/**
 One HTTP connection, as a machine that is stepped by the scheduler: it rebuilds a request from whatever
 pieces the socket delivers. The parsers of the first line and of the header block are parameters.
 */
module RequestFraming {
  import opened Wrappers

  const MAX_RETRIES := 20
  const FIRSTLINE_MAXLEN := 1024
  const MESSAGE_BUFFER_SIZE := 1024
  const CRLF: string := "\r\n"
  const BLANK_LINE: string := "\r\n\r\n"

  /** What one read can return; the empty chunk stands for "nothing there". */
  type Chunk = s: string | |s| <= MESSAGE_BUFFER_SIZE

  datatype FirstLine = FirstLine(complete: bool, validMethod: bool, path: string)

  /** The header parser may refuse a block, or find no Content-Length in it. */
  datatype Headers = Headers(contentLength: Option<int>)

  datatype Parsers = Parsers(firstLine: string -> Option<FirstLine>, headers: string -> Option<Headers>)

  datatype State =
    | Initializing
    | ReadingFirstLine
    | ReadingHeaders
    | ReadingBody
    | Validating
    | Handover
    | Responding
    | Disposing
    | Error

  /**
   What came in: `received` is the history of everything read from the socket, `data` the buffer,
   `line` and `headers` the bytes the two parsers were given.
   */
  datatype Input = Input(
    received: string,
    data: string,
    line: string,
    headers: Option<string>,
    contentLength: int)

  datatype Conn = Conn(
    state: State,
    retries: nat,
    input: Input,
    status: int,
    requested: bool,
    ready: bool)

  const NO_INPUT: Input := Input("", "", "", None, 0)
  const INITIAL: Conn := Conn(Initializing, 0, NO_INPUT, 0, false, false)

  // ---------------------------------------------------------------- searching

  predicate Occurs(p: string, s: string, i: nat) {
    i + |p| <= |s| && s[i..i + |p|] == p
  }

  lemma OccursBehind(p: string, s: string, i: nat)
    requires 0 < i && s != ""
    ensures Occurs(p, s, i) <==> Occurs(p, s[1..], i - 1)
  {
    if i + |p| <= |s| {
      assert s[1..][i - 1..i - 1 + |p|] == s[i..i + |p|];
    }
  }

  /** Position of the first occurrence of `p` in `s`, or `|s|`. */
  function Find(s: string, p: string): (i: nat)
    requires p != ""
    ensures i <= |s| && (i < |s| ==> Occurs(p, s, i))
    ensures forall j: nat :: j < i ==> !Occurs(p, s, j)
  {
    if s == "" then 0
    else if p <= s then 0
    else
      var k := Find(s[1..], p);
      FirstBehind(p, s, k);
      1 + k
  }

  /** A first occurrence in the rest of a text that does not begin with `p` is one in the text. */
  lemma FirstBehind(p: string, s: string, k: nat)
    requires s != "" && !(p <= s) && k <= |s[1..]| && (k < |s[1..]| ==> Occurs(p, s[1..], k))
    requires forall j: nat :: j < k ==> !Occurs(p, s[1..], j)
    ensures 1 + k < |s| ==> Occurs(p, s, 1 + k)
    ensures forall j: nat :: j < 1 + k ==> !Occurs(p, s, j)
  {
    OccursBehind(p, s, 1 + k);
    forall j: nat | j < 1 + k
      ensures !Occurs(p, s, j)
    {
      if j > 0 {
        OccursBehind(p, s, j);
      }
    }
  }

  /** More text behind a match does not move it. */
  lemma {:induction false} FindExtend(s: string, t: string, p: string)
    requires p != "" && s <= t && Find(s, p) < |s|
    ensures Find(t, p) == Find(s, p)
  {
    PrefixOfPrefix(p, s, t);
    if !(p <= s) {
      FindExtend(s[1..], t[1..], p);
    }
  }

  lemma PrefixOfPrefix(p: string, a: string, b: string)
    requires a <= b && |p| <= |a|
    ensures p <= b ==> p <= a
  {
  }

  // ---------------------------------------------------------------- steps

  function Reject(c: Conn): Conn {
    c.(status := 400, state := Responding)
  }

  function Append(i: Input, chunk: Chunk): Input {
    i.(received := i.received + chunk, data := i.data + chunk)
  }

  /** Counts the attempt and reads one chunk. */
  function Take(c: Conn, chunk: Chunk): Conn {
    c.(retries := c.retries + 1, input := Append(c.input, chunk))
  }

  /** An attempt beyond the limit reads nothing. */
  function GiveUp(c: Conn): Conn {
    c.(retries := c.retries + 1, state := Error)
  }

  function TakeLine(i: Input, e: nat): Input
    requires e + 2 <= |i.data|
  {
    i.(line := i.data[..e], data := i.data[e + 2..])
  }

  function ReadFirstLine(p: Parsers, n: Conn): Conn {
    var data := n.input.data;
    var e := Find(data, CRLF);
    if data == "" then n
    else if e == |data| then (if |data| >= FIRSTLINE_MAXLEN then Reject(n) else n)
    else if e == 0 || e >= FIRSTLINE_MAXLEN then Reject(n)
    else if p.firstLine(data[..e]).None? then n.(state := Error)
    else n.(input := TakeLine(n.input, e), state := ReadingHeaders)
  }

  /** Without headers the bytes are moved to the front, but the size is not reduced. */
  function TakeNoHeaders(i: Input): Input
    requires 2 <= |i.data|
  {
    i.(data := i.data[2..] + i.data[|i.data| - 2..])
  }

  function TakeHeaders(i: Input, b: nat, length: Option<int>): Input
    requires b <= |i.data|
  {
    i.(headers := Some(i.data[..b]), data := i.data[b..],
       contentLength := if length.Some? then length.value else i.contentLength)
  }

  function AfterHeaders(length: Option<int>): State {
    if length.Some? && length.value > 0 then ReadingBody else Validating
  }

  function ReadHeaders(p: Parsers, n: Conn): Conn {
    var data := n.input.data;
    var h := Find(data, BLANK_LINE);
    if data == "" then n
    else if CRLF <= data then n.(input := TakeNoHeaders(n.input), retries := 0, state := Validating)
    else if h == |data| then n
    else if p.headers(data[..h + 4]).None? then Reject(n)
    else
      var length := p.headers(data[..h + 4]).value.contentLength;
      n.(input := TakeHeaders(n.input, h + 4, length), retries := 0, state := AfterHeaders(length))
  }

  function ReadBody(n: Conn): Conn {
    if |n.input.data| < n.input.contentLength then n else n.(retries := 0, state := Validating)
  }

  /** `api/v1/echo` stands without its slash in the server as well. */
  function Validate(p: Parsers, c: Conn): Conn {
    match p.firstLine(c.input.line)
    case None => Reject(c)
    case Some(l) =>
      if !l.complete || !l.validMethod then Reject(c)
      else if l.path == "/echo" || l.path == "api/v1/echo" then c.(status := 200, ready := true, state := Responding)
      else c.(status := 200, requested := true, state := Handover)
  }

  predicate Reading(s: State) {
    s == ReadingFirstLine || s == ReadingHeaders || s == ReadingBody
  }

  function Read(p: Parsers, n: Conn): Conn
    requires Reading(n.state)
  {
    if n.state == ReadingFirstLine then ReadFirstLine(p, n)
    else if n.state == ReadingHeaders then ReadHeaders(p, n)
    else ReadBody(n)
  }

  /** The states that do not read. */
  function Move(p: Parsers, c: Conn): Conn
    requires !Reading(c.state)
  {
    match c.state
    case Initializing => c.(state := ReadingFirstLine)
    case Validating => Validate(p, c)
    case Handover => if c.ready then c.(state := Responding) else c
    case Responding => c.(state := Disposing)
    case Disposing => c
    case Error => c.(status := 500, state := Responding)
  }

  function Step(p: Parsers, c: Conn, chunk: Chunk): Conn {
    if !Reading(c.state) then Move(p, c)
    else if c.retries > MAX_RETRIES then GiveUp(c)
    else Read(p, Take(c, chunk))
  }

  function Run(p: Parsers, chunks: seq<Chunk>): Conn {
    if chunks == [] then INITIAL else Step(p, Run(p, chunks[..|chunks| - 1]), chunks[|chunks| - 1])
  }

  /** The body the endpoint is handed. */
  function Body(i: Input): string {
    if 0 < i.contentLength <= |i.data| then i.data[..i.contentLength] else ""
  }

  // ---------------------------------------------------------------- the one-shot splitter

  datatype Request = Request(line: string, headers: Option<string>, contentLength: int, body: string)

  /** Cuts behind a header block that is `b` bytes long. */
  function CutBody(p: Parsers, line: string, r: string, b: nat): Option<Request>
    requires b <= |r|
  {
    if p.headers(r[..b]).None? then None
    else
      var length := p.headers(r[..b]).value.contentLength;
      var n := if length.Some? then length.value else 0;
      if n <= 0 then Some(Request(line, Some(r[..b]), n, ""))
      else if |r| < b + n then None
      else Some(Request(line, Some(r[..b]), n, r[b..b + n]))
  }

  /** Cuts what follows the first line. */
  function CutRest(p: Parsers, line: string, r: string): Option<Request> {
    var h := Find(r, BLANK_LINE);
    if CRLF <= r then Some(Request(line, None, 0, ""))
    else if h == |r| then None
    else CutBody(p, line, r, h + 4)
  }

  /** Cuts a request out of all the bytes at once. */
  function Cut(p: Parsers, s: string): Option<Request> {
    var e := Find(s, CRLF);
    if e == |s| || e == 0 || e >= FIRSTLINE_MAXLEN || p.firstLine(s[..e]).None? then None
    else CutRest(p, s[..e], s[e + 2..])
  }

  /** Longer text starts like the shorter one. */
  lemma SliceExtend(s: string, t: string, lo: nat, hi: nat)
    requires s <= t && lo <= hi <= |s|
    ensures s[lo..hi] == t[lo..hi] && s[lo..] <= t[lo..]
  {
  }

  lemma CutBodyExtend(p: Parsers, line: string, r: string, t: string, b: nat)
    requires r <= t && b <= |r| && CutBody(p, line, r, b).Some?
    ensures CutBody(p, line, t, b) == CutBody(p, line, r, b)
  {
    SliceExtend(r, t, 0, b);
    var n := CutBody(p, line, r, b).value.contentLength;
    if n > 0 {
      SliceExtend(r, t, b, b + n);
    }
  }

  lemma CutRestExtend(p: Parsers, line: string, r: string, t: string)
    requires r <= t && CutRest(p, line, r).Some?
    ensures CutRest(p, line, t) == CutRest(p, line, r)
  {
    if !(CRLF <= r) {
      var b := Find(r, BLANK_LINE) + 4;
      FindExtend(r, t, BLANK_LINE);
      PrefixOfPrefix(CRLF, r, t);
      CutBodyExtend(p, line, r, t, b);
    }
  }

  /** Once a request can be cut, further bytes do not change it. */
  lemma CutExtend(p: Parsers, s: string, t: string)
    requires s <= t && Cut(p, s).Some?
    ensures Cut(p, t) == Cut(p, s)
  {
    var e := Find(s, CRLF);
    FindExtend(s, t, CRLF);
    SliceExtend(s, t, 0, e);
    SliceExtend(s, t, e + 2, |s|);
    CutRestExtend(p, s[..e], s[e + 2..], t[e + 2..]);
  }

  // ---------------------------------------------------------------- what every step keeps

  predicate LineKnown(p: Parsers, line: string, received: string) {
    && 0 < |line| < FIRSTLINE_MAXLEN
    && |line| + 2 <= |received|
    && Find(received, CRLF) == |line|
    && line == received[..|line|]
    && p.firstLine(line).Some?
  }

  predicate HeadersKnown(p: Parsers, block: string, length: int, rest: string) {
    && !(CRLF <= rest)
    && 4 <= |block| <= |rest|
    && Find(rest, BLANK_LINE) == |block| - 4
    && block == rest[..|block|]
    && p.headers(block) == Some(Headers(Some(length)))
  }

  /** The request as the connection holds it when it validates. */
  function Held(i: Input): Request {
    Request(i.line, i.headers, i.contentLength, Body(i))
  }

  predicate FirstLineInv(i: Input) {
    && i.contentLength == 0 && i.headers == None
    && i.data == i.received && Find(i.data, CRLF) == |i.data| < FIRSTLINE_MAXLEN
  }

  predicate HeadersInv(p: Parsers, i: Input) {
    && i.contentLength == 0 && i.headers == None
    && LineKnown(p, i.line, i.received) && i.data == i.received[|i.line| + 2..]
  }

  predicate BodyInv(p: Parsers, i: Input) {
    && i.contentLength > 0 && i.headers.Some?
    && LineKnown(p, i.line, i.received)
    && HeadersKnown(p, i.headers.value, i.contentLength, i.received[|i.line| + 2..])
    && i.data == i.received[|i.line| + 2..][|i.headers.value|..]
  }

  /**
   The connection holds exactly what the splitter cuts from everything received. Without headers the buffer
   has kept the size it had behind the first line.
   */
  predicate Framed(p: Parsers, i: Input) {
    && Cut(p, i.received) == Some(Held(i))
    && (i.headers == None ==> |i.data| == |i.received| - |i.line| - 2)
  }

  predicate InputInv(p: Parsers, s: State, i: Input) {
    match s
    case Initializing => i == NO_INPUT
    case ReadingFirstLine => FirstLineInv(i)
    case ReadingHeaders => HeadersInv(p, i)
    case ReadingBody => BodyInv(p, i)
    case Validating => Framed(p, i)
    case _ => true
  }

  /** Only a framed request is answered with 200 or given to an endpoint. */
  predicate OutcomeInv(p: Parsers, c: Conn) {
    && (Reading(c.state) || c.state == Initializing || c.state == Validating ==>
          c.status == 0 && !c.requested && !c.ready)
    && (c.state == Handover ==> c.requested)
    && (c.status == 200 || c.requested ==> Framed(p, c.input))
  }

  /** Bytes that can have been read, given the attempts made. */
  function Budget(s: State, retries: nat): nat {
    match s
    case Initializing => 0
    case ReadingFirstLine => MESSAGE_BUFFER_SIZE * retries
    case ReadingHeaders => MESSAGE_BUFFER_SIZE * retries
    case ReadingBody => MESSAGE_BUFFER_SIZE * (MAX_RETRIES + 1 + retries)
    case _ => 2 * MESSAGE_BUFFER_SIZE * (MAX_RETRIES + 1)
  }

  predicate BudgetInv(c: Conn) {
    && (Reading(c.state) ==> c.retries <= MAX_RETRIES + 1)
    && (c.state == Initializing ==> c.retries == 0)
    && |c.input.received| <= Budget(c.state, c.retries)
  }

  lemma LineKnownExtend(p: Parsers, line: string, s: string, t: string)
    requires s <= t && LineKnown(p, line, s)
    ensures LineKnown(p, line, t)
  {
    FindExtend(s, t, CRLF);
    SliceExtend(s, t, 0, |line|);
  }

  lemma HeadersKnownExtend(p: Parsers, block: string, length: int, s: string, t: string)
    requires s <= t && HeadersKnown(p, block, length, s)
    ensures HeadersKnown(p, block, length, t)
  {
    FindExtend(s, t, BLANK_LINE);
    PrefixOfPrefix(CRLF, s, t);
    SliceExtend(s, t, 0, |block|);
  }

  /** Dropping a prefix commutes with reading more. */
  lemma DropAppend(s: string, chunk: string, k: nat)
    requires k <= |s|
    ensures (s + chunk)[k..] == s[k..] + chunk
  {
  }

  lemma HeadersInvAppend(p: Parsers, i: Input, chunk: Chunk)
    requires HeadersInv(p, i)
    ensures HeadersInv(p, Append(i, chunk))
  {
    LineKnownExtend(p, i.line, i.received, i.received + chunk);
    DropAppend(i.received, chunk, |i.line| + 2);
  }

  lemma BodyInvAppend(p: Parsers, i: Input, chunk: Chunk)
    requires BodyInv(p, i)
    ensures BodyInv(p, Append(i, chunk))
  {
    var r, block := i.received[|i.line| + 2..], i.headers.value;
    LineKnownExtend(p, i.line, i.received, i.received + chunk);
    DropAppend(i.received, chunk, |i.line| + 2);
    HeadersKnownExtend(p, block, i.contentLength, r, r + chunk);
    DropAppend(r, chunk, |block|);
  }

  lemma TakeLineInv(p: Parsers, i: Input, e: nat)
    requires i.data == i.received && i.contentLength == 0 && i.headers == None
    requires e == Find(i.data, CRLF) < |i.data| && 0 < e < FIRSTLINE_MAXLEN && p.firstLine(i.data[..e]).Some?
    ensures HeadersInv(p, TakeLine(i, e))
  {
  }

  lemma TakeNoHeadersInv(p: Parsers, i: Input)
    requires HeadersInv(p, i) && CRLF <= i.data
    ensures Framed(p, TakeNoHeaders(i))
  {
    assert Cut(p, i.received) == CutRest(p, i.line, i.data);
  }

  lemma TakeHeadersInv(p: Parsers, i: Input, b: nat, length: Option<int>)
    requires HeadersInv(p, i) && !(CRLF <= i.data)
    requires Find(i.data, BLANK_LINE) + 4 == b <= |i.data| && p.headers(i.data[..b]) == Some(Headers(length))
    ensures InputInv(p, AfterHeaders(length), TakeHeaders(i, b, length))
  {
    assert Cut(p, i.received) == CutBody(p, i.line, i.data, b);
  }

  lemma TakeBodyInv(p: Parsers, i: Input)
    requires BodyInv(p, i) && i.contentLength <= |i.data|
    ensures Framed(p, i)
  {
    var r, b := i.received[|i.line| + 2..], |i.headers.value|;
    assert Cut(p, i.received) == CutBody(p, i.line, r, b);
    assert r[b..][..i.contentLength] == r[b..b + i.contentLength];
  }

  lemma FirstLineStep(p: Parsers, n: Conn)
    requires n.state == ReadingFirstLine && n.input.data == n.input.received
    requires n.input.contentLength == 0 && n.input.headers == None
    ensures InputInv(p, ReadFirstLine(p, n).state, ReadFirstLine(p, n).input)
  {
    var m := ReadFirstLine(p, n);
    var data := n.input.data;
    var e := Find(data, CRLF);
    if e == |data| {
      assert m == n || m == Reject(n);
    } else if 0 < e < FIRSTLINE_MAXLEN && p.firstLine(data[..e]).Some? {
      TakeLineInv(p, n.input, e);
      assert m.state == ReadingHeaders && m.input == TakeLine(n.input, e);
    } else {
      assert m.state == Responding || m.state == Error;
    }
  }

  lemma HeadersFound(p: Parsers, n: Conn, b: nat)
    requires HeadersInv(p, n.input) && n.state == ReadingHeaders && !(CRLF <= n.input.data)
    requires Find(n.input.data, BLANK_LINE) + 4 == b <= |n.input.data| && p.headers(n.input.data[..b]).Some?
    ensures InputInv(p, ReadHeaders(p, n).state, ReadHeaders(p, n).input)
  {
    var length := p.headers(n.input.data[..b]).value.contentLength;
    TakeHeadersInv(p, n.input, b, length);
    var m := ReadHeaders(p, n);
    assert m.state == AfterHeaders(length) && m.input == TakeHeaders(n.input, b, length);
  }

  lemma HeadersStep(p: Parsers, n: Conn)
    requires HeadersInv(p, n.input) && n.state == ReadingHeaders
    ensures InputInv(p, ReadHeaders(p, n).state, ReadHeaders(p, n).input)
  {
    var m := ReadHeaders(p, n);
    var data := n.input.data;
    if CRLF <= data {
      TakeNoHeadersInv(p, n.input);
      assert m.state == Validating && m.input == TakeNoHeaders(n.input);
    } else if Find(data, BLANK_LINE) == |data| {
      assert m == n;
    } else if p.headers(data[..Find(data, BLANK_LINE) + 4]).Some? {
      HeadersFound(p, n, Find(data, BLANK_LINE) + 4);
    } else {
      assert m.state == Responding;
    }
  }

  lemma BodyStep(p: Parsers, n: Conn)
    requires BodyInv(p, n.input) && n.state == ReadingBody
    ensures InputInv(p, ReadBody(n).state, ReadBody(n).input)
  {
    if n.input.contentLength <= |n.input.data| {
      TakeBodyInv(p, n.input);
    }
  }

  predicate Inv(p: Parsers, c: Conn) {
    InputInv(p, c.state, c.input) && OutcomeInv(p, c) && BudgetInv(c)
  }

  /** What a read may do beside the input: go on, refuse with 400, or end in an error. */
  predicate ReadEffect(n: Conn, m: Conn) {
    && m.requested == n.requested && m.ready == n.ready
    && m.input.received == n.input.received
    && m.status == (if m.state == Responding then 400 else n.status)
    && (m.state == Responding || m.state == Error
        || (m.state == n.state && m.retries == n.retries)
        || (n.state == ReadingFirstLine && m.state == ReadingHeaders && m.retries == n.retries)
        || (n.state == ReadingHeaders && m.state == ReadingBody && m.retries == 0)
        || (n.state != ReadingFirstLine && m.state == Validating && m.retries == 0))
  }

  lemma FirstLineEffect(p: Parsers, n: Conn)
    requires n.state == ReadingFirstLine
    ensures ReadEffect(n, ReadFirstLine(p, n))
  {
  }

  lemma HeadersEffect(p: Parsers, n: Conn)
    requires n.state == ReadingHeaders
    ensures ReadEffect(n, ReadHeaders(p, n))
  {
  }

  lemma ReadInv(p: Parsers, n: Conn, m: Conn)
    requires Reading(n.state) && ReadEffect(n, m) && InputInv(p, m.state, m.input)
    requires n.status == 0 && !n.requested && !n.ready
    requires 0 < n.retries <= MAX_RETRIES + 1 && |n.input.received| <= Budget(n.state, n.retries)
    ensures Inv(p, m)
  {
  }

  lemma TakeInv(c: Conn, chunk: Chunk)
    requires Reading(c.state) && BudgetInv(c) && c.retries <= MAX_RETRIES
    ensures |Take(c, chunk).input.received| <= Budget(c.state, c.retries + 1)
  {
  }

  /** Any move keeps the input, and 200 is only given to a framed request. */
  predicate MoveEffect(c: Conn, m: Conn) {
    && m.input == c.input
    && (m.status == 200 || m.requested ==> c.state == Validating || c.status == 200 || c.requested)
    && (m.state == Handover ==> m.requested)
    && (m.state == Handover || m.state == Responding || m.state == Disposing)
  }

  lemma MoveHasEffect(p: Parsers, c: Conn)
    requires !Reading(c.state) && c.state != Initializing
    requires c.state == Handover ==> c.requested
    ensures MoveEffect(c, Move(p, c))
  {
  }

  lemma MoveKeeps(p: Parsers, c: Conn, m: Conn)
    requires !Reading(c.state) && c.state != Initializing && Inv(p, c) && MoveEffect(c, m)
    ensures Inv(p, m)
  {
  }

  lemma StartInv(p: Parsers)
    ensures Inv(p, INITIAL) && Inv(p, Move(p, INITIAL))
  {
  }

  lemma MoveInv(p: Parsers, c: Conn)
    requires !Reading(c.state) && Inv(p, c)
    ensures Inv(p, Move(p, c))
  {
    if c.state == Initializing {
      assert c == INITIAL;
      StartInv(p);
    } else {
      MoveHasEffect(p, c);
      MoveKeeps(p, c, Move(p, c));
    }
  }

  lemma ReadStepInv(p: Parsers, c: Conn, chunk: Chunk)
    requires Reading(c.state) && Inv(p, c) && c.retries <= MAX_RETRIES
    ensures Inv(p, Read(p, Take(c, chunk)))
  {
    var n := Take(c, chunk);
    TakeInv(c, chunk);
    if c.state == ReadingFirstLine {
      FirstLineStep(p, n);
      FirstLineEffect(p, n);
    } else if c.state == ReadingHeaders {
      HeadersInvAppend(p, c.input, chunk);
      HeadersStep(p, n);
      HeadersEffect(p, n);
    } else {
      BodyInvAppend(p, c.input, chunk);
      BodyStep(p, n);
    }
    ReadInv(p, n, Read(p, n));
  }

  lemma GiveUpInv(p: Parsers, c: Conn)
    requires Reading(c.state) && Inv(p, c)
    ensures Inv(p, GiveUp(c))
  {
  }

  /** Every step keeps the invariant, whatever is read. */
  lemma StepInv(p: Parsers, c: Conn, chunk: Chunk)
    requires Inv(p, c)
    ensures Inv(p, Step(p, c, chunk))
  {
    if !Reading(c.state) {
      MoveInv(p, c);
    } else if c.retries <= MAX_RETRIES {
      ReadStepInv(p, c, chunk);
    } else {
      GiveUpInv(p, c);
    }
  }

  lemma {:induction false} RunInv(p: Parsers, chunks: seq<Chunk>)
    ensures Inv(p, Run(p, chunks))
  {
    if chunks != [] {
      RunInv(p, chunks[..|chunks| - 1]);
      StepInv(p, Run(p, chunks[..|chunks| - 1]), chunks[|chunks| - 1]);
    }
  }

  // ---------------------------------------------------------------- any chunking is the one-shot splitter

  /** The connection has a request: it validates one, hands it over, or answers it with 200. */
  predicate HasRequest(c: Conn) {
    c.state == Validating || c.requested || c.status == 200
  }

  /** In every run, a request that is reached is the one cut from all the bytes of the stream at once. */
  lemma {:induction false} RunIsCut(p: Parsers, chunks: seq<Chunk>, stream: string)
    requires HasRequest(Run(p, chunks)) && Run(p, chunks).input.received <= stream
    ensures Cut(p, stream) == Some(Held(Run(p, chunks).input))
  {
    RunInv(p, chunks);
    CutExtend(p, Run(p, chunks).input.received, stream);
  }

  /** However one stream is cut into chunks, the requests that are reached are equal. */
  lemma {:induction false} ChunkingsAgree(p: Parsers, a: seq<Chunk>, b: seq<Chunk>, stream: string)
    requires HasRequest(Run(p, a)) && Run(p, a).input.received <= stream
    requires HasRequest(Run(p, b)) && Run(p, b).input.received <= stream
    ensures Held(Run(p, a).input) == Held(Run(p, b).input)
  {
    RunIsCut(p, a, stream);
    RunIsCut(p, b, stream);
  }

  /** Bytes of the stream that a request takes up, at the least. */
  function Length(q: Request): nat {
    |q.line| + 2 + (if q.headers.Some? then |q.headers.value| else 0) + |q.body|
  }

  lemma CutLength(p: Parsers, s: string)
    requires Cut(p, s).Some?
    ensures Length(Cut(p, s).value) <= |s|
    ensures |Cut(p, s).value.line| < FIRSTLINE_MAXLEN
    ensures |Cut(p, s).value.body| == (if Cut(p, s).value.contentLength > 0 then Cut(p, s).value.contentLength else 0)
  {
  }

  /** The body an endpoint is handed lies inside the bytes read, and no longer request gets through. */
  lemma {:induction false} RequestBounds(p: Parsers, chunks: seq<Chunk>)
    requires HasRequest(Run(p, chunks))
    ensures var c := Run(p, chunks);
      && |c.input.received| <= 42 * 1024
      && Length(Held(c.input)) <= |c.input.received|
      && (c.input.contentLength > 0 ==> |Body(c.input)| == c.input.contentLength <= |c.input.data|)
  {
    var c := Run(p, chunks);
    RunInv(p, chunks);
    CutLength(p, c.input.received);
  }

  /**
   A request without headers has an empty body in every run, although the buffer keeps the size it had
   behind the first line: the empty line is never taken off it.
   */
  lemma {:induction false} NoHeadersKeepSize(p: Parsers, chunks: seq<Chunk>)
    requires HasRequest(Run(p, chunks)) && Run(p, chunks).input.headers == None
    ensures var i := Run(p, chunks).input;
      Body(i) == "" && |i.data| == |i.received| - |i.line| - 2 >= 2
  {
    RunInv(p, chunks);
    NoHeadersCut(p, Run(p, chunks).input.received);
  }

  lemma NoHeadersCut(p: Parsers, s: string)
    requires Cut(p, s).Some? && Cut(p, s).value.headers == None
    ensures Cut(p, s).value.body == "" && |s| >= |Cut(p, s).value.line| + 4
  {
  }

  // ---------------------------------------------------------------- which requests are reached

  function Stream(chunks: seq<Chunk>): string {
    if chunks == [] then "" else Stream(chunks[..|chunks| - 1]) + chunks[|chunks| - 1]
  }

  /** The first step only starts the connection; then `chunks` are read one by one. */
  function Reads(p: Parsers, chunks: seq<Chunk>): Conn {
    Run(p, [""] + chunks)
  }

  const STARTED: Conn := INITIAL.(state := ReadingFirstLine)

  lemma ReadsNone(p: Parsers)
    ensures Reads(p, []) == STARTED
  {
    assert [""] + [] == [""] && [""][..0] == [];
    assert Run(p, []) == INITIAL;
    assert Run(p, [""]) == Step(p, INITIAL, "");
  }

  lemma {:induction false} RunSnoc(p: Parsers, chunks: seq<Chunk>, chunk: Chunk)
    ensures Run(p, chunks + [chunk]) == Step(p, Run(p, chunks), chunk)
  {
    assert (chunks + [chunk])[..|chunks|] == chunks;
  }

  lemma ReadsSnoc(p: Parsers, chunks: seq<Chunk>, chunk: Chunk)
    ensures Reads(p, chunks + [chunk]) == Step(p, Reads(p, chunks), chunk)
  {
    assert [""] + (chunks + [chunk]) == ([""] + chunks) + [chunk];
    RunSnoc(p, [""] + chunks, chunk);
  }

  /** Everything the first `k` reads can bring. */
  function Brought(chunks: seq<Chunk>, k: nat): string
    requires k <= |chunks|
  {
    Stream(chunks[..k])
  }

  lemma BroughtNext(chunks: seq<Chunk>, k: nat)
    requires k < |chunks|
    ensures Brought(chunks, k + 1) == Brought(chunks, k) + chunks[k]
  {
    assert chunks[..k + 1][..k] == chunks[..k];
  }

  lemma {:induction false} BroughtGrows(chunks: seq<Chunk>, j: nat, k: nat)
    requires j <= k <= |chunks|
    ensures Brought(chunks, j) <= Brought(chunks, k)
    decreases k
  {
    if j < k {
      BroughtGrows(chunks, j, k - 1);
      BroughtNext(chunks, k - 1);
    }
  }

  lemma {:induction false} BroughtAll(chunks: seq<Chunk>, k: nat)
    requires k <= |chunks|
    ensures Brought(chunks, k) <= Stream(chunks)
  {
    BroughtGrows(chunks, k, |chunks|);
    assert chunks[..|chunks|] == chunks;
  }

  /** The first read from the `k`-th on after which `n` bytes are there; behind the last chunk if none is. */
  function FirstWith(chunks: seq<Chunk>, n: nat, k: nat): (r: nat)
    ensures k <= r && (r <= |chunks| ==> n <= |Brought(chunks, r)|)
    ensures forall j: nat :: k <= j < r && j <= |chunks| ==> |Brought(chunks, j)| < n
    decreases |chunks| - k
  {
    if k > |chunks| || n <= |Brought(chunks, k)| then k else FirstWith(chunks, n, k + 1)
  }

  function LineEnd(q: Request): nat {
    |q.line| + 2
  }

  /** The length of the header block, or of the empty line that stands for it. */
  function HeadersSize(q: Request): nat {
    if q.headers.Some? then |q.headers.value| else 2
  }

  function HeadersEnd(q: Request): nat {
    LineEnd(q) + HeadersSize(q)
  }

  function BodyEnd(q: Request): nat {
    HeadersEnd(q) + |q.body|
  }

  function LineRead(chunks: seq<Chunk>, q: Request): nat {
    FirstWith(chunks, LineEnd(q), 1)
  }

  /** The headers are not looked at before the read behind the one that completed the line. */
  function HeadersRead(chunks: seq<Chunk>, q: Request): nat {
    FirstWith(chunks, HeadersEnd(q), LineRead(chunks, q) + 1)
  }

  /** Nor is the body before the read behind the headers. */
  function BodyRead(chunks: seq<Chunk>, q: Request): nat {
    if q.body == "" then HeadersRead(chunks, q)
    else FirstWith(chunks, BodyEnd(q), HeadersRead(chunks, q) + 1)
  }

  /** No read leaves off between the CR and the LF of a first line of 1023 bytes. */
  predicate KeepsLineEnd(chunks: seq<Chunk>, q: Request) {
    |q.line| == FIRSTLINE_MAXLEN - 1 ==>
      forall k: nat :: k <= |chunks| ==> |Brought(chunks, k)| != FIRSTLINE_MAXLEN
  }

  predicate InTime(chunks: seq<Chunk>, q: Request) {
    && HeadersRead(chunks, q) <= MAX_RETRIES + 1
    && BodyRead(chunks, q) <= HeadersRead(chunks, q) + MAX_RETRIES + 1
    && BodyRead(chunks, q) <= |chunks|
    && KeepsLineEnd(chunks, q)
  }

  lemma {:induction false} FindPrefix(s: string, t: string, p: string)
    requires p != "" && s <= t && Find(t, p) < |t| && Find(t, p) + |p| <= |s|
    ensures Find(s, p) == Find(t, p)
  {
    PrefixOfPrefix(p, s, t);
    if !(p <= s) {
      FindPrefix(s[1..], t[1..], p);
    }
  }

  lemma CutLine(p: Parsers, stream: string)
    requires Cut(p, stream).Some?
    ensures LineKnown(p, Cut(p, stream).value.line, stream)
  {
  }

  /** What a cut request says about the bytes behind its first line. */
  predicate HeadersCut(p: Parsers, q: Request, rest: string) {
    match q.headers
    case None => CRLF <= rest && q.body == ""
    case Some(block) =>
      && !(CRLF <= rest)
      && 4 <= |block| <= |rest| && Find(rest, BLANK_LINE) == |block| - 4 && block == rest[..|block|]
      && p.headers(block).Some?
      && AfterHeaders(p.headers(block).value.contentLength) == (if q.body == "" then Validating else ReadingBody)
  }

  lemma CutHeaders(p: Parsers, stream: string)
    requires Cut(p, stream).Some?
    ensures var q := Cut(p, stream).value;
      LineEnd(q) <= |stream| && HeadersCut(p, q, stream[LineEnd(q)..])
  {
  }

  /** Both search for the same line. */
  lemma SameLine(p: Parsers, line: string, s: string, stream: string)
    requires LineKnown(p, line, s) && s <= stream && Cut(p, stream).Some?
    ensures Cut(p, stream).value.line == line
    ensures s[|line| + 2..] <= stream[|line| + 2..]
  {
    LineKnownExtend(p, line, s, stream);
  }

  lemma LineTurn(p: Parsers, c: Conn, chunk: Chunk, stream: string)
    requires c.state == ReadingFirstLine && Inv(p, c) && c.retries <= MAX_RETRIES
    requires Cut(p, stream).Some? && c.input.received + chunk <= stream
    ensures var d, n, q := Step(p, c, chunk), |c.input.received + chunk|, Cut(p, stream).value;
      && d.state == (if LineEnd(q) <= n then ReadingHeaders
                     else if n < FIRSTLINE_MAXLEN then ReadingFirstLine else Responding)
      && d.retries == c.retries + 1 && d.input.received == c.input.received + chunk
  {
    var q := Cut(p, stream).value;
    var data := c.input.data + chunk;
    CutLine(p, stream);
    if LineEnd(q) <= |data| {
      FindPrefix(data, stream, CRLF);
      SliceExtend(data, stream, 0, |q.line|);
    } else if Find(data, CRLF) < |data| {
      FindExtend(data, stream, CRLF);
    }
    assert Step(p, c, chunk) == ReadFirstLine(p, Take(c, chunk));
  }

  lemma HeadersSeen(p: Parsers, q: Request, data: string, rest: string)
    requires data <= rest && HeadersCut(p, q, rest)
    requires |data| >= HeadersSize(q)
    ensures HeadersCut(p, q, data)
  {
    PrefixOfPrefix(CRLF, data, rest);
    if q.headers.Some? {
      FindPrefix(data, rest, BLANK_LINE);
      SliceExtend(data, rest, 0, |q.headers.value|);
    }
  }

  lemma {:induction false} HeadersUnseen(p: Parsers, q: Request, data: string, rest: string)
    requires data <= rest && HeadersCut(p, q, rest)
    requires |data| < HeadersSize(q)
    ensures !(CRLF <= data) && Find(data, BLANK_LINE) == |data|
  {
    if Find(data, BLANK_LINE) < |data| {
      FindExtend(data, rest, BLANK_LINE);
    }
  }

  lemma HeadersOutcome(p: Parsers, m: Conn, q: Request, rest: string)
    requires m.state == ReadingHeaders && m.input.data <= rest && HeadersCut(p, q, rest)
    ensures var d := ReadHeaders(p, m);
      && d.input.received == m.input.received
      && (if |m.input.data| < HeadersSize(q) then d.state == ReadingHeaders && d.retries == m.retries
          else d.state == (if q.body == "" then Validating else ReadingBody) && d.retries == 0)
  {
    if |m.input.data| < HeadersSize(q) {
      HeadersUnseen(p, q, m.input.data, rest);
    } else {
      HeadersSeen(p, q, m.input.data, rest);
    }
  }

  /** A connection that reads the headers has the first line of the request, and its buffer begins behind it. */
  lemma HeadersAhead(p: Parsers, i: Input, stream: string, q: Request)
    requires HeadersInv(p, i) && i.received <= stream && Cut(p, stream) == Some(q)
    ensures LineEnd(q) <= |stream| && |i.received| == LineEnd(q) + |i.data|
    ensures i.data <= stream[LineEnd(q)..] && HeadersCut(p, q, stream[LineEnd(q)..])
  {
    SameLine(p, i.line, i.received, stream);
    CutHeaders(p, stream);
  }

  lemma HeadersTurn(p: Parsers, c: Conn, chunk: Chunk, stream: string)
    requires c.state == ReadingHeaders && Inv(p, c) && c.retries <= MAX_RETRIES
    requires Cut(p, stream).Some? && c.input.received + chunk <= stream
    ensures var d, n, q := Step(p, c, chunk), |c.input.received + chunk|, Cut(p, stream).value;
      && d.state == (if n < HeadersEnd(q) then ReadingHeaders else if q.body == "" then Validating else ReadingBody)
      && d.retries == (if n < HeadersEnd(q) then c.retries + 1 else 0)
      && d.input.received == c.input.received + chunk
  {
    var q := Cut(p, stream).value;
    var m := Take(c, chunk);
    HeadersInvAppend(p, c.input, chunk);
    HeadersAhead(p, m.input, stream, q);
    HeadersOutcome(p, m, q, stream[LineEnd(q)..]);
    assert Step(p, c, chunk) == ReadHeaders(p, m);
  }

  lemma KnownIsCut(p: Parsers, line: string, block: string, length: int, stream: string)
    requires LineKnown(p, line, stream) && HeadersKnown(p, block, length, stream[|line| + 2..])
    requires length > 0 && Cut(p, stream).Some?
    ensures var q := Cut(p, stream).value; q.line == line && q.headers == Some(block) && |q.body| == length
  {
    assert Cut(p, stream) == CutBody(p, line, stream[|line| + 2..], |block|);
  }

  /** A connection that reads the body has the header block of the request, and the length of its body. */
  lemma SameHeaders(p: Parsers, i: Input, stream: string)
    requires BodyInv(p, i) && i.received <= stream && Cut(p, stream).Some?
    ensures var q := Cut(p, stream).value;
      q.line == i.line && q.headers == i.headers && |q.body| == i.contentLength
  {
    LineKnownExtend(p, i.line, i.received, stream);
    SliceExtend(i.received, stream, |i.line| + 2, |i.received|);
    HeadersKnownExtend(p, i.headers.value, i.contentLength, i.received[|i.line| + 2..], stream[|i.line| + 2..]);
    KnownIsCut(p, i.line, i.headers.value, i.contentLength, stream);
  }

  lemma BodyTurn(p: Parsers, c: Conn, chunk: Chunk, stream: string)
    requires c.state == ReadingBody && Inv(p, c) && c.retries <= MAX_RETRIES
    requires Cut(p, stream).Some? && c.input.received + chunk <= stream
    ensures var d, n, q := Step(p, c, chunk), |c.input.received + chunk|, Cut(p, stream).value;
      && d.state == (if n < BodyEnd(q) then ReadingBody else Validating)
      && d.retries == (if n < BodyEnd(q) then c.retries + 1 else 0)
      && d.input.received == c.input.received + chunk
      && q.body != ""
  {
    var m := Take(c, chunk);
    BodyInvAppend(p, c.input, chunk);
    SameHeaders(p, m.input, stream);
    assert Step(p, c, chunk) == ReadBody(m);
  }

  /** The connection has been answered, or is about to be, without a request. */
  predicate Gone(c: Conn) {
    c.state == Error || c.state == Responding || c.state == Disposing
  }

  /** The `k`-th read is an attempt the connection makes, and does not fill the buffer in mid line. */
  predicate Fits(chunks: seq<Chunk>, q: Request, k: nat) {
    && (k <= HeadersRead(chunks, q) ==> k <= MAX_RETRIES + 1)
    && (HeadersRead(chunks, q) < k ==> k <= HeadersRead(chunks, q) + MAX_RETRIES + 1)
    && (k < LineRead(chunks, q) && k <= |chunks| ==> |Brought(chunks, k)| < FIRSTLINE_MAXLEN)
  }

  /** Where the connection stands after `k` reads that all fit. */
  predicate OnTrack(c: Conn, chunks: seq<Chunk>, q: Request, k: nat)
    requires k <= |chunks|
  {
    var l, h, b := LineRead(chunks, q), HeadersRead(chunks, q), BodyRead(chunks, q);
    && c.input.received == Brought(chunks, k)
    && c.state == (if k < l then ReadingFirstLine else if k < h then ReadingHeaders
                   else if k < b then ReadingBody else Validating)
    && c.retries == (if k < h then k else if k < b then k - h else 0)
  }

  /** How a step moves on when `n` bytes of the request are there after it. */
  predicate Turn(c: Conn, d: Conn, q: Request, n: nat) {
    if c.retries > MAX_RETRIES then d.state == Error
    else if c.state == ReadingFirstLine && LineEnd(q) <= n then d.state == ReadingHeaders && d.retries == c.retries + 1
    else if c.state == ReadingFirstLine && FIRSTLINE_MAXLEN <= n then d.state == Responding
    else if c.state == ReadingHeaders && HeadersEnd(q) <= n then
      d.state == (if q.body == "" then Validating else ReadingBody) && d.retries == 0
    else if c.state == ReadingBody && BodyEnd(q) <= n then d.state == Validating && d.retries == 0
    else d.state == c.state && d.retries == c.retries + 1
  }

  lemma StepTurns(p: Parsers, c: Conn, chunk: Chunk, stream: string, q: Request)
    requires Reading(c.state) && Inv(p, c)
    requires Cut(p, stream) == Some(q) && c.input.received + chunk <= stream
    ensures Turn(c, Step(p, c, chunk), q, |c.input.received + chunk|)
    ensures c.retries <= MAX_RETRIES ==> Step(p, c, chunk).input.received == c.input.received + chunk
  {
    if c.retries > MAX_RETRIES {
      assert Step(p, c, chunk) == GiveUp(c);
    } else if c.state == ReadingFirstLine {
      LineTurn(p, c, chunk, stream);
    } else if c.state == ReadingHeaders {
      HeadersTurn(p, c, chunk, stream);
    } else {
      BodyTurn(p, c, chunk, stream);
    }
  }

  /** A read that fits leads to the next point of the track, and no other does. */
  lemma TrackTurn(c: Conn, d: Conn, chunks: seq<Chunk>, q: Request, k: nat)
    requires k < |chunks| && k < BodyRead(chunks, q) && OnTrack(c, chunks, q, k)
    requires Turn(c, d, q, |Brought(chunks, k + 1)|)
    requires c.retries <= MAX_RETRIES ==> d.input.received == Brought(chunks, k + 1)
    ensures if Fits(chunks, q, k + 1) then OnTrack(d, chunks, q, k + 1) else Gone(d)
  {
  }

  /** The connection behind each read: `t[k]` is what it is after the first `k` of `chunks`. */
  ghost predicate IsTrace(p: Parsers, chunks: seq<Chunk>, t: seq<Conn>) {
    && |t| == |chunks| + 1 && t[0] == STARTED
    && forall k: nat {:trigger Step(p, t[k], chunks[k])} :: k < |chunks| ==> t[k + 1] == Step(p, t[k], chunks[k])
  }

  function Trace(p: Parsers, chunks: seq<Chunk>): seq<Conn> {
    seq(|chunks| + 1, k requires 0 <= k <= |chunks| => Reads(p, chunks[..k]))
  }

  lemma TraceIsTrace(p: Parsers, chunks: seq<Chunk>)
    ensures IsTrace(p, chunks, Trace(p, chunks))
  {
    var t := Trace(p, chunks);
    assert chunks[..0] == [];
    ReadsNone(p);
    forall k: nat | k < |chunks|
      ensures t[k + 1] == Step(p, t[k], chunks[k])
    {
      assert chunks[..k + 1] == chunks[..k] + [chunks[k]];
      ReadsSnoc(p, chunks[..k], chunks[k]);
    }
  }

  lemma TraceNext(p: Parsers, chunks: seq<Chunk>, t: seq<Conn>, k: nat)
    requires IsTrace(p, chunks, t) && k < |chunks|
    ensures t[k + 1] == Step(p, t[k], chunks[k])
  {
  }

  lemma StartedInv(p: Parsers)
    ensures Inv(p, STARTED)
  {
  }

  lemma {:induction false} TraceInv(p: Parsers, chunks: seq<Chunk>, t: seq<Conn>, k: nat)
    requires IsTrace(p, chunks, t) && k <= |chunks|
    ensures Inv(p, t[k])
  {
    if k == 0 {
      StartedInv(p);
    } else {
      TraceInv(p, chunks, t, k - 1);
      TraceNext(p, chunks, t, k - 1);
      StepInv(p, t[k - 1], chunks[k - 1]);
    }
  }

  lemma {:induction false} TrackNext(p: Parsers, chunks: seq<Chunk>, t: seq<Conn>, q: Request, k: nat)
    requires IsTrace(p, chunks, t) && Cut(p, Stream(chunks)) == Some(q)
    requires k < |chunks| && k < BodyRead(chunks, q) && OnTrack(t[k], chunks, q, k)
    ensures if Fits(chunks, q, k + 1) then OnTrack(t[k + 1], chunks, q, k + 1) else Gone(t[k + 1])
  {
    BroughtNext(chunks, k);
    BroughtAll(chunks, k + 1);
    TraceInv(p, chunks, t, k);
    TraceNext(p, chunks, t, k);
    StepTurns(p, t[k], chunks[k], Stream(chunks), q);
    TrackTurn(t[k], t[k + 1], chunks, q, k);
  }

  lemma GoneNext(p: Parsers, chunks: seq<Chunk>, t: seq<Conn>, k: nat)
    requires IsTrace(p, chunks, t) && k < |chunks| && Gone(t[k])
    ensures Gone(t[k + 1])
  {
    TraceNext(p, chunks, t, k);
  }

  lemma {:induction false} GoneStays(p: Parsers, chunks: seq<Chunk>, t: seq<Conn>, j: nat, k: nat)
    requires IsTrace(p, chunks, t) && j <= k <= |chunks| && Gone(t[j])
    ensures Gone(t[k])
    decreases k
  {
    if j < k {
      GoneStays(p, chunks, t, j, k - 1);
      GoneNext(p, chunks, t, k - 1);
    }
  }

  predicate AllFit(chunks: seq<Chunk>, q: Request, k: nat) {
    k == 0 || (AllFit(chunks, q, k - 1) && Fits(chunks, q, k))
  }

  lemma {:induction false} AllFitIff(chunks: seq<Chunk>, q: Request, k: nat)
    ensures AllFit(chunks, q, k) <==> forall j: nat :: 0 < j <= k ==> Fits(chunks, q, j)
  {
    if k > 0 {
      AllFitIff(chunks, q, k - 1);
    }
  }

  /** Up to its last read, a connection is on track or its request is lost. */
  predicate TrackedOrGone(c: Conn, chunks: seq<Chunk>, q: Request, k: nat)
    requires k <= |chunks|
  {
    if AllFit(chunks, q, k) then OnTrack(c, chunks, q, k) else Gone(c)
  }

  lemma TrackedStart(chunks: seq<Chunk>, q: Request)
    ensures TrackedOrGone(STARTED, chunks, q, 0)
  {
  }

  lemma {:induction false} TrackedNext(p: Parsers, chunks: seq<Chunk>, t: seq<Conn>, q: Request, k: nat)
    requires IsTrace(p, chunks, t) && Cut(p, Stream(chunks)) == Some(q)
    requires k < |chunks| && k < BodyRead(chunks, q) && TrackedOrGone(t[k], chunks, q, k)
    ensures TrackedOrGone(t[k + 1], chunks, q, k + 1)
  {
    if AllFit(chunks, q, k) {
      TrackNext(p, chunks, t, q, k);
    } else {
      GoneNext(p, chunks, t, k);
    }
  }

  lemma {:induction false} Tracked(p: Parsers, chunks: seq<Chunk>, t: seq<Conn>, q: Request, k: nat)
    requires IsTrace(p, chunks, t) && Cut(p, Stream(chunks)) == Some(q)
    requires k <= |chunks| && k <= BodyRead(chunks, q)
    ensures TrackedOrGone(t[k], chunks, q, k)
  {
    if k == 0 {
      TrackedStart(chunks, q);
    } else {
      Tracked(p, chunks, t, q, k - 1);
      TrackedNext(p, chunks, t, q, k - 1);
    }
  }

  lemma {:induction false} AllFitIsInTime(chunks: seq<Chunk>, q: Request)
    requires |q.line| < FIRSTLINE_MAXLEN && BodyRead(chunks, q) <= |chunks|
    ensures AllFit(chunks, q, BodyRead(chunks, q)) <==> InTime(chunks, q)
  {
    var h, b := HeadersRead(chunks, q), BodyRead(chunks, q);
    AllFitIff(chunks, q, b);
    assert AllFit(chunks, q, b) ==> Fits(chunks, q, h) && Fits(chunks, q, b);
    if AllFit(chunks, q, b) && |q.line| == FIRSTLINE_MAXLEN - 1 {
      forall k: nat | k <= |chunks|
        ensures |Brought(chunks, k)| != FIRSTLINE_MAXLEN
      {
        if 0 < k < LineRead(chunks, q) {
          assert Fits(chunks, q, k);
        } else if k > 0 {
          BroughtGrows(chunks, LineRead(chunks, q), k);
        }
      }
    }
  }

  lemma StepReceives(p: Parsers, c: Conn, chunk: Chunk)
    requires c.state != Initializing
    ensures var d := Step(p, c, chunk);
      && d.state != Initializing && (Reading(d.state) ==> Reading(c.state))
      && d.input.received == c.input.received
         + (if Reading(c.state) && c.retries <= MAX_RETRIES then chunk else "")
      && (Reading(d.state) ==> c.retries <= MAX_RETRIES)
  {
    assert c.input.received + "" == c.input.received;
    if Reading(c.state) && c.retries <= MAX_RETRIES {
      if c.state == ReadingFirstLine {
        FirstLineEffect(p, Take(c, chunk));
      } else if c.state == ReadingHeaders {
        HeadersEffect(p, Take(c, chunk));
      }
    }
  }

  /** No byte is read out of turn, and none is read twice. */
  lemma {:induction false} ReceivedIsBrought(p: Parsers, chunks: seq<Chunk>, t: seq<Conn>, k: nat)
    requires IsTrace(p, chunks, t) && k <= |chunks|
    ensures t[k].state != Initializing && t[k].input.received <= Brought(chunks, k)
    ensures Reading(t[k].state) ==> t[k].input.received == Brought(chunks, k)
  {
    if k > 0 {
      ReceivedIsBrought(p, chunks, t, k - 1);
      BroughtNext(chunks, k - 1);
      TraceNext(p, chunks, t, k - 1);
      StepReceives(p, t[k - 1], chunks[k - 1]);
    }
  }

  lemma {:induction false} ReachedIsCut(p: Parsers, chunks: seq<Chunk>, t: seq<Conn>, k: nat)
    requires IsTrace(p, chunks, t) && k <= |chunks| && t[k].state == Validating
    ensures Cut(p, Stream(chunks)) == Some(Held(t[k].input))
  {
    ReceivedIsBrought(p, chunks, t, k);
    BroughtAll(chunks, k);
    TraceInv(p, chunks, t, k);
    CutExtend(p, t[k].input.received, Stream(chunks));
  }

  lemma {:induction false} ReachedIsInTime(p: Parsers, chunks: seq<Chunk>, t: seq<Conn>, q: Request, k: nat)
    requires IsTrace(p, chunks, t) && k <= |chunks| && t[k].state == Validating && Cut(p, Stream(chunks)) == Some(q)
    ensures InTime(chunks, q)
  {
    var b := BodyRead(chunks, q);
    CutLine(p, Stream(chunks));
    if k < b {
      Tracked(p, chunks, t, q, k);
    } else {
      Tracked(p, chunks, t, q, b);
      AllFitIsInTime(chunks, q);
      if !AllFit(chunks, q, b) {
        GoneStays(p, chunks, t, b, k);
      }
    }
  }

  /** A request that is in time is validated right behind its last read. */
  lemma {:induction false} InTimeIsReached(p: Parsers, chunks: seq<Chunk>, t: seq<Conn>, q: Request)
    requires IsTrace(p, chunks, t) && Cut(p, Stream(chunks)) == Some(q) && InTime(chunks, q)
    ensures t[BodyRead(chunks, q)].state == Validating
  {
    CutLine(p, Stream(chunks));
    AllFitIsInTime(chunks, q);
    Tracked(p, chunks, t, q, BodyRead(chunks, q));
  }

  /** After some read a request is complete, and the next step validates it. */
  ghost predicate Reached(p: Parsers, chunks: seq<Chunk>) {
    exists k: nat :: k <= |chunks| && Reads(p, chunks[..k]).state == Validating
  }

  /**
   Exactly which requests get through, for every list of chunks: a request is reached if and only if one can
   be cut from all the bytes, its header block (or the empty line) is there by the 21st read and after the
   read that brought the end of its first line, its body within 21 reads more, and no read leaves off in
   the middle of the end of a first line of 1023 bytes.
   */
  lemma {:induction false} ReachedIff(p: Parsers, chunks: seq<Chunk>)
    ensures Reached(p, chunks) <==>
      Cut(p, Stream(chunks)).Some? && InTime(chunks, Cut(p, Stream(chunks)).value)
  {
    var t := Trace(p, chunks);
    TraceIsTrace(p, chunks);
    if k: nat :| k <= |chunks| && Reads(p, chunks[..k]).state == Validating {
      assert t[k] == Reads(p, chunks[..k]);
      ReachedIsCut(p, chunks, t, k);
      ReachedIsInTime(p, chunks, t, Held(t[k].input), k);
    }
    if Cut(p, Stream(chunks)).Some? && InTime(chunks, Cut(p, Stream(chunks)).value) {
      var k := BodyRead(chunks, Cut(p, Stream(chunks)).value);
      InTimeIsReached(p, chunks, t, Cut(p, Stream(chunks)).value);
      assert t[k] == Reads(p, chunks[..k]);
    }
  }

  // ---------------------------------------------------------------- the longest first line

  /**
   A first line of 1023 bytes is refused exactly when a read ends between its CR and its LF, which
   depends on nothing but the chunking.
   */
  lemma EdgeLineRefusedIff(p: Parsers, c: Conn, chunk: Chunk, stream: string)
    requires c.state == ReadingFirstLine && Inv(p, c) && c.retries <= MAX_RETRIES
    requires Cut(p, stream).Some? && |Cut(p, stream).value.line| == FIRSTLINE_MAXLEN - 1
    requires c.input.received + chunk <= stream
    ensures Step(p, c, chunk).state == Responding <==> |c.input.received| + |chunk| == FIRSTLINE_MAXLEN
    ensures Step(p, c, chunk).state == ReadingHeaders <==> |c.input.received| + |chunk| > FIRSTLINE_MAXLEN
  {
    CutLine(p, stream);
    EdgeLineFound(p, c.input.data + chunk, Cut(p, stream).value.line, stream);
    assert Step(p, c, chunk) == ReadFirstLine(p, Take(c, chunk));
  }

  lemma {:induction false} EdgeLineFound(p: Parsers, data: string, line: string, stream: string)
    requires data <= stream && LineKnown(p, line, stream) && |line| == FIRSTLINE_MAXLEN - 1
    ensures |data| <= FIRSTLINE_MAXLEN ==> Find(data, CRLF) == |data|
    ensures |data| > FIRSTLINE_MAXLEN ==> LineKnown(p, line, data)
  {
    if |data| > FIRSTLINE_MAXLEN {
      FindPrefix(data, stream, CRLF);
      SliceExtend(data, stream, 0, FIRSTLINE_MAXLEN - 1);
    } else if Find(data, CRLF) < |data| {
      FindExtend(data, stream, CRLF);
    }
  }

  lemma {:induction false} EdgeFirstHalf(p: Parsers, chunk: Chunk, stream: string)
    requires 0 < |chunk| < FIRSTLINE_MAXLEN - 1 && chunk <= stream
    requires Find(stream, CRLF) == FIRSTLINE_MAXLEN - 1 < |stream|
    ensures var d := Step(p, STARTED, chunk);
      d.state == ReadingFirstLine && d.retries == 1 && d.input.received == chunk
  {
    var n := Take(STARTED, chunk);
    assert "" + chunk == chunk;
    if Find(chunk, CRLF) < |chunk| {
      FindExtend(chunk, stream, CRLF);
    }
    assert Step(p, STARTED, chunk) == ReadFirstLine(p, n);
  }

  lemma StartRead(p: Parsers, chunk: Chunk)
    ensures Reads(p, [chunk]) == Step(p, STARTED, chunk) && Inv(p, STARTED)
  {
    ReadsNone(p);
    ReadsSnoc(p, [], chunk);
    StartedInv(p);
    assert [] + [chunk] == [chunk];
  }

  /** Every such stream is refused under one chunking and goes on to its headers under another. */
  lemma EdgeLineDependsOnChunking(p: Parsers, stream: string)
    requires Cut(p, stream).Some? && |Cut(p, stream).value.line| == FIRSTLINE_MAXLEN - 1
    ensures |stream| > 1024
    ensures Reads(p, [stream[..1024]]).state == Responding
    ensures Reads(p, [stream[..512], stream[512..1025]]).state == ReadingHeaders
  {
    assert Find(stream, CRLF) == FIRSTLINE_MAXLEN - 1;
    EdgeInOne(p, stream);
    EdgeInTwo(p, stream[..512], stream[512..1025], stream);
  }

  lemma EdgeInOne(p: Parsers, stream: string)
    requires Cut(p, stream).Some? && |Cut(p, stream).value.line| == FIRSTLINE_MAXLEN - 1 && |stream| > 1024
    ensures Reads(p, [stream[..1024]]).state == Responding
  {
    StartRead(p, stream[..1024]);
    assert "" + stream[..1024] == stream[..1024];
    EdgeLineRefusedIff(p, STARTED, stream[..1024], stream);
  }

  lemma EdgeSecondHalf(p: Parsers, a: Chunk, b: Chunk, stream: string)
    requires Cut(p, stream).Some? && |Cut(p, stream).value.line| == FIRSTLINE_MAXLEN - 1
    requires 0 < |a| < FIRSTLINE_MAXLEN - 1 && a <= a + b <= stream && |a| + |b| > FIRSTLINE_MAXLEN
    ensures Step(p, Step(p, STARTED, a), b).state == ReadingHeaders
  {
    StartedInv(p);
    StepInv(p, STARTED, a);
    EdgeFirstHalf(p, a, stream);
    EdgeLineRefusedIff(p, Step(p, STARTED, a), b, stream);
  }

  lemma EdgeInTwo(p: Parsers, a: Chunk, b: Chunk, stream: string)
    requires Cut(p, stream).Some? && |Cut(p, stream).value.line| == FIRSTLINE_MAXLEN - 1
    requires 0 < |a| < FIRSTLINE_MAXLEN - 1 && a + b <= stream && |a| + |b| > FIRSTLINE_MAXLEN
    ensures Reads(p, [a, b]).state == ReadingHeaders
  {
    StartRead(p, a);
    ReadsSnoc(p, [a], b);
    assert [a] + [b] == [a, b];
    assert a <= a + b;
    EdgeSecondHalf(p, a, b, stream);
  }
}
