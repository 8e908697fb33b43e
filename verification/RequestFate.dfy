/**
 What becomes of a connection, told from the bytes it received: the request they hold, and the status it sends
 when no endpoint is asked.
 */
module RequestFate {
  import opened Wrappers
  import opened RequestFraming

  // ---------------------------------------------------------------- the request in the bytes

  /** `text` stands in `s` at `i`, and nowhere before. */
  predicate FirstAt(text: string, s: string, i: nat) {
    i + |text| <= |s| && s[i..i + |text|] == text && forall j: nat :: j < i ==> !Occurs(text, s, j)
  }

  /** The length of the body: what the header says, unless it says nothing or less than one byte. */
  function BodyLength(contentLength: int): nat {
    if contentLength > 0 then contentLength else 0
  }

  /** The bytes begin with a first line of 1 to 1023 bytes that its parser takes, and with its CR and LF. */
  predicate HoldsLine(p: Parsers, s: string, line: string) {
    0 < |line| < 1024 && line <= s && FirstAt("\r\n", s, |line|) && p.firstLine(line).Some?
  }

  /** Behind the first line `rest` begins with the header block, up to the first blank line, and with the body. */
  predicate HoldsRest(p: Parsers, rest: string, q: Request) {
    match q.headers
    case None => "\r\n" <= rest && q.contentLength == 0 && q.body == ""
    case Some(block) =>
      && !("\r\n" <= rest) && block + q.body <= rest
      && |block| >= 4 && FirstAt("\r\n\r\n", rest, |block| - 4)
      && (p.headers(block) == Some(Headers(Some(q.contentLength)))
          || (p.headers(block) == Some(Headers(None)) && q.contentLength == 0))
      && |q.body| == BodyLength(q.contentLength)
  }

  /** The bytes begin with the request. */
  predicate Holds(p: Parsers, s: string, q: Request) {
    HoldsLine(p, s, q.line) && HoldsRest(p, s[|q.line| + 2..], q)
  }

  lemma {:induction false} FindIsFirst(text: string, s: string, i: nat)
    requires text != ""
    ensures FirstAt(text, s, i) <==> Find(s, text) == i < |s|
  {
    var k := Find(s, text);
    if FirstAt(text, s, i) {
      assert Occurs(text, s, i);
      assert i <= k;
    }
  }

  lemma {:induction false} LineIff(p: Parsers, s: string, line: string)
    ensures HoldsLine(p, s, line) <==>
      var e := Find(s, CRLF); e < |s| && 0 < e < FIRSTLINE_MAXLEN && line == s[..e] && p.firstLine(line).Some?
  {
    FindIsFirst(CRLF, s, |line|);
  }

  lemma BlockFound(p: Parsers, line: string, rest: string, block: string)
    requires !(CRLF <= rest) && |block| >= 4 && FirstAt(BLANK_LINE, rest, |block| - 4) && block <= rest
    ensures CutRest(p, line, rest) == CutBody(p, line, rest, |block|) && rest[..|block|] == block
  {
    FindIsFirst(BLANK_LINE, rest, |block| - 4);
  }

  lemma HeldBlock(p: Parsers, rest: string, q: Request)
    requires HoldsRest(p, rest, q) && q.headers.Some?
    ensures CutRest(p, q.line, rest) == Some(q)
  {
    var block := q.headers.value;
    assert block <= block + q.body;
    BlockFound(p, q.line, rest, block);
    assert rest[|block|..|block| + |q.body|] == q.body;
  }

  lemma RestIff(p: Parsers, rest: string, q: Request)
    ensures CutRest(p, q.line, rest) == Some(q) <==> HoldsRest(p, rest, q)
  {
    if HoldsRest(p, rest, q) && q.headers.Some? {
      HeldBlock(p, rest, q);
    }
    if CutRest(p, q.line, rest) == Some(q) && q.headers.Some? {
      var h := Find(rest, BLANK_LINE);
      FindIsFirst(BLANK_LINE, rest, h);
      CutBlock(p, rest, q, h + 4);
    }
  }

  lemma CutBlock(p: Parsers, rest: string, q: Request, b: nat)
    requires b <= |rest| && CutBody(p, q.line, rest, b) == Some(q)
    ensures q.headers == Some(rest[..b]) && rest[..b] + q.body <= rest && |q.body| == BodyLength(q.contentLength)
    ensures p.headers(rest[..b]) == Some(Headers(Some(q.contentLength)))
            || (p.headers(rest[..b]) == Some(Headers(None)) && q.contentLength == 0)
  {
    var length := p.headers(rest[..b]).value.contentLength;
    assert p.headers(rest[..b]) == Some(Headers(length));
  }

  /** The splitter finds exactly the request the bytes begin with. */
  lemma CutIff(p: Parsers, s: string, q: Request)
    ensures Cut(p, s) == Some(q) <==> Holds(p, s, q)
  {
    LineIff(p, s, q.line);
    var e := Find(s, CRLF);
    if e < |s| && q.line == s[..e] {
      RestIff(p, s[e + 2..], q);
    }
    if Cut(p, s) == Some(q) {
      CutKeepsLine(p, s[..e], s[e + 2..]);
    }
  }

  lemma CutKeepsLine(p: Parsers, line: string, rest: string)
    requires CutRest(p, line, rest).Some?
    ensures CutRest(p, line, rest).value.line == line
  {
  }

  // ---------------------------------------------------------------- the status

  /** What bytes come to: refused, a first line its parser fails on, not yet a request, or one. */
  datatype Verdict = Refused | Failed | Incomplete | Complete(request: Request)

  /** No end of a line in 1024 bytes, or a first line that is empty or longer than 1023. */
  predicate BadLine(s: string) {
    var e := Find(s, CRLF);
    if e < |s| then e == 0 || e >= 1024 else |s| >= 1024
  }

  /** The block of headers, as far as its first blank line, is refused by its parser. */
  predicate BadHeaders(p: Parsers, rest: string) {
    var h := Find(rest, BLANK_LINE);
    !(CRLF <= rest) && h < |rest| && p.headers(rest[..h + 4]).None?
  }

  function VerdictOf(p: Parsers, s: string): Verdict {
    var e := Find(s, CRLF);
    if BadLine(s) then Refused
    else if e == |s| then Incomplete
    else if p.firstLine(s[..e]).None? then Failed
    else if BadHeaders(p, s[e + 2..]) then Refused
    else if Cut(p, s).Some? then Complete(Cut(p, s).value)
    else Incomplete
  }

  /** The first line is whole and its method known. */
  predicate ValidLine(p: Parsers, line: string) {
    p.firstLine(line).Some? && p.firstLine(line).value.complete && p.firstLine(line).value.validMethod
  }

  /** It asks for an endpoint of an instance, and not for the echo that the connection gives itself. */
  predicate ForEndpoint(p: Parsers, line: string) {
    && ValidLine(p, line)
    && p.firstLine(line).value.path != "/echo" && p.firstLine(line).value.path != "api/v1/echo"
  }

  /** An endpoint is asked exactly for a whole request with a valid line that is not for the echo. */
  predicate AsksEndpoint(p: Parsers, v: Verdict) {
    v.Complete? && ForEndpoint(p, v.request.line)
  }

  /** The status without an endpoint: 500 once more than 21 attempts were made, else by what was received. */
  function StatusAlone(p: Parsers, attempts: nat, v: Verdict): int {
    if attempts > 21 then 500
    else match v
      case Refused => 400
      case Failed => 500
      case Incomplete => 0
      case Complete(q) => if ValidLine(p, q.line) then 200 else 400
  }

  function Fate(p: Parsers, c: Conn): Verdict {
    VerdictOf(p, c.input.received)
  }

  /** A connection that sends its answer: the endpoint's if it asked one, otherwise its own. */
  predicate Answers(p: Parsers, c: Conn) {
    if c.requested then c.retries <= 21 && AsksEndpoint(p, Fate(p, c)) && c.ready
    else
      && c.status == StatusAlone(p, c.retries, Fate(p, c)) != 0
      && (c.retries > 21 || !AsksEndpoint(p, Fate(p, c)))
  }

  /** What the bytes say about a connection in each of its states. */
  predicate FateInv(p: Parsers, c: Conn) {
    match c.state
    case Error => !c.requested && (c.retries > 21 || Fate(p, c) == Failed)
    case Validating => c.retries <= 21
    case Handover => c.requested && c.retries <= 21 && AsksEndpoint(p, Fate(p, c))
    case Responding => Answers(p, c)
    case Disposing => Answers(p, c)
    case _ => true
  }

  lemma FramedIsComplete(p: Parsers, i: Input)
    requires Framed(p, i)
    ensures VerdictOf(p, i.received) == Complete(Held(i))
  {
    CutIsGood(p, i.received);
  }

  lemma CutIsGood(p: Parsers, s: string)
    requires Cut(p, s).Some?
    ensures VerdictOf(p, s) == Complete(Cut(p, s).value)
  {
  }

  lemma LineFate(p: Parsers, n: Conn)
    requires n.state == ReadingFirstLine && n.input.data == n.input.received && 0 < n.retries <= 21
    requires n.status == 0 && !n.requested && !n.ready
    ensures FateInv(p, ReadFirstLine(p, n))
  {
  }

  lemma HeadersFate(p: Parsers, n: Conn)
    requires n.state == ReadingHeaders && HeadersInv(p, n.input) && 0 < n.retries <= 21
    requires n.status == 0 && !n.requested && !n.ready
    ensures FateInv(p, ReadHeaders(p, n))
  {
    var m, data := ReadHeaders(p, n), n.input.data;
    if m.state == Responding {
      assert BadHeaders(p, data);
      assert VerdictOf(p, n.input.received) == Refused;
    }
  }

  lemma ValidateFate(p: Parsers, c: Conn)
    requires c.state == Validating && Framed(p, c.input) && c.retries <= 21
    requires c.status == 0 && !c.requested && !c.ready
    ensures FateInv(p, Validate(p, c))
  {
    FramedIsComplete(p, c.input);
  }

  lemma MoveFate(p: Parsers, c: Conn)
    requires Inv(p, c) && FateInv(p, c) && !Reading(c.state)
    ensures FateInv(p, Move(p, c))
  {
    if c.state == Validating {
      ValidateFate(p, c);
    }
  }

  lemma GiveUpFate(p: Parsers, c: Conn)
    requires Inv(p, c) && Reading(c.state) && c.retries > MAX_RETRIES
    ensures FateInv(p, GiveUp(c))
  {
  }

  /** Each step keeps it; the first line and the headers are judged by the bytes they were found in. */
  lemma StepFate(p: Parsers, c: Conn, chunk: Chunk)
    requires Inv(p, c) && FateInv(p, c)
    ensures FateInv(p, Step(p, c, chunk))
  {
    if !Reading(c.state) {
      MoveFate(p, c);
    } else if c.retries <= MAX_RETRIES {
      ReadFate(p, c, chunk);
    } else {
      GiveUpFate(p, c);
    }
  }

  lemma ReadFate(p: Parsers, c: Conn, chunk: Chunk)
    requires Inv(p, c) && Reading(c.state) && c.retries <= MAX_RETRIES
    ensures FateInv(p, Step(p, c, chunk))
  {
    var n := Take(c, chunk);
    if c.state == ReadingFirstLine {
      LineFate(p, n);
    } else if c.state == ReadingHeaders {
      HeadersInvAppend(p, c.input, chunk);
      HeadersFate(p, n);
    }
  }

  lemma {:induction false} RunFate(p: Parsers, chunks: seq<Chunk>)
    ensures FateInv(p, Run(p, chunks))
  {
    if chunks != [] {
      var init := chunks[..|chunks| - 1];
      RunFate(p, init);
      RunInv(p, init);
      StepFate(p, Run(p, init), chunks[|chunks| - 1]);
    }
  }

  /**
   In every run a connection that answers by itself answers with 500 if more than 21 attempts to read were made, and
   otherwise by the bytes it received: 400 for a first line that is empty or too long, for headers their parser refuses
   and for a first line that is not valid, 500 for one its parser fails on, and 200 for an echo. It asks an endpoint
   exactly if the bytes hold a request, in time, that is valid and no echo.
   */
  lemma {:induction false} StatusByBytes(p: Parsers, chunks: seq<Chunk>)
    ensures var c := Run(p, chunks);
      && (c.state == Responding || c.state == Disposing ==>
            c.status == StatusAlone(p, c.retries, VerdictOf(p, c.input.received)) != 0)
      && (c.requested <==> c.state == Handover)
      && (c.state == Handover || c.state == Responding || c.state == Disposing ==>
            (c.requested <==> c.retries <= 21 && AsksEndpoint(p, VerdictOf(p, c.input.received))))
  {
    RunFate(p, chunks);
    RunAlone(p, chunks);
  }

  /** Without an endpoint's answer a connection that asked keeps waiting. */
  lemma {:induction false} RunAlone(p: Parsers, chunks: seq<Chunk>)
    ensures var c := Run(p, chunks); c.requested <==> c.state == Handover
    ensures var c := Run(p, chunks); c.requested ==> !c.ready
  {
    if chunks != [] {
      var init := chunks[..|chunks| - 1];
      RunAlone(p, init);
      RunInv(p, init);
      AloneStep(p, Run(p, init), chunks[|chunks| - 1]);
    }
  }

  lemma AloneStep(p: Parsers, c: Conn, chunk: Chunk)
    requires Inv(p, c) && (c.requested <==> c.state == Handover) && (c.requested ==> !c.ready)
    ensures var d := Step(p, c, chunk); (d.requested <==> d.state == Handover) && (d.requested ==> !d.ready)
  {
    if Reading(c.state) && c.retries <= MAX_RETRIES {
      if c.state == ReadingFirstLine {
        FirstLineEffect(p, Take(c, chunk));
      } else if c.state == ReadingHeaders {
        HeadersEffect(p, Take(c, chunk));
      }
    }
  }
}
