/**
 The connection object itself: the buffer is reallocated on every read and shifted in place, the fields
 are updated state by state. Each step is proved to do what `RequestFraming.Step` says.
 */
module HttpConnection {
  import opened Wrappers
  import opened RequestFraming

  class Connection {
    const parsers: Parsers

    var state: State
    var retries: nat
    var addr: array<char>
    var size: nat
    var line: string
    var headers: Option<string>
    var contentLength: int
    var status: int
    var requested: bool
    var ready: bool
    ghost var received: string

    ghost predicate Valid()
      reads this
    {
      size <= addr.Length
    }

    ghost function Abs(): Conn
      requires Valid()
      reads this, addr
    {
      Conn(state, retries, Input(received, addr[..size], line, headers, contentLength), status, requested, ready)
    }

    constructor (p: Parsers)
      ensures Valid() && Abs() == INITIAL && parsers == p && fresh(addr)
    {
      parsers := p;
      state, retries := Initializing, 0;
      addr, size := new char[1], 0;
      line, headers, contentLength := "", None, 0;
      status, requested, ready := 0, false, false;
      received := "";
    }

    /** Moves what lies behind the first `k` bytes to the front; the size stays. */
    method Shift(k: nat)
      requires Valid() && k <= size
      modifies addr
      ensures addr[..size] == old(addr[k..size]) + old(addr[size - k..size])
    {
      var i := 0;
      while i < size - k
        invariant 0 <= i <= size - k
        invariant addr[..i] == old(addr[k..k + i])
        invariant forall j :: i <= j < addr.Length ==> addr[j] == old(addr[j])
      {
        addr[i] := addr[i + k];
        i := i + 1;
      }
    }

    /** Drops the first `k` bytes of the buffer. */
    method Drop(k: nat)
      requires Valid() && k <= size
      modifies `size, addr
      ensures Valid() && addr[..size] == old(addr[..size][k..])
    {
      Shift(k);
      size := size - k;
    }

    /** One read: what comes is put behind what is there, in a larger buffer. */
    method Receive(chunk: Chunk)
      requires Valid()
      modifies `addr, `size, `received, `retries
      ensures Valid() && (addr == old(addr) || fresh(addr))
      ensures Abs() == Take(old(Abs()), chunk)
    {
      retries := retries + 1;
      if 0 < |chunk| {
        var more := new char[size + |chunk|](i requires 0 <= i < size + |chunk| && size <= addr.Length
          reads this, addr =>
          if i < size then addr[i] else chunk[i - size]);
        assert more[..] == addr[..size] + chunk;
        addr, size := more, size + |chunk|;
      }
      received := received + chunk;
    }

    /** Cuts the first line off the buffer. */
    method TakeFirstLine(end: nat)
      requires Valid() && end + 2 <= size
      modifies `line, `size, addr
      ensures Valid() && Abs() == old(Abs()).(input := TakeLine(old(Abs()).input, end))
    {
      line := addr[..end];
      assert addr[..end] == addr[..size][..end];
      Drop(end + 2);
    }

    /** Cuts the header block off the buffer. */
    method TakeHeaderBlock(end: nat, length: Option<int>)
      requires Valid() && end <= size
      modifies `headers, `contentLength, `size, addr
      ensures Valid() && Abs() == old(Abs()).(input := TakeHeaders(old(Abs()).input, end, length))
    {
      headers := Some(addr[..end]);
      assert addr[..end] == addr[..size][..end];
      Drop(end);
      if length.Some? {
        contentLength := length.value;
      }
    }

    method SkipEmptyHeaders()
      requires Valid() && 2 <= size
      modifies addr
      ensures Abs() == old(Abs()).(input := TakeNoHeaders(old(Abs()).input))
    {
      assert addr[2..size] == addr[..size][2..];
      assert addr[size - 2..size] == addr[..size][size - 2..];
      Shift(2);
    }

    method ScanFirstLine()
      requires Valid() && state == State.ReadingFirstLine
      modifies `state, `status, `line, `size, addr
      ensures Valid() && Abs() == RequestFraming.ReadFirstLine(parsers, old(Abs()))
    {
      if size == 0 {
        return;
      }
      var lineEnd := Find(addr[..size], CRLF);
      if lineEnd == size {
        if size >= FIRSTLINE_MAXLEN {
          status, state := 400, Responding;
        }
        return;
      }
      if lineEnd == 0 || lineEnd >= FIRSTLINE_MAXLEN {
        status, state := 400, Responding;
        return;
      }
      if parsers.firstLine(addr[..size][..lineEnd]) == None {
        state := Error;
        return;
      }
      TakeFirstLine(lineEnd);
      state := State.ReadingHeaders;
    }

    method ScanHeaders()
      requires Valid() && state == State.ReadingHeaders
      modifies `state, `status, `retries, `headers, `contentLength, `size, addr
      ensures Valid() && Abs() == RequestFraming.ReadHeaders(parsers, old(Abs()))
    {
      if size == 0 {
        return;
      }
      if CRLF <= addr[..size] {
        SkipEmptyHeaders();
        retries, state := 0, Validating;
        return;
      }
      var headersEnd := Find(addr[..size], BLANK_LINE);
      if headersEnd == size {
        return;
      }
      var parsed := parsers.headers(addr[..size][..headersEnd + 4]);
      if parsed == None {
        status, state := 400, Responding;
        return;
      }
      var length := parsed.value.contentLength;
      TakeHeaderBlock(headersEnd + 4, length);
      retries := 0;
      if length.Some? && length.value > 0 {
        state := State.ReadingBody;
      } else {
        state := Validating;
      }
    }

    method ScanBody()
      requires Valid() && state == State.ReadingBody
      modifies `state, `retries
      ensures Valid() && Abs() == RequestFraming.ReadBody(old(Abs()))
    {
      if size < contentLength {
        return;
      }
      retries, state := 0, Validating;
    }

    /** The three reading states: no more than 21 attempts, one read for each. */
    method ReadOn(chunk: Chunk)
      requires Valid() && Reading(state)
      modifies this, addr
      ensures Valid() && (addr == old(addr) || fresh(addr))
      ensures Abs() == Step(parsers, old(Abs()), chunk)
    {
      if retries > MAX_RETRIES {
        retries, state := retries + 1, Error;
        return;
      }
      Receive(chunk);
      if state == State.ReadingFirstLine {
        ScanFirstLine();
      } else if state == State.ReadingHeaders {
        ScanHeaders();
      } else {
        ScanBody();
      }
    }

    method CheckRequest()
      requires Valid() && state == Validating
      modifies `state, `status, `requested, `ready
      ensures Valid() && Abs() == Move(parsers, old(Abs()))
    {
      var first := parsers.firstLine(line);
      if first == None || !first.value.complete || !first.value.validMethod {
        status, state := 400, Responding;
        return;
      }
      status := 200;
      if first.value.path == "/echo" || first.value.path == "api/v1/echo" {
        ready, state := true, Responding;
        return;
      }
      requested, state := true, Handover;
    }

    /** The response is there: called by the instance while the connection waits for it. */
    method Answer(code: int)
      requires Valid()
      modifies `status, `ready
      ensures Valid() && Abs() == old(Abs()).(ready := true, status := code)
    {
      status, ready := code, true;
    }

    /** One turn of the connection's task; `chunk` is what a read returns in this turn. */
    method Taskwork(chunk: Chunk)
      requires Valid()
      modifies this, addr
      ensures Valid() && (addr == old(addr) || fresh(addr))
      ensures Abs() == Step(parsers, old(Abs()), chunk)
    {
      match state
      case Initializing => state := State.ReadingFirstLine;
      case ReadingFirstLine => ReadOn(chunk);
      case ReadingHeaders => ReadOn(chunk);
      case ReadingBody => ReadOn(chunk);
      case Validating => CheckRequest();
      case Handover =>
        if ready {
          state := Responding;
        }
      case Responding => state := Disposing;
      case Disposing =>
      case Error => status, state := 500, Responding;
    }
  }
}
