/** Reading one request off a connection: capped lines, headers, framing, body. Bytes are
    characters; which byte strings are UTF-8 is a parameter; no deadline passes. */
module Http {
  import opened Wrappers
  import opened Decimals

  datatype Limits = Limits(maxBody: nat, maxHeaderBytes: nat, utf8: string -> bool)
  datatype Header = Header(name: string, value: string)
  datatype Request = Request(method_: string, path: string, query: string, version: string, headers: seq<Header>,
                             body: string)

  /** `Closed`: the peer closed before sending anything. `Broken`: an I/O error. */
  datatype Incoming = Closed | Got(request: Request) | TooBig | Reject(status: nat) | Broken

  // ---- text ----

  function Trim(s: string): string {
    TrimEnd(TrimStart(s))
  }

  predicate IsEol(c: char) {
    c == '\r' || c == '\n'
  }

  /** Without the carriage returns and newlines at the end. */
  function TrimEol(s: string): (r: string)
    ensures |r| <= |s|
  {
    if s != "" && IsEol(s[|s| - 1]) then TrimEol(s[..|s| - 1]) else s
  }

  function Index(s: string, c: char): (n: nat)
    ensures n <= |s| && (n < |s| ==> s[n] == c)
  {
    if s == "" || s[0] == c then 0 else 1 + Index(s[1..], c)
  }

  function TokenLength(s: string): (n: nat)
    ensures n <= |s| && (n == 0 && s != "" ==> IsSpace(s[0]))
  {
    if s == "" || IsSpace(s[0]) then 0 else 1 + TokenLength(s[1..])
  }

  function Tokens(s: string): seq<string>
    decreases |s|
  {
    if s == "" then []
    else if IsSpace(s[0]) then Tokens(s[1..])
    else [s[..TokenLength(s)]] + Tokens(s[TokenLength(s)..])
  }

  predicate Same(a: string, b: string) {
    |a| == |b| && forall i :: 0 <= i < |a| ==> Lower(a[i]) == Lower(b[i])
  }

  // ---- what the bytes say ----

  datatype Line = Read(n: nat) | Eof | LineTooLong

  /** The length of the first line, its newline included. */
  function LineLength(s: string): (n: nat)
    ensures n <= |s| && (n == 0 <==> s == "")
  {
    if s == "" then 0 else if s[0] == '\n' then 1 else 1 + LineLength(s[1..])
  }

  function LineOf(s: string, max: nat): (r: Line)
    ensures r.Read? ==> 0 < r.n <= |s| && r.n <= max
  {
    var n := LineLength(s);
    if n > max then LineTooLong else if n == 0 then Eof else Read(n)
  }

  function At(parts: seq<string>, i: nat, default_: string): string {
    if i < |parts| then parts[i] else default_
  }

  /** Method, path, query and version of the request line. */
  function RequestLine(line: string): (string, string, string, string) {
    var parts := Tokens(line);
    var target := At(parts, 1, "/");
    var q := Index(target, '?');
    (At(parts, 0, ""), target[..q], if q < |target| then target[q + 1..] else "", At(parts, 2, "HTTP/1.1"))
  }

  /** A line without a colon is passed over. */
  function HeaderOf(line: string): Option<Header> {
    var colon := Index(line, ':');
    if colon == |line| then None else Some(Header(Trim(line[..colon]), Trim(line[colon + 1..])))
  }

  function ContentLength(v: string): Option<nat> {
    if v == "" || !AllDigits(v) || DigitsValue(v) >= WORD then None else Some(DigitsValue(v))
  }

  predicate IsTransfer(h: Header) {
    Same(h.name, "transfer-encoding")
  }

  predicate IsLength(h: Header) {
    Same(h.name, "content-length")
  }

  datatype Framing = Refused(status: nat) | Fine(length: Option<nat>)

  /** What one more header does to the framing. */
  function Account(length: Option<nat>, h: Header): Framing {
    if IsTransfer(h) then Refused(501)
    else if IsLength(h) then
      match ContentLength(h.value)
      case None => Refused(400)
      case Some(n) => if length.Some? && length.value != n then Refused(400) else Fine(Some(n))
    else Fine(length)
  }

  datatype Head = Stop(r: Incoming) | Done(headers: seq<Header>, length: Option<nat>, used: nat)

  function Left(l: Limits, used: nat): nat {
    if used < l.maxHeaderBytes then l.maxHeaderBytes - used else 0
  }

  /** What one line does to the header loop. */
  datatype Step = Next(headers: seq<Header>, length: Option<nat>) | Last(head: Head)

  function HeaderStep(buf: string, l: Limits, used: nat, headers: seq<Header>, length: Option<nat>): (r: Step)
    ensures r.Last? && r.head.Done? ==> r.head.used == used + |buf|
    ensures r.Last? && r.head.Stop? ==> !r.head.r.Got?
  {
    if !l.utf8(buf) then Last(Stop(Broken))
    else if TrimEol(buf) == "" then Last(Done(headers, length, used + |buf|))
    else
      match HeaderOf(TrimEol(buf))
      case None => Next(headers, length)
      case Some(h) =>
        match Account(length, h)
        case Refused(status) => Last(Stop(Reject(status)))
        case Fine(len) => Next(headers + [h], len)
  }

  /** The headers at the head of `s`, after `used` bytes. */
  function Headers(s: string, l: Limits, used: nat, headers: seq<Header>, length: Option<nat>): (r: Head)
    ensures r.Done? ==> used <= r.used <= used + |s|
    ensures r.Stop? ==> !r.r.Got?
    decreases |s|
  {
    match LineOf(s, Left(l, used))
    case Eof => Done(headers, length, used)
    case LineTooLong => Stop(TooBig)
    case Read(n) =>
      match HeaderStep(s[..n], l, used, headers, length)
      case Last(head) => head
      case Next(headers', length') => Headers(s[n..], l, used + n, headers', length')
  }

  function HeadOf(s: string, l: Limits): (r: Head)
    ensures r.Done? ==> r.used <= |s|
    ensures r.Stop? ==> !r.r.Got?
  {
    match LineOf(s, l.maxHeaderBytes)
    case Eof => Stop(Closed)
    case LineTooLong => Stop(TooBig)
    case Read(n) => if !l.utf8(s[..n]) then Stop(Broken) else Headers(s[n..], l, n, [], None)
  }

  function BodyLength(length: Option<nat>): nat {
    if length.Some? then length.value else 0
  }

  /** The outcome, and how many bytes an accepted request takes. */
  datatype Outcome = Outcome(r: Incoming, used: nat)

  function Parse(s: string, l: Limits): (o: Outcome)
    ensures o.used <= |s|
  {
    match HeadOf(s, l)
    case Stop(r) => Outcome(r, 0)
    case Done(headers, length, used) =>
      var n := BodyLength(length);
      if n > l.maxBody then Outcome(TooBig, 0)
      else if |s| - used < n then Outcome(Broken, 0)
      else
        var (m, path, query, version) := RequestLine(s[..LineLength(s)]);
        Outcome(Got(Request(m, path, query, version, headers, s[used..used + n])), used + n)
  }

  // ---- the connection ----

  function Flat(chunks: seq<string>): string {
    if chunks == [] then "" else chunks[0] + Flat(chunks[1..])
  }

  /** A buffered reader: the bytes still to come, cut into the chunks that will arrive. */
  class Reader {
    var chunks: seq<string>

    ghost predicate Valid()
      reads this
    {
      forall i :: 0 <= i < |chunks| ==> chunks[i] != ""
    }

    ghost function Stream(): string
      reads this
    {
      Flat(chunks)
    }

    constructor (chunks: seq<string>)
      requires forall i :: 0 <= i < |chunks| ==> chunks[i] != ""
      ensures Valid() && Stream() == Flat(chunks)
    {
      this.chunks := chunks;
    }

    /** The chunk in the buffer; empty at the end of the stream. */
    method FillBuf() returns (chunk: string)
      requires Valid()
      ensures chunk == (if chunks == [] then "" else chunks[0]) && chunk <= Stream()
        && (chunk == "" <==> Stream() == "")
    {
      chunk := if chunks == [] then "" else chunks[0];
    }

    method Consume(n: nat)
      requires Valid() && chunks != [] && n <= |chunks[0]|
      modifies this
      ensures Valid() && Stream() == old(Stream())[n..]
    {
      ghost var rest := Flat(chunks[1..]);
      ghost var first := chunks[0];
      assert (first + rest)[n..] == first[n..] + rest;
      if n == |chunks[0]| {
        chunks := chunks[1..];
        assert first[n..] + rest == rest;
      } else {
        chunks := [chunks[0][n..]] + chunks[1..];
        assert chunks[1..] == old(chunks)[1..];
      }
    }

    /** `read_line_capped` */
    method ReadLine(max: nat) returns (line: Line, buf: string)
      requires Valid()
      modifies this
      ensures Valid() && line == LineOf(old(Stream()), max)
      ensures line.Read? ==> buf == old(Stream())[..line.n] && Stream() == old(Stream())[line.n..]
      ensures line.Eof? ==> Stream() == old(Stream())
    {
      hide LineLength, Index, Flat;
      buf := "";
      ghost var s := Stream();
      assert s == "" + s;
      var done := false;
      while !done
        invariant Valid() && s == buf + Stream()
        invariant done ==> |buf| == LineLength(s) && |buf| <= max
        invariant !done ==> LineLength(s) == |buf| + LineLength(Stream()) && |buf| <= max
        decreases if done then 0 else 1, |Stream()|
      {
        var chunk := FillBuf();
        if chunk == "" {
          break;
        }
        ghost var now := Stream();
        var i := Index(chunk, '\n');
        var take := if i < |chunk| then i + 1 else i;
        LineInChunk(chunk, now);
        if |buf| + take > max {
          assert now[..take] == chunk[..take];
          return LineTooLong, buf;
        }
        ghost var before := buf;
        buf := buf + chunk[..take];
        Consume(take);
        assert now[..take] == chunk[..take] && Stream() == now[take..];
        Rejoin(s, before, now, take);
        done := i < |chunk|;
      }
      if !done {
        assert Stream() == "" && s == buf + "" == buf;
      }
      assert s[..|buf|] == buf && s[|buf|..] == Stream();
      line := if buf == "" then Eof else Read(|buf|);
    }

    /** The body: read in whatever pieces arrive. */
    method ReadBody(n: nat) returns (ok: bool, body: string)
      requires Valid()
      modifies this
      ensures Valid() && (ok <==> n <= |old(Stream())|)
      ensures ok ==> body == old(Stream())[..n] && Stream() == old(Stream())[n..]
    {
      body, ok := "", true;
      ghost var s := Stream();
      assert s == "" + s;
      while |body| < n
        invariant Valid() && |body| <= n && s == body + Stream()
        decreases n - |body|
      {
        var chunk := FillBuf();
        if chunk == "" {
          return false, body;
        }
        ghost var now := Stream();
        var take := if |chunk| <= n - |body| then |chunk| else n - |body|;
        ghost var before := body;
        body := body + chunk[..take];
        Consume(take);
        assert now[..take] == chunk[..take] && Stream() == now[take..];
        Rejoin(s, before, now, take);
      }
      assert s[..n] == body && s[n..] == Stream();
    }
  }

  lemma Rejoin(s: string, buf: string, now: string, take: nat)
    requires s == buf + now && take <= |now|
    ensures s == (buf + now[..take]) + now[take..]
  {
    assert now == now[..take] + now[take..];
  }

  /** A line ends in the chunk, or takes all of it and goes on. */
  lemma {:induction false} LineInChunk(chunk: string, s: string)
    requires chunk <= s && chunk != ""
    ensures var i := Index(chunk, '\n');
      if i < |chunk| then LineLength(s) == i + 1 else LineLength(s) == i + LineLength(s[i..])
    decreases |chunk|
  {
    assert s[0] == chunk[0];
    if chunk[0] != '\n' {
      if |chunk| == 1 {
        assert chunk[1..] == "" && s[1..] == s[1..];
      } else {
        assert chunk[1..] <= s[1..];
        LineInChunk(chunk[1..], s[1..]);
        assert s[1..][Index(chunk[1..], '\n')..] == s[Index(chunk, '\n')..];
      }
    }
  }

  /** The head, by its first line. */
  lemma HeadTurn(s: string, l: Limits)
    ensures match LineOf(s, l.maxHeaderBytes)
      case Eof => HeadOf(s, l) == Stop(Closed)
      case LineTooLong => HeadOf(s, l) == Stop(TooBig)
      case Read(n) =>
        n == LineLength(s) && HeadOf(s, l) == if !l.utf8(s[..n]) then Stop(Broken) else Headers(s[n..], l, n, [], None)
  {
    hide LineLength;
  }

  /** `parse_request`: the outcome is a function of the bytes alone, however they were cut
      into chunks, and an accepted request takes exactly its own bytes. */
  method ParseRequest(reader: Reader, l: Limits) returns (r: Incoming)
    requires reader.Valid()
    modifies reader
    ensures reader.Valid() && r == Parse(old(reader.Stream()), l).r
    ensures r.Got? ==> reader.Stream() == old(reader.Stream())[Parse(old(reader.Stream()), l).used..]
  {
    hide RequestLine, HeadOf, LineOf, Headers, Flat, BodyLength, LineLength;
    ghost var s := reader.Stream();
    HeadTurn(s, l);
    var line, buf := reader.ReadLine(l.maxHeaderBytes);
    match line {
      case Eof => return Closed;
      case LineTooLong => return TooBig;
      case Read(_) =>
    }
    if !l.utf8(buf) {
      return Broken;
    }
    assert buf == s[..LineLength(s)];
    var (m, path, query, version) := RequestLine(buf);
    var head := ReadHeaders(reader, l, |buf|);
    assert head == HeadOf(s, l);
    if head.Stop? {
      return head.r;
    }
    var n := BodyLength(head.length);
    if n > l.maxBody {
      return TooBig;
    }
    Drop(s, |buf|, head.used);
    var ok, body := reader.ReadBody(n);
    if !ok {
      return Broken;
    }
    Drop(s, head.used, head.used + n);
    r := Got(Request(m, path, query, version, head.headers, body));
  }

  lemma Drop(s: string, a: nat, b: nat)
    requires a <= b <= |s|
    ensures s[a..][b - a..] == s[b..] && s[a..][..b - a] == s[a..b]
  {
  }

  /** One turn of the header loop, by its first line. */
  lemma HeadersTurn(s: string, l: Limits, used: nat, headers: seq<Header>, length: Option<nat>)
    ensures var line, r := LineOf(s, Left(l, used)), Headers(s, l, used, headers, length);
      match line
      case Eof => r == Done(headers, length, used)
      case LineTooLong => r == Stop(TooBig)
      case Read(n) =>
        var step := HeaderStep(s[..n], l, used, headers, length);
        r == if step.Last? then step.head else Headers(s[n..], l, used + n, step.headers, step.length)
  {
    hide LineOf, HeaderStep;
  }

  /** The header loop. */
  method ReadHeaders(reader: Reader, l: Limits, start: nat) returns (head: Head)
    requires reader.Valid()
    modifies reader
    ensures reader.Valid() && head == Headers(old(reader.Stream()), l, start, [], None)
    ensures head.Done? ==> reader.Stream() == old(reader.Stream())[head.used - start..]
  {
    hide Flat, LineOf, LineLength, TrimEol, HeaderOf, Account, Left, HeaderStep, Headers;
    ghost var s := reader.Stream();
    var used, headers: seq<Header>, length: Option<nat> := start, [], None;
    ghost var spec := Headers(s, l, start, [], None);
    while true
      invariant reader.Valid() && start <= used <= start + |s|
      invariant reader.Stream() == s[used - start..]
      invariant spec == Headers(reader.Stream(), l, used, headers, length)
      decreases |reader.Stream()|
    {
      ghost var now := reader.Stream();
      HeadersTurn(now, l, used, headers, length);
      var line, buf := reader.ReadLine(Left(l, used));
      match line {
        case Eof => return Done(headers, length, used);
        case LineTooLong => return Stop(TooBig);
        case Read(_) =>
      }
      Drop(s, used - start, used - start + |buf|);
      var step := HeaderStep(buf, l, used, headers, length);
      used := used + |buf|;
      if step.Last? {
        return step.head;
      }
      headers, length := step.headers, step.length;
    }
  }
}
