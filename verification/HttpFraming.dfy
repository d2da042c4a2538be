/** Where a request ends: what an accepted request agrees on, when the bytes after it
    cannot change it, and that well-formed requests, one after another, read back. */
module HttpFraming {
  import opened Wrappers
  import opened Decimals
  import opened Http

  // ---- names and lengths, spelled out ----

  /** The texts are the same but for the case of their ASCII letters. */
  ghost predicate Alike(a: string, b: string) {
    |a| == |b| && forall i :: 0 <= i < |a| ==>
      a[i] == b[i]
      || ('A' <= a[i] <= 'Z' && b[i] as int == a[i] as int + 32)
      || ('A' <= b[i] <= 'Z' && a[i] as int == b[i] as int + 32)
  }

  lemma SameIsAlike(a: string, b: string)
    ensures Same(a, b) <==> Alike(a, b)
  {
  }

  /** Digits only, at least one, of a number below 2^64. */
  ghost predicate IsNumber(v: string, n: nat) {
    v != "" && (forall i :: 0 <= i < |v| ==> '0' <= v[i] <= '9') && DigitsValue(v) == n < 0x1_0000_0000_0000_0000
  }

  lemma NamesAre(h: Header)
    ensures IsTransfer(h) <==> Alike(h.name, "transfer-encoding")
    ensures IsLength(h) <==> Alike(h.name, "content-length")
  {
    SameIsAlike(h.name, "transfer-encoding");
    SameIsAlike(h.name, "content-length");
    hide Same, Alike;
  }

  lemma NumberIs(v: string)
    ensures forall n: nat :: ContentLength(v) == Some(n) <==> IsNumber(v, n)
  {
    hide DigitsValue;
  }

  // ---- what an accepted request agrees on ----

  /** No transfer encoding, and a Content-Length that is the length. */
  ghost predicate Agrees(h: Header, length: Option<nat>) {
    && !Alike(h.name, "transfer-encoding")
    && (Alike(h.name, "content-length") ==> length.Some? && IsNumber(h.value, length.value))
  }

  ghost predicate HasLength(headers: seq<Header>) {
    exists i :: 0 <= i < |headers| && Alike(headers[i].name, "content-length")
  }

  ghost predicate Consistent(headers: seq<Header>, length: Option<nat>) {
    && (forall i :: 0 <= i < |headers| ==> Agrees(headers[i], length))
    && (length.Some? <==> HasLength(headers))
  }

  /** What one more header does to the length: a transfer encoding is refused as not
      implemented, a length that is no number or not the one already given as a bad request. */
  lemma AccountIs(length: Option<nat>, h: Header)
    ensures Alike(h.name, "transfer-encoding") ==> Account(length, h) == Refused(501)
    ensures !Alike(h.name, "transfer-encoding") && !Alike(h.name, "content-length") ==>
      Account(length, h) == Fine(length)
    ensures !Alike(h.name, "transfer-encoding") && Alike(h.name, "content-length") ==>
      && (forall n: nat :: IsNumber(h.value, n) && (length.None? || length.value == n) ==>
            Account(length, h) == Fine(Some(n)))
      && (forall n: nat :: IsNumber(h.value, n) && length.Some? && length.value != n ==>
        Account(length, h) == Refused(400))
      && ((forall n: nat :: !IsNumber(h.value, n)) ==> Account(length, h) == Refused(400))
  {
    NamesAre(h);
    NumberIs(h.value);
    hide Alike, IsNumber, ContentLength, IsTransfer, IsLength;
  }

  lemma FineAgrees(length: Option<nat>, h: Header)
    requires Account(length, h).Fine?
    ensures var len := Account(length, h).length;
      && Agrees(h, len) && (length.Some? ==> len == length)
      && (len.Some? <==> length.Some? || Alike(h.name, "content-length"))
  {
    NamesAre(h);
    NumberIs(h.value);
    hide Alike, IsNumber, ContentLength, IsTransfer, IsLength;
  }

  lemma AgreesMore(h: Header, a: Option<nat>, b: Option<nat>)
    requires Agrees(h, a) && (a.Some? ==> b == a)
    ensures Agrees(h, b)
  {
    hide Alike, IsNumber;
  }

  lemma HasLengthMore(headers: seq<Header>, h: Header)
    ensures HasLength(headers + [h]) <==> HasLength(headers) || Alike(h.name, "content-length")
  {
    hide Alike;
    var all := headers + [h];
    assert all[|headers|] == h;
    if i :| 0 <= i < |headers| && Alike(headers[i].name, "content-length") {
      assert all[i] == headers[i];
    }
  }

  lemma AccountConsistent(headers: seq<Header>, length: Option<nat>, h: Header)
    requires Consistent(headers, length) && Account(length, h).Fine?
    ensures Consistent(headers + [h], Account(length, h).length)
  {
    FineAgrees(length, h);
    HasLengthMore(headers, h);
    var len := Account(length, h).length;
    hide Account, Agrees, HasLength, Alike;
    forall i | 0 <= i < |headers + [h]|
      ensures Agrees((headers + [h])[i], len)
    {
      if i < |headers| { AgreesMore(headers[i], length, len); }
    }
  }

  lemma StepConsistent(buf: string, l: Limits, used: nat, headers: seq<Header>, length: Option<nat>)
    requires Consistent(headers, length)
    ensures var r := HeaderStep(buf, l, used, headers, length);
      if r.Next? then Consistent(r.headers, r.length) else r.head.Done? ==> Consistent(r.head.headers, r.head.length)
  {
    var h := HeaderOf(TrimEol(buf));
    if h.Some? && Account(length, h.value).Fine? {
      AccountConsistent(headers, length, h.value);
    }
    hide Account, HeaderOf, TrimEol, Consistent;
  }

  lemma WithinBudget(l: Limits, used: nat, n: nat)
    requires 0 < n <= Left(l, used)
    ensures used + n <= l.maxHeaderBytes
  {
  }

  lemma {:induction false} HeadersConsistent(s: string, l: Limits, used: nat, headers: seq<Header>, length: Option<nat>)
    requires Consistent(headers, length) && used <= l.maxHeaderBytes
    ensures var r := Headers(s, l, used, headers, length);
      r.Done? ==> Consistent(r.headers, r.length) && r.used <= l.maxHeaderBytes
    decreases |s|
  {
    Turn(s, l, used, headers, length);
    hide *;
    if s != "" && LineLength(s) <= Left(l, used) {
      WithinBudget(l, used, LineLength(s));
      var n := LineLength(s);
      StepConsistent(s[..n], l, used, headers, length);
      StepUsed(s[..n], l, used, headers, length);
      var step := HeaderStep(s[..n], l, used, headers, length);
      if step.Next? {
        HeadersConsistent(s[n..], l, used + n, step.headers, step.length);
      }
    }
  }

  /** An accepted request stayed within the budgets, names no transfer encoding, and its
      body is as long as each of its Content-Length headers says: empty without one. */
  lemma AcceptedFraming(s: string, l: Limits)
    requires Parse(s, l).r.Got?
    ensures var q, used := Parse(s, l).r.request, Parse(s, l).used;
      && |q.body| <= l.maxBody && |q.body| <= used <= |s| && used - |q.body| <= l.maxHeaderBytes
      && q.body == s[used - |q.body|..used]
      && (forall i :: 0 <= i < |q.headers| ==> !Alike(q.headers[i].name, "transfer-encoding"))
      && (forall i :: 0 <= i < |q.headers| && Alike(q.headers[i].name, "content-length") ==>
            IsNumber(q.headers[i].value, |q.body|))
      && (q.body != "" ==> exists i :: 0 <= i < |q.headers| && Alike(q.headers[i].name, "content-length"))
  {
    var n := LineLength(s);
    assert Consistent([], None);
    HeadersConsistent(s[n..], l, n, [], None);
    var head := HeadOf(s, l);
    assert head.Done?;
    assert forall i :: 0 <= i < |head.headers| ==> Agrees(head.headers[i], head.length);
    hide Headers, RequestLine, Alike, IsNumber;
  }

  // ---- the bytes after it ----

  /** The head is ended by an empty line, newline and all, and not by the end of the stream. */
  predicate BlankSeen(s: string, l: Limits, used: nat, headers: seq<Header>, length: Option<nat>)
    decreases |s|
  {
    match LineOf(s, Left(l, used))
    case Eof => false
    case LineTooLong => false
    case Read(n) =>
      match HeaderStep(s[..n], l, used, headers, length)
      case Last(head) => head.Done? && s[n - 1] == '\n'
      case Next(headers', length') => BlankSeen(s[n..], l, used + n, headers', length')
  }

  predicate Complete(s: string, l: Limits) {
    LineOf(s, l.maxHeaderBytes).Read? && BlankSeen(s[LineLength(s)..], l, LineLength(s), [], None)
  }

  /** One turn of the header loop. */
  lemma Turn(s: string, l: Limits, used: nat, headers: seq<Header>, length: Option<nat>)
    ensures s == "" ==>
      Headers(s, l, used, headers, length) == Done(headers, length, used) && !BlankSeen(s, l, used, headers, length)
    ensures s != "" && LineLength(s) > Left(l, used) ==>
      Headers(s, l, used, headers, length) == Stop(TooBig) && !BlankSeen(s, l, used, headers, length)
    ensures s != "" && LineLength(s) <= Left(l, used) ==>
      var n := LineLength(s);
      var step := HeaderStep(s[..n], l, used, headers, length);
      if step.Last? then
        Headers(s, l, used, headers, length) == step.head
        && (BlankSeen(s, l, used, headers, length) <==> step.head.Done? && s[n - 1] == '\n')
      else
        Headers(s, l, used, headers, length) == Headers(s[n..], l, used + n, step.headers, step.length)
        && (BlankSeen(s, l, used, headers, length) <==> BlankSeen(s[n..], l, used + n, step.headers, step.length))
  {
    hide LineLength, HeaderStep, Left;
  }

  /** A line that ends in a newline is the same line whatever follows it. */
  lemma {:induction false} LineStays(p: string, x: string)
    requires p != "" && p[|p| - 1] == '\n' && LineLength(p) == |p|
    ensures LineLength(p + x) == |p|
    decreases |p|
  {
    assert (p + x)[0] == p[0];
    if |p| > 1 {
      assert (p + x)[1..] == p[1..] + x;
      LineStays(p[1..], x);
    }
  }

  lemma {:induction false} LineWhole(s: string)
    requires s != ""
    ensures LineLength(s[..LineLength(s)]) == LineLength(s)
    ensures s[LineLength(s) - 1] != '\n' ==> LineLength(s) == |s|
    decreases |s|
  {
    if s[0] != '\n' && |s| > 1 {
      LineWhole(s[1..]);
      assert s[..LineLength(s)][1..] == s[1..][..LineLength(s[1..])];
    }
  }

  lemma SameLine(s: string, p: string, x: string)
    requires s != "" && s[LineLength(s) - 1] == '\n' && LineLength(s) <= |p| && p <= s
    ensures LineLength(p + x) == LineLength(s) && (p + x)[..LineLength(s)] == s[..LineLength(s)]
    ensures (p + x)[LineLength(s)..] == p[LineLength(s)..] + x
  {
    var n := LineLength(s);
    LineWhole(s);
    hide LineLength;
    Pieces(s, p, x, n);
    LineStays(s[..n], p[n..] + x);
  }

  lemma Pieces(s: string, p: string, x: string, n: nat)
    requires 0 < n <= |p| && p <= s
    ensures s[..n] != "" && s[..n][|s[..n]| - 1] == s[n - 1] && |s[..n]| == n
    ensures p + x == s[..n] + (p[n..] + x) && (p + x)[..n] == s[..n] && (p + x)[n..] == p[n..] + x
  {
  }

  /** A head that goes on after a line goes on after a whole line. */
  lemma GoesOn(s: string, l: Limits, used: nat, headers: seq<Header>, length: Option<nat>)
    requires s != "" && s[LineLength(s) - 1] != '\n'
    ensures s[LineLength(s)..] == "" && !BlankSeen("", l, used, headers, length)
  {
    LineWhole(s);
    Turn("", l, used, headers, length);
    hide *;
  }

  lemma {:induction false} DoneLater(s: string, l: Limits, used: nat, headers: seq<Header>, length: Option<nat>)
    requires BlankSeen(s, l, used, headers, length)
    ensures Headers(s, l, used, headers, length).Done? && Headers(s, l, used, headers, length).used > used
    decreases |s|
  {
    Turn(s, l, used, headers, length);
    hide *;
    var n := LineLength(s);
    var step := HeaderStep(s[..n], l, used, headers, length);
    if step.Next? {
      DoneLater(s[n..], l, used + n, step.headers, step.length);
    }
  }

  /** A complete head is read from its own bytes. */
  lemma {:induction false} HeadersLocal(s: string, p: string, x: string, l: Limits, used: nat, headers: seq<Header>,
                                        length: Option<nat>)
    requires BlankSeen(s, l, used, headers, length)
    requires Headers(s, l, used, headers, length).Done? ==> Headers(s, l, used, headers, length).used == used + |p|
    requires p <= s
    ensures Headers(s, l, used, headers, length).Done?
    ensures Headers(p + x, l, used, headers, length) == Headers(s, l, used, headers, length)
    decreases |s|
  {
    Turn(s, l, used, headers, length);
    Turn(p + x, l, used, headers, length);
    hide *;
    var n := LineLength(s);
    var step := HeaderStep(s[..n], l, used, headers, length);
    if step.Last? {
      SameLine(s, p, x);
    } else {
      if s[n - 1] != '\n' {
        GoesOn(s, l, used + n, step.headers, step.length);
      }
      DoneLater(s[n..], l, used + n, step.headers, step.length);
      SameLine(s, p, x);
      Prefix(s, p, n);
      HeadersLocal(s[n..], p[n..], x, l, used + n, step.headers, step.length);
    }
  }

  lemma Prefix(s: string, p: string, n: nat)
    requires p <= s && n <= |p|
    ensures p[n..] <= s[n..]
  {
  }

  /** A head ended by the end of the stream takes all of it, and one more newline is taken
      too. */
  lemma {:induction false} EofTakesMore(s: string, l: Limits, used: nat, headers: seq<Header>, length: Option<nat>)
    requires Headers(s, l, used, headers, length).Done? && !BlankSeen(s, l, used, headers, length)
    ensures Headers(s, l, used, headers, length).used == used + |s|
    ensures var r := Headers(s + "\n", l, used, headers, length); r.Done? ==> r.used == used + |s| + 1
    decreases |s|
  {
    Turn(s, l, used, headers, length);
    Turn(s + "\n", l, used, headers, length);
    hide *;
    if s == "" {
      NewlineLine();
      BlankLine(l, used, headers, length);
    } else {
      var n := LineLength(s);
      if s[n - 1] == '\n' {
        var step := HeaderStep(s[..n], l, used, headers, length);
        SameLine(s, s, "\n");
        EofTakesMore(s[n..], l, used + n, step.headers, step.length);
      } else {
        LineWhole(s);
        LastLine(s, l, used, headers, length);
      }
    }
  }

  lemma NewlineLine()
    ensures "" + "\n" == "\n" && LineLength("\n") == 1 && "\n"[..1] == "\n" && "\n"[1..] == ""
  {
  }

  lemma BlankLine(l: Limits, used: nat, headers: seq<Header>, length: Option<nat>)
    ensures var r := HeaderStep("\n", l, used, headers, length);
      r == Last(Done(headers, length, used + 1)) || r == Last(Stop(Broken))
  {
    assert "\n"[..0] == "";
    assert TrimEol("\n") == "";
  }

  lemma LastLine(s: string, l: Limits, used: nat, headers: seq<Header>, length: Option<nat>)
    requires s != "" && LineLength(s) == |s| && s[|s| - 1] != '\n' && Headers(s, l, used, headers, length).Done?
    ensures Headers(s, l, used, headers, length).used == used + |s|
    ensures var r := Headers(s + "\n", l, used, headers, length); r.Done? ==> r.used == used + |s| + 1
  {
    Turn(s, l, used, headers, length);
    Turn(s + "\n", l, used, headers, length);
    hide *;
    OneMore(s);
    Whole(s);
    Whole(s + "\n");
    AtEnd(l, used + |s|, HeaderStep(s, l, used, headers, length));
    AtEnd(l, used + |s| + 1, HeaderStep(s + "\n", l, used, headers, length));
    StepUsed(s, l, used, headers, length);
    StepUsed(s + "\n", l, used, headers, length);
  }

  lemma StepUsed(buf: string, l: Limits, used: nat, headers: seq<Header>, length: Option<nat>)
    ensures var r := HeaderStep(buf, l, used, headers, length); r.Last? && r.head.Done? ==> r.head.used == used + |buf|
  {
    hide TrimEol, HeaderOf, Account;
  }

  lemma Whole(s: string)
    ensures s[..|s|] == s && s[|s|..] == ""
  {
  }

  lemma AtEnd(l: Limits, used: nat, step: Step)
    ensures step.Next? ==> Headers("", l, used, step.headers, step.length) == Done(step.headers, step.length, used)
  {
  }

  lemma {:induction false} OneMore(s: string)
    requires s != "" && LineLength(s) == |s| && s[|s| - 1] != '\n'
    ensures LineLength(s + "\n") == |s| + 1
    decreases |s|
  {
    assert (s + "\n")[1..] == s[1..] + "\n";
    if |s| > 1 {
      OneMore(s[1..]);
    } else {
      assert s[1..] + "\n" == "\n";
    }
  }

  lemma HeadStays(s: string, l: Limits, p: string, x: string)
    requires Complete(s, l) && HeadOf(s, l).Done? && p == s[..HeadOf(s, l).used]
    ensures HeadOf(p + x, l) == HeadOf(s, l) && LineLength(p + x) == LineLength(s) <= |p|
    ensures (p + x)[..LineLength(s)] == s[..LineLength(s)]
  {
    var n := LineLength(s);
    DoneLater(s[n..], l, n, [], None);
    hide Headers, BlankSeen, LineLength;
    if s[n - 1] != '\n' {
      GoesOn(s, l, n, [], None);
    }
    SameLine(s, p, x);
    CutInside(s, p, x, n);
    HeadersLocal(s[n..], p[n..], x, l, n, [], None);
  }

  lemma CutInside(s: string, p: string, x: string, n: nat)
    requires p <= s && n <= |p|
    ensures s[n..][..|p| - n] == p[n..] && (p + x)[n..] == p[n..] + x && (p + x)[..n] == s[..n]
  {
  }

  /** An accepted request with a complete head is the same request, of the same bytes,
      whatever comes after them. */
  lemma RestIrrelevant(s: string, l: Limits, t: string)
    requires Parse(s, l).r.Got? && Complete(s, l)
    ensures Parse(s[..Parse(s, l).used] + t, l) == Parse(s, l)
  {
    hide HeadOf, LineLength, RequestLine, Complete;
    var used, n := HeadOf(s, l).used, BodyLength(HeadOf(s, l).length);
    var p, body := s[..used], s[used..used + n];
    HeadStays(s, l, p, body + t);
    Reassembled(s, used, n, t);
    var s' := p + (body + t);
    assert HeadOf(s', l) == HeadOf(s, l) && s'[..LineLength(s')] == s[..LineLength(s)];
  }

  lemma Reassembled(s: string, used: nat, n: nat, t: string)
    requires used + n <= |s|
    ensures var s' := s[..used] + (s[used..used + n] + t);
      s' == s[..used + n] + t && s'[used..used + n] == s[used..used + n] && |s'| - used >= n
  {
  }

  /** It is so for every continuation if and only if the head is complete: a head cut
      short by the end of the stream is accepted as it stands, and one more newline would
      still have belonged to it. */
  lemma OwnBytesIff(s: string, l: Limits)
    requires Parse(s, l).r.Got?
    ensures (forall t :: Parse(s[..Parse(s, l).used] + t, l) == Parse(s, l)) <==> Complete(s, l)
  {
    if Complete(s, l) {
      forall t
        ensures Parse(s[..Parse(s, l).used] + t, l) == Parse(s, l)
      {
        RestIrrelevant(s, l, t);
      }
    } else {
      CutShort(s, l);
    }
    hide Parse, Complete;
  }

  /** One letter and the end of the stream: accepted as a request with no headers, though a
      newline after it would still have belonged to it. */
  lemma CutShortAccepted(l: Limits)
    requires l.maxHeaderBytes >= 1 && l.utf8("G")
    ensures Parse("G", l) == Outcome(Got(Request("G", "/", "", "HTTP/1.1", [], "")), 1) && !Complete("G", l)
    ensures Parse("G\n", l) != Parse("G", l)
  {
    assert "G"[1..] == "" && "G"[..1] == "G";
    assert LineLength("G") == 1;
    assert Headers("", l, 1, [], None) == Done([], None, 1);
    assert HeadOf("G", l) == Done([], None, 1);
    assert !Complete("G", l);
    OneLetter();
    hide RequestLine, HeadOf, Complete, LineLength;
    CutShort("G", l);
  }

  lemma OneLetter()
    ensures RequestLine("G") == ("G", "/", "", "HTTP/1.1")
  {
    assert "G"[1..] == "" && "G"[..1] == "G" && "/"[1..] == "" && "/"[..1] == "/";
    assert TokenLength("G") == 1 && Tokens("") == [];
    assert Tokens("G") == ["G"];
    assert Index("/", '?') == 1;
  }

  lemma CutShort(s: string, l: Limits)
    requires Parse(s, l).r.Got? && !Complete(s, l)
    ensures s[..Parse(s, l).used] == s && Parse(s + "\n", l) != Parse(s, l)
  {
    HeadCutShort(s, l);
    hide HeadOf, RequestLine, LineLength, Complete;
  }

  lemma HeadCutShort(s: string, l: Limits)
    requires HeadOf(s, l).Done? && !Complete(s, l)
    ensures HeadOf(s, l).used == |s|
    ensures HeadOf(s + "\n", l).Done? ==> HeadOf(s + "\n", l).used == |s| + 1
  {
    var n := LineLength(s);
    LineWhole(s);
    hide Headers, LineLength, BlankSeen;
    EofTakesMore(s[n..], l, n, [], None);
    if s[n - 1] == '\n' {
      SameLine(s, s, "\n");
    } else {
      OneMore(s);
      Whole(s + "\n");
      AtEnd(l, |s| + 1, Next([], None));
    }
  }

  // ---- well-formed requests read back ----

  predicate Solid(t: string) {
    t != "" && forall i :: 0 <= i < |t| ==> !IsSpace(t[i])
  }

  function Target(q: Request): string {
    if q.query == "" then q.path else q.path + "?" + q.query
  }

  function HeaderText(h: Header): string {
    h.name + ": " + h.value
  }

  function FirstLine(q: Request): string {
    q.method_ + " " + Target(q) + " " + q.version
  }

  function HeaderLines(headers: seq<Header>): string {
    if headers == [] then "" else (HeaderText(headers[0]) + "\r\n") + HeaderLines(headers[1..])
  }

  function RenderHead(q: Request): string {
    (FirstLine(q) + "\r\n") + (HeaderLines(q.headers) + "\r\n")
  }

  function Render(q: Request): string {
    RenderHead(q) + q.body
  }

  predicate GoodHeader(h: Header, l: Limits) {
    && ':' !in h.name && '\n' !in h.name && '\n' !in h.value
    && Trim(h.name) == h.name && Trim(h.value) == h.value
    && l.utf8(HeaderText(h) + "\r\n")
  }

  /** A request whose head can be written down: solid tokens, trimmed headers, no transfer
      encoding, every Content-Length the body's, and one if there is a body; in budget. */
  ghost predicate HeadFormed(q: Request, l: Limits) {
    && Solid(q.method_) && Solid(Target(q)) && Solid(q.version) && '?' !in q.path
    && l.utf8(FirstLine(q) + "\r\n") && l.utf8("\r\n")
    && (forall i :: 0 <= i < |q.headers| ==> GoodHeader(q.headers[i], l))
    && (forall i :: 0 <= i < |q.headers| ==> Agrees(q.headers[i], Some(|q.body|)))
    && (q.body != "" ==> HasLength(q.headers))
    && |RenderHead(q)| <= l.maxHeaderBytes
  }

  ghost predicate WellFormed(q: Request, l: Limits) {
    HeadFormed(q, l) && |q.body| <= l.maxBody
  }

  lemma {:induction false} LineEnds(text: string, rest: string)
    requires '\n' !in text
    ensures LineLength(text + "\r\n" + rest) == |text| + 2
    decreases |text|
  {
    var s := text + "\r\n" + rest;
    if text == "" {
      assert s == "\r\n" + rest && s[1..] == "\n" + rest;
    } else {
      assert s[1..] == text[1..] + "\r\n" + rest;
      LineEnds(text[1..], rest);
    }
  }

  lemma EolTrimmed(text: string)
    requires text == "" || !IsEol(text[|text| - 1])
    ensures TrimEol(text + "\r\n") == text
  {
    var s := text + "\r\n";
    assert s[..|s| - 1] == text + "\r" && (text + "\r")[..|text|] == text;
    assert TrimEol(text) == text;
    assert TrimEol(text + "\r") == text;
  }

  lemma {:induction false} IndexOf(a: string, c: char, b: string)
    requires c !in a
    ensures Index(a + [c] + b, c) == |a|
    decreases |a|
  {
    var s := a + [c] + b;
    if a != "" {
      assert s[1..] == a[1..] + [c] + b;
      IndexOf(a[1..], c, b);
    }
  }

  lemma {:induction false} TrimEndKeeps(a: string)
    ensures a != "" && TrimEnd(a) == a ==> !IsSpace(a[|a| - 1])
    ensures a != "" && TrimStart(a) == a ==> !IsSpace(a[0])
  {
    if a != "" && IsSpace(a[|a| - 1]) { assert |TrimEnd(a)| <= |a| - 1; }
    if a != "" && IsSpace(a[0]) { assert |TrimStart(a)| <= |a| - 1; }
  }

  /** A text that trimming does not change starts and ends in something solid. */
  lemma TrimmedEnds(v: string)
    requires Trim(v) == v
    ensures TrimStart(v) == v && TrimEnd(v) == v && TrimStart(" " + v) == v
    ensures v != "" ==> !IsSpace(v[|v| - 1]) && !IsSpace(v[0])
  {
    assert TrimEnd(TrimStart(v)) == v;
    hide *;
    SuffixOf(v);
    WholeTrim(v, TrimStart(v));
    TrimEndKeeps(v);
    SpaceBefore(v);
  }

  lemma WholeTrim(v: string, t: string)
    requires TrimEnd(t) == v && |t| <= |v| && t == v[|v| - |t|..]
    ensures t == v && TrimEnd(v) == v
  {
    assert |TrimEnd(t)| <= |t|;
    hide TrimEnd;
  }

  lemma SpaceBefore(v: string)
    ensures TrimStart(" " + v) == TrimStart(v)
  {
    assert (" " + v)[1..] == v;
  }

  lemma {:induction false} SuffixOf(s: string)
    ensures TrimStart(s) == s[|s| - |TrimStart(s)|..]
  {
    if s != "" && IsSpace(s[0]) { SuffixOf(s[1..]); }
  }

  lemma HeaderBack(h: Header, l: Limits)
    requires GoodHeader(h, l)
    ensures HeaderText(h) != "" && !IsEol(HeaderText(h)[|HeaderText(h)| - 1]) && '\n' !in HeaderText(h)
    ensures HeaderOf(HeaderText(h)) == Some(h)
  {
    var text := HeaderText(h);
    TrimmedEnds(h.value);
    IndexOf(h.name, ':', " " + h.value);
    assert text == h.name + [':'] + (" " + h.value);
    assert text[..|h.name|] == h.name && text[|h.name| + 1..] == " " + h.value;
    if h.value != "" { assert text[|text| - 1] == h.value[|h.value| - 1]; }
    hide Index, TrimStart, TrimEnd;
    assert Trim(" " + h.value) == h.value;
  }

  /** One written header line is one turn of the loop. */
  lemma HeaderTurn(h: Header, rest: string, l: Limits, used: nat, headers: seq<Header>, length: Option<nat>)
    requires GoodHeader(h, l) && Account(length, h).Fine? && used + |HeaderText(h)| + 2 <= l.maxHeaderBytes
    ensures Headers((HeaderText(h) + "\r\n") + rest, l, used, headers, length) ==
      Headers(rest, l, used + |HeaderText(h)| + 2, headers + [h], Account(length, h).length)
  {
    hide *;
    var text := HeaderText(h);
    Turn((text + "\r\n") + rest, l, used, headers, length);
    HeaderBack(h, l);
    LineEnds(text, rest);
    LineCut(text, rest);
    HeaderLineStep(h, l, used, headers, length);
    RoomLeft(l, used, |text| + 2);
  }

  lemma RoomLeft(l: Limits, used: nat, n: nat)
    requires used + n <= l.maxHeaderBytes
    ensures n <= Left(l, used)
  {
  }

  lemma LineCut(text: string, rest: string)
    ensures var s := text + "\r\n" + rest; s != "" && s[..|text| + 2] == text + "\r\n" && s[|text| + 2..] == rest
  {
  }

  lemma HeaderLineStep(h: Header, l: Limits, used: nat, headers: seq<Header>, length: Option<nat>)
    requires GoodHeader(h, l) && Account(length, h).Fine?
    ensures HeaderStep(HeaderText(h) + "\r\n", l, used, headers, length)
      == Next(headers + [h], Account(length, h).length)
  {
    HeaderBack(h, l);
    EolTrimmed(HeaderText(h));
    assert l.utf8(HeaderText(h) + "\r\n");
    hide HeaderText, HeaderOf, TrimEol, Account, GoodHeader, IsEol;
  }

  /** The framing the remaining headers leave. */
  ghost function FramingAfter(headers: seq<Header>, length: Option<nat>, n: nat): Option<nat> {
    if HasLength(headers) then Some(n) else length
  }

  lemma AgreesIsFine(h: Header, length: Option<nat>, n: nat)
    requires Agrees(h, Some(n)) && (length.Some? ==> length.value == n)
    ensures Account(length, h) == Fine(if Alike(h.name, "content-length") then Some(n) else length)
  {
    AccountIs(length, h);
    hide Account, Alike, IsNumber;
  }

  lemma HasLengthCons(headers: seq<Header>)
    requires headers != []
    ensures HasLength(headers) <==> Alike(headers[0].name, "content-length") || HasLength(headers[1..])
  {
    hide Alike;
    if HasLength(headers) {
      var i :| 0 <= i < |headers| && Alike(headers[i].name, "content-length");
      if i > 0 { assert headers[1..][i - 1] == headers[i]; }
    }
    if HasLength(headers[1..]) {
      var i :| 0 <= i < |headers| - 1 && Alike(headers[1..][i].name, "content-length");
      assert headers[i + 1] == headers[1..][i];
    }
  }

  ghost predicate Writable(hs: seq<Header>, l: Limits, n: nat) {
    forall i :: 0 <= i < |hs| ==> GoodHeader(hs[i], l) && Agrees(hs[i], Some(n))
  }

  /** Written headers are read one after another, whatever follows. */
  lemma {:induction false} HeadersThrough(hs: seq<Header>, rest: string, l: Limits, used: nat, headers: seq<Header>,
                                          length: Option<nat>, n: nat)
    requires Writable(hs, l, n) && (length.Some? ==> length.value == n)
    requires used + |HeaderLines(hs)| <= l.maxHeaderBytes
    ensures Headers(HeaderLines(hs) + rest, l, used, headers, length)
      == Headers(rest, l, used + |HeaderLines(hs)|, headers + hs, FramingAfter(hs, length, n))
    decreases |hs|
  {
    hide *;
    if hs == [] {
      NoLines(rest, headers, length, n);
    } else {
      var h := hs[0];
      WritableCons(hs, l, n);
      AgreesIsFine(h, length, n);
      HasLengthCons(hs);
      LinesCons(hs, rest);
      HeaderTurn(h, HeaderLines(hs[1..]) + rest, l, used, headers, length);
      HeadersThrough(hs[1..], rest, l, used + |HeaderText(h)| + 2, headers + [h], Account(length, h).length, n);
      Appended(headers, hs);
      FramingCons(hs, length, n);
    }
  }

  lemma HeadersBack(hs: seq<Header>, rest: string, l: Limits, used: nat, headers: seq<Header>, length: Option<nat>,
                    n: nat)
    requires Writable(hs, l, n) && (length.Some? ==> length.value == n) && l.utf8("\r\n")
    requires used + |HeaderLines(hs)| + 2 <= l.maxHeaderBytes
    ensures Headers(HeaderLines(hs) + ("\r\n" + rest), l, used, headers, length)
      == Done(headers + hs, FramingAfter(hs, length, n), used + |HeaderLines(hs)| + 2)
  {
    hide *;
    HeadersThrough(hs, "\r\n" + rest, l, used, headers, length, n);
    BlankEnds(rest, l, used + |HeaderLines(hs)|, headers + hs, FramingAfter(hs, length, n));
  }

  lemma FramingCons(hs: seq<Header>, length: Option<nat>, n: nat)
    requires hs != [] && (HasLength(hs) <==> Alike(hs[0].name, "content-length") || HasLength(hs[1..]))
    ensures FramingAfter(hs, length, n)
      == FramingAfter(hs[1..], if Alike(hs[0].name, "content-length") then Some(n) else length, n)
  {
    hide HasLength, Alike;
  }

  lemma NoLines(rest: string, headers: seq<Header>, length: Option<nat>, n: nat)
    ensures HeaderLines([]) + rest == rest && HeaderLines([]) == ""
    ensures headers + [] == headers && FramingAfter([], length, n) == length
  {
  }

  lemma Appended(headers: seq<Header>, hs: seq<Header>)
    requires hs != []
    ensures (headers + [hs[0]]) + hs[1..] == headers + hs
  {
  }

  lemma WritableCons(hs: seq<Header>, l: Limits, n: nat)
    requires hs != [] && Writable(hs, l, n)
    ensures GoodHeader(hs[0], l) && Agrees(hs[0], Some(n)) && Writable(hs[1..], l, n)
  {
    hide GoodHeader, Agrees;
  }

  lemma LinesCons(hs: seq<Header>, rest: string)
    requires hs != []
    ensures HeaderLines(hs) + rest == (HeaderText(hs[0]) + "\r\n") + (HeaderLines(hs[1..]) + rest)
    ensures |HeaderLines(hs)| == |HeaderText(hs[0])| + 2 + |HeaderLines(hs[1..])|
  {
    hide HeaderText;
    var line, more := HeaderText(hs[0]) + "\r\n", HeaderLines(hs[1..]);
    assert HeaderLines(hs) == line + more;
    hide *;
    assert (line + more) + rest == line + (more + rest);
  }

  lemma BlankEnds(rest: string, l: Limits, used: nat, headers: seq<Header>, length: Option<nat>)
    requires l.utf8("\r\n") && used + 2 <= l.maxHeaderBytes
    ensures Headers("\r\n" + rest, l, used, headers, length) == Done(headers, length, used + 2)
  {
    var s := "\r\n" + rest;
    Turn(s, l, used, headers, length);
    LineEnds("", rest);
    EolTrimmed("");
    assert "" + "\r\n" + rest == s && "" + "\r\n" == "\r\n" && s[..2] == "\r\n";
    hide Headers, LineLength, BlankSeen, HeaderOf, Account, TrimEol;
  }

  lemma {:induction false} TokenRun(t: string, rest: string)
    requires (forall i :: 0 <= i < |t| ==> !IsSpace(t[i])) && (rest == "" || IsSpace(rest[0]))
    ensures TokenLength(t + rest) == |t|
    decreases |t|
  {
    if t == "" {
      assert t + rest == rest;
    } else {
      assert (t + rest)[1..] == t[1..] + rest;
      TokenRun(t[1..], rest);
    }
  }

  lemma TokenBack(t: string, c: char, rest: string)
    requires Solid(t) && IsSpace(c)
    ensures Tokens(t + ([c] + rest)) == [t] + Tokens(rest)
  {
    var s := t + ([c] + rest);
    TokenRun(t, [c] + rest);
    assert s[0] == t[0] && s[..|t|] == t && s[|t|..] == [c] + rest && ([c] + rest)[1..] == rest;
    hide TokenLength, IsSpace;
  }

  lemma FirstLineBack(q: Request)
    requires Solid(q.method_) && Solid(Target(q)) && Solid(q.version) && '?' !in q.path
    ensures RequestLine(FirstLine(q) + "\r\n") == (q.method_, q.path, q.query, q.version)
    ensures '\n' !in FirstLine(q)
  {
    TargetBack(q);
    NoNewline(q);
    ThreeTokens(q.method_, Target(q), q.version);
    hide Tokens, Index, Target, Solid;
  }

  lemma ThreeTokens(m: string, t: string, v: string)
    requires Solid(m) && Solid(t) && Solid(v)
    ensures Tokens(m + " " + t + " " + v + "\r\n") == [m, t, v]
  {
    EndTokens();
    hide *;
    SpaceChars();
    TokenBack(v, '\r', "\n");
    TokenBack(t, ' ', v + (['\r'] + "\n"));
    TokenBack(m, ' ', t + ([' '] + (v + (['\r'] + "\n"))));
    Respaced(m, t, v);
  }

  lemma EndTokens()
    ensures Tokens("\n") == []
  {
    assert "\n"[1..] == "";
  }

  lemma SpaceChars()
    ensures IsSpace(' ') && IsSpace('\r')
  {
  }

  lemma Respaced(m: string, t: string, v: string)
    ensures m + ([' '] + (t + ([' '] + (v + (['\r'] + "\n"))))) == m + " " + t + " " + v + "\r\n"
    ensures [m] + ([t] + ([v] + [])) == [m, t, v]
  {
  }

  lemma NoNewline(q: Request)
    requires Solid(q.method_) && Solid(Target(q)) && Solid(q.version)
    ensures '\n' !in FirstLine(q)
  {
    hide Target;
    assert IsSpace('\n');
  }

  lemma TargetBack(q: Request)
    requires '?' !in q.path
    ensures var i := Index(Target(q), '?');
      Target(q)[..i] == q.path && (if i < |Target(q)| then Target(q)[i + 1..] else "") == q.query
  {
    if q.query == "" {
      Missing(q.path, '?');
    } else {
      IndexOf(q.path, '?', q.query);
      assert Target(q) == q.path + ['?'] + q.query;
    }
  }

  lemma {:induction false} Missing(s: string, c: char)
    requires c !in s
    ensures Index(s, c) == |s|
  {
    if s != "" { Missing(s[1..], c); }
  }

  lemma HeadBack(q: Request, l: Limits, rest: string)
    requires HeadFormed(q, l)
    ensures HeadOf(RenderHead(q) + rest, l) == Done(q.headers, FramingAfter(q.headers, None, |q.body|), |RenderHead(q)|)
    ensures LineLength(RenderHead(q) + rest) == |FirstLine(q)| + 2 <= |RenderHead(q)|
    ensures (RenderHead(q) + rest)[..|FirstLine(q)| + 2] == FirstLine(q) + "\r\n"
  {
    hide *;
    HeadOpens(q, l, rest);
    HeadersBackAll(q, l, rest);
  }

  lemma HeadOpens(q: Request, l: Limits, rest: string)
    requires HeadFormed(q, l)
    ensures HeadOf(RenderHead(q) + rest, l)
      == Headers(HeaderLines(q.headers) + ("\r\n" + rest), l, |FirstLine(q)| + 2, [], None)
    ensures LineLength(RenderHead(q) + rest) == |FirstLine(q)| + 2 <= |RenderHead(q)|
    ensures (RenderHead(q) + rest)[..|FirstLine(q)| + 2] == FirstLine(q) + "\r\n"
  {
    WellFormedParts(q, l);
    hide *;
    FirstLineBack(q);
    HeadJoined(RenderHead(q), FirstLine(q), HeaderLines(q.headers), l, rest);
  }

  lemma HeadersBackAll(q: Request, l: Limits, rest: string)
    requires HeadFormed(q, l)
    ensures Headers(HeaderLines(q.headers) + ("\r\n" + rest), l, |FirstLine(q)| + 2, [], None)
      == Done(q.headers, FramingAfter(q.headers, None, |q.body|), |RenderHead(q)|)
  {
    hide *;
    WellFormedSize(q, l);
    WholeHead(q.headers, rest, l, |FirstLine(q)| + 2, |q.body|, |RenderHead(q)|);
  }

  lemma WholeHead(hs: seq<Header>, rest: string, l: Limits, used: nat, n: nat, total: nat)
    requires Writable(hs, l, n) && l.utf8("\r\n") && total == used + |HeaderLines(hs)| + 2 <= l.maxHeaderBytes
    ensures Headers(HeaderLines(hs) + ("\r\n" + rest), l, used, [], None) == Done(hs, FramingAfter(hs, None, n), total)
  {
    hide *;
    NothingBefore(hs);
    HeadersBack(hs, rest, l, used, [], None, n);
  }

  lemma WellFormedSize(q: Request, l: Limits)
    requires HeadFormed(q, l)
    ensures Writable(q.headers, l, |q.body|) && l.utf8("\r\n")
    ensures |RenderHead(q)| == |FirstLine(q)| + 2 + |HeaderLines(q.headers)| + 2 <= l.maxHeaderBytes
  {
    hide *;
    WellFormedParts(q, l);
  }

  lemma HeadJoined(head: string, first: string, lines: string, l: Limits, rest: string)
    requires head == (first + "\r\n") + (lines + "\r\n") && '\n' !in first && l.utf8(first + "\r\n")
      && |head| <= l.maxHeaderBytes
    ensures HeadOf(head + rest, l) == Headers(lines + ("\r\n" + rest), l, |first| + 2, [], None)
    ensures LineLength(head + rest) == |first| + 2 <= |head|
    ensures (head + rest)[..|first| + 2] == first + "\r\n"
  {
    hide *;
    Cut(first, lines, rest);
    LineEnds(first, lines + ("\r\n" + rest));
    HeadOfLine(head + rest, l, |first| + 2);
  }

  lemma NothingBefore(hs: seq<Header>)
    ensures [] + hs == hs
  {
  }

  lemma HeadOfLine(s: string, l: Limits, n: nat)
    requires LineLength(s) == n > 0 && n <= l.maxHeaderBytes && l.utf8(s[..n])
    ensures HeadOf(s, l) == Headers(s[n..], l, n, [], None)
  {
    hide LineLength, Headers;
  }

  lemma WellFormedParts(q: Request, l: Limits)
    requires HeadFormed(q, l)
    ensures Writable(q.headers, l, |q.body|) && l.utf8(FirstLine(q) + "\r\n") && l.utf8("\r\n")
    ensures RenderHead(q) == (FirstLine(q) + "\r\n") + (HeaderLines(q.headers) + "\r\n")
    ensures |RenderHead(q)| == |FirstLine(q)| + 2 + |HeaderLines(q.headers)| + 2 <= l.maxHeaderBytes
    ensures Solid(q.method_) && Solid(Target(q)) && Solid(q.version) && '?' !in q.path
  {
    hide FirstLine, HeaderLines, Agrees, GoodHeader, Solid, Target;
  }

  lemma Cut(first: string, lines: string, rest: string)
    ensures var s := ((first + "\r\n") + (lines + "\r\n")) + rest;
      && s == first + "\r\n" + (lines + ("\r\n" + rest))
      && s[..|first| + 2] == first + "\r\n" && s[|first| + 2..] == lines + ("\r\n" + rest)
  {
  }

  /** A well-formed request, with anything after it, is read back, and takes exactly its
      own bytes. */
  lemma ReadsBack(q: Request, l: Limits, tail: string)
    requires WellFormed(q, l)
    ensures Parse(Render(q) + tail, l) == Outcome(Got(q), |Render(q)|)
  {
    assert Render(q) == RenderHead(q) + q.body;
    hide *;
    ReadsParts(q, l, tail);
    BodyCut(RenderHead(q), q.body, tail);
  }

  lemma ReadsParts(q: Request, l: Limits, tail: string)
    requires WellFormed(q, l)
    ensures Parse(RenderHead(q) + (q.body + tail), l) == Outcome(Got(q), |RenderHead(q)| + |q.body|)
  {
    assert HeadFormed(q, l);
    hide *;
    WellFormedTokens(q, l);
    BodyFramed(q, l);
    HeadBack(q, l, q.body + tail);
    FirstLineBack(q);
    BodyCut(RenderHead(q), q.body, tail);
    ParseDone(RenderHead(q) + (q.body + tail), l, FramingAfter(q.headers, None, |q.body|));
  }

  lemma WellFormedTokens(q: Request, l: Limits)
    requires HeadFormed(q, l)
    ensures Solid(q.method_) && Solid(Target(q)) && Solid(q.version) && '?' !in q.path
  {
    hide Solid, Target;
  }

  lemma BodyFramed(q: Request, l: Limits)
    requires HeadFormed(q, l)
    ensures BodyLength(FramingAfter(q.headers, None, |q.body|)) == |q.body|
    ensures WellFormed(q, l) ==> |q.body| <= l.maxBody
  {
    hide Solid, Target, Agrees, GoodHeader;
  }

  lemma BodyCut(head: string, body: string, tail: string)
    ensures var s := head + (body + tail);
      (head + body) + tail == s && s[|head|..|head| + |body|] == body && |s| - |head| >= |body|
  {
  }

  lemma ParseDone(s: string, l: Limits, length: Option<nat>)
    requires HeadOf(s, l).Done? && HeadOf(s, l).length == length && BodyLength(length) <= l.maxBody
    requires |s| - HeadOf(s, l).used >= BodyLength(length)
    ensures var head := HeadOf(s, l);
      var n := BodyLength(length);
      var (m, path, query, version) := RequestLine(s[..LineLength(s)]);
      Parse(s, l)
        == Outcome(Got(Request(m, path, query, version, head.headers, s[head.used..head.used + n])), head.used + n)
  {
    hide HeadOf, RequestLine, LineLength, BodyLength;
  }

  // ---- one after another ----

  /** The connection read to its end, or to the first thing that is not a request. */
  function ParseAll(s: string, l: Limits): seq<Incoming>
    decreases |s|
  {
    var o := Parse(s, l);
    if o.r.Got? && o.used > 0 then [o.r] + ParseAll(s[o.used..], l) else [o.r]
  }

  function RenderAll(qs: seq<Request>): string {
    if qs == [] then "" else Render(qs[0]) + RenderAll(qs[1..])
  }

  function AllGot(qs: seq<Request>): (r: seq<Incoming>)
    ensures |r| == |qs| && forall i :: 0 <= i < |qs| ==> r[i] == Got(qs[i])
  {
    if qs == [] then [] else [Got(qs[0])] + AllGot(qs[1..])
  }

  lemma AllCons(qs: seq<Request>)
    requires qs != []
    ensures RenderAll(qs) == Render(qs[0]) + RenderAll(qs[1..])
    ensures AllGot(qs) + [Closed] == [Got(qs[0])] + (AllGot(qs[1..]) + [Closed])
  {
    hide Render;
  }

  lemma ParseNext(s: string, l: Limits, q: Request, rest: string)
    requires |rest| < |s| && Parse(s, l) == Outcome(Got(q), |s| - |rest|) && s[|s| - |rest|..] == rest
    ensures ParseAll(s, l) == [Got(q)] + ParseAll(rest, l)
  {
    hide Parse;
  }

  lemma ReadNext(q: Request, l: Limits, rest: string)
    requires WellFormed(q, l)
    ensures |rest| < |Render(q) + rest| && ParseAll(Render(q) + rest, l) == [Got(q)] + ParseAll(rest, l)
  {
    hide *;
    ReadsBack(q, l, rest);
    RenderSome(q, rest);
    ParseNext(Render(q) + rest, l, q, rest);
  }

  lemma RenderSome(q: Request, rest: string)
    ensures |Render(q)| > 0 && (Render(q) + rest)[|Render(q)|..] == rest && |Render(q) + rest| == |Render(q)| + |rest|
  {
  }

  /** Any concatenation of well-formed requests parses to that list. */
  lemma {:induction false} PipelineReadsBack(qs: seq<Request>, l: Limits)
    requires forall i :: 0 <= i < |qs| ==> WellFormed(qs[i], l)
    ensures ParseAll(RenderAll(qs), l) == AllGot(qs) + [Closed]
    decreases |qs|
  {
    if qs == [] {
      NothingThere(l);
    } else {
      var rest := RenderAll(qs[1..]);
      assert WellFormed(qs[0], l);
      hide WellFormed;
      PipelineReadsBack(qs[1..], l);
      AllCons(qs);
      hide *;
      ReadNext(qs[0], l, rest);
    }
  }

  lemma NothingThere(l: Limits)
    ensures ParseAll("", l) == [Closed] && AllGot([]) + [Closed] == [Closed]
  {
  }
}
