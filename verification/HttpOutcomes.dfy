/** What becomes of a request that is not accepted: which answer, decided by which bytes. */
module HttpOutcomes {
  import opened Wrappers
  import opened Decimals
  import opened Http
  import opened HttpFraming

  // ---- a written head, and a body that may be too long or cut short ----

  lemma BodyOutcome(s: string, l: Limits)
    requires HeadOf(s, l).Done?
    ensures var n, left := BodyLength(HeadOf(s, l).length), |s| - HeadOf(s, l).used;
      && (n > l.maxBody ==> Parse(s, l).r == TooBig)
      && (n <= l.maxBody && left < n ==> Parse(s, l).r == Broken)
      && (n <= l.maxBody && left >= n ==> Parse(s, l).r.Got?)
  {
    hide HeadOf, RequestLine, BodyLength;
  }

  /** A written head is answered by its body's length alone: more than the limit is too
      large however much of it arrives, a stream that ends inside the body is an error. */
  lemma BodyLimits(q: Request, l: Limits, given: string)
    requires HeadFormed(q, l)
    ensures |q.body| > l.maxBody ==> Parse(RenderHead(q) + given, l).r == TooBig
    ensures |q.body| <= l.maxBody && |given| < |q.body| ==> Parse(RenderHead(q) + given, l).r == Broken
    ensures |q.body| <= l.maxBody && |given| >= |q.body| ==> Parse(RenderHead(q) + given, l).r.Got?
  {
    hide *;
    HeadBack(q, l, given);
    BodyFramed(q, l);
    BodyOutcome(RenderHead(q) + given, l);
    DoneIs(q.headers, FramingAfter(q.headers, None, |q.body|), |RenderHead(q)|);
    assert |RenderHead(q) + given| - |RenderHead(q)| == |given|;
  }

  lemma DoneIs(headers: seq<Header>, length: Option<nat>, used: nat)
    ensures Done(headers, length, used).Done?
  {
  }

  // ---- a header that ends it ----

  /** The first header that does not go with those before it. */
  ghost predicate Offends(before: seq<Header>, h: Header, n: nat) {
    || Alike(h.name, "transfer-encoding")
    || (Alike(h.name, "content-length")
        && (if HasLength(before) then !IsNumber(h.value, n) else forall m: nat :: !IsNumber(h.value, m)))
  }

  lemma OffendsIsRefused(before: seq<Header>, h: Header, n: nat)
    requires Offends(before, h, n)
    ensures Account(FramingAfter(before, None, n), h)
      == Refused(if Alike(h.name, "transfer-encoding") then 501 else 400)
  {
    var length := FramingAfter(before, None, n);
    AccountIs(length, h);
    assert length == if HasLength(before) then Some(n) else None;
    if !Alike(h.name, "transfer-encoding") {
      if m: nat :| IsNumber(h.value, m) {
        assert m != n && HasLength(before);
      }
    }
    hide Account, Alike, IsNumber, HasLength;
  }

  lemma RefusedStep(h: Header, l: Limits, used: nat, headers: seq<Header>, length: Option<nat>)
    requires GoodHeader(h, l) && Account(length, h).Refused?
    ensures HeaderStep(HeaderText(h) + "\r\n", l, used, headers, length)
      == Last(Stop(Reject(Account(length, h).status)))
  {
    HeaderBack(h, l);
    EolTrimmed(HeaderText(h));
    assert l.utf8(HeaderText(h) + "\r\n");
    hide HeaderText, HeaderOf, TrimEol, Account, GoodHeader, IsEol;
  }

  lemma RefusedTurn(h: Header, rest: string, l: Limits, used: nat, headers: seq<Header>, length: Option<nat>)
    requires GoodHeader(h, l) && Account(length, h).Refused? && used + |HeaderText(h)| + 2 <= l.maxHeaderBytes
    ensures Headers((HeaderText(h) + "\r\n") + rest, l, used, headers, length)
      == Stop(Reject(Account(length, h).status))
  {
    hide *;
    var text := HeaderText(h);
    Turn((text + "\r\n") + rest, l, used, headers, length);
    HeaderBack(h, l);
    LineEnds(text, rest);
    LineCut(text, rest);
    RefusedStep(h, l, used, headers, length);
    RoomLeft(l, used, |text| + 2);
    LastIs(Stop(Reject(Account(length, h).status)));
  }

  lemma LastIs(head: Head)
    ensures Last(head).Last? && Last(head).head == head
  {
  }

  /** Whatever follows it, the first header that names a transfer encoding has the request
      refused as not implemented, and the first length that is no number, or not the one
      already given, as a bad request. */
  lemma HeaderRefused(first: string, before: seq<Header>, h: Header, n: nat, rest: string, l: Limits)
    requires '\n' !in first && l.utf8(first + "\r\n") && Writable(before, l, n) && GoodHeader(h, l)
    requires |first| + 2 + |HeaderLines(before)| + |HeaderText(h)| + 2 <= l.maxHeaderBytes
    requires Offends(before, h, n)
    ensures var s := (first + "\r\n") + (HeaderLines(before) + ((HeaderText(h) + "\r\n") + rest));
      Parse(s, l) == Outcome(Reject(if Alike(h.name, "transfer-encoding") then 501 else 400), 0)
  {
    hide *;
    var tail := (HeaderText(h) + "\r\n") + rest;
    var used := |first| + 2 + |HeaderLines(before)|;
    var lines := HeaderLines(before) + tail;
    FirstCut(first, lines);
    LineEnds(first, lines);
    HeadOfLine((first + "\r\n") + lines, l, |first| + 2);
    HeadersThrough(before, tail, l, |first| + 2, [], None, n);
    OffendsIsRefused(before, h, n);
    RefusedIs(if Alike(h.name, "transfer-encoding") then 501 else 400);
    RefusedTurn(h, rest, l, used, [] + before, FramingAfter(before, None, n));
    StoppedThere((first + "\r\n") + lines, l, Reject(if Alike(h.name, "transfer-encoding") then 501 else 400));
  }

  lemma RefusedIs(status: nat)
    ensures Refused(status).Refused? && Refused(status).status == status
  {
  }

  lemma FirstCut(first: string, lines: string)
    ensures var s := (first + "\r\n") + lines;
      s == first + "\r\n" + lines && s[..|first| + 2] == first + "\r\n" && s[|first| + 2..] == lines
  {
  }

  lemma StoppedThere(s: string, l: Limits, r: Incoming)
    requires HeadOf(s, l) == Stop(r)
    ensures Parse(s, l) == Outcome(r, 0)
  {
    hide HeadOf;
  }

  // ---- no line, too long a line ----

  /** Nothing sent is a closed connection, and a first line over the budget is too large
      before the rest is looked at. */
  lemma FirstLineOutcome(s: string, l: Limits)
    ensures Parse(s, l).r == Closed <==> s == ""
    ensures (exists i :: 0 <= i < |s| && s[i] == '\n') || |s| > l.maxHeaderBytes ==>
      ((forall i :: 0 <= i < l.maxHeaderBytes && i < |s| ==> s[i] != '\n') ==> Parse(s, l).r == TooBig)
  {
    NewlineAt(s);
    var n := LineLength(s);
    HeadersNotClosed(s[n..], l, n, [], None);
    hide LineLength, Headers, RequestLine;
  }

  lemma {:induction false} NewlineAt(s: string)
    ensures forall i :: 0 <= i < LineLength(s) - 1 ==> s[i] != '\n'
    ensures s != "" ==> s[LineLength(s) - 1] == '\n' || LineLength(s) == |s|
    decreases |s|
  {
    if s != "" && s[0] != '\n' { NewlineAt(s[1..]); }
  }

  lemma {:induction false} HeadersNotClosed(s: string, l: Limits, used: nat, headers: seq<Header>, length: Option<nat>)
    ensures Headers(s, l, used, headers, length) != Stop(Closed)
    decreases |s|
  {
    hide *;
    Turn(s, l, used, headers, length);
    ShortIsNotClosed(headers, length, used);
    if s != "" && LineLength(s) <= Left(l, used) {
      var n := LineLength(s);
      var step := HeaderStep(s[..n], l, used, headers, length);
      StepNotClosed(s[..n], l, used, headers, length);
      if step.Next? {
        HeadersNotClosed(s[n..], l, used + n, step.headers, step.length);
      }
    }
  }

  lemma ShortIsNotClosed(headers: seq<Header>, length: Option<nat>, used: nat)
    ensures Done(headers, length, used) != Stop(Closed) && Stop(TooBig) != Stop(Closed)
  {
  }

  lemma StepNotClosed(buf: string, l: Limits, used: nat, headers: seq<Header>, length: Option<nat>)
    ensures var r := HeaderStep(buf, l, used, headers, length); r.Last? ==> r.head != Stop(Closed)
  {
    hide TrimEol, HeaderOf, Account;
  }

  // ---- one header line ----

  ghost predicate Blank(s: string) {
    forall i :: 0 <= i < |s| ==> s[i] == ' ' || '\t' <= s[i] <= '\r'
  }

  ghost predicate Bare(s: string) {
    s == "" || (!Blank([s[0]]) && !Blank([s[|s| - 1]]))
  }

  /** The space around the name and around the value does not belong to them; the first
      colon divides them, and a line without one is no header. */
  lemma HeaderLine(a: string, name: string, b: string, c: string, value: string, d: string)
    requires Blank(a) && Blank(b) && Blank(c) && Blank(d) && Bare(name) && Bare(value) && ':' !in name
    ensures HeaderOf(a + name + b + ":" + (c + value + d)) == Some(Header(name, value))
  {
    var left, right := a + name + b, c + value + d;
    assert ':' !in left;
    IndexOf(left, ':', right);
    assert left + ":" + right == left + [':'] + right;
    var text := left + ":" + right;
    assert text[..|left|] == left && text[|left| + 1..] == right;
    Trimmed(a, name, b);
    Trimmed(c, value, d);
    hide Index, Trim;
  }

  lemma NoColon(line: string)
    requires ':' !in line
    ensures HeaderOf(line) == None
  {
    Missing(line, ':');
    hide Index;
  }

  lemma Trimmed(a: string, v: string, b: string)
    requires Blank(a) && Blank(b) && Bare(v)
    ensures Trim(a + v + b) == v
  {
    if v == "" {
      AllStart(a + v + b);
    } else {
      assert !IsSpace(v[0]) && !IsSpace(v[|v| - 1]) by { SpaceIs(v); }
      FromStart(a, v + b);
      assert a + v + b == a + (v + b);
      FromEnd(v, b);
    }
    hide TrimStart, TrimEnd;
  }

  lemma SpaceIs(v: string)
    requires v != "" && Bare(v)
    ensures !IsSpace(v[0]) && !IsSpace(v[|v| - 1])
  {
    assert [v[0]][0] == v[0] && [v[|v| - 1]][0] == v[|v| - 1];
  }

  lemma {:induction false} AllStart(s: string)
    requires Blank(s)
    ensures TrimStart(s) == ""
    decreases |s|
  {
    if s != "" {
      assert Blank(s[1..]);
      AllStart(s[1..]);
    }
  }

  lemma {:induction false} FromStart(a: string, s: string)
    requires Blank(a) && s != "" && !IsSpace(s[0])
    ensures TrimStart(a + s) == s
    decreases |a|
  {
    if a == "" {
      assert a + s == s;
    } else {
      assert (a + s)[0] == a[0] && (a + s)[1..] == a[1..] + s;
      FromStart(a[1..], s);
    }
  }

  lemma {:induction false} FromEnd(s: string, b: string)
    requires Blank(b) && s != "" && !IsSpace(s[|s| - 1])
    ensures TrimEnd(s + b) == s
    decreases |b|
  {
    if b == "" {
      assert s + b == s;
    } else {
      var t := s + b;
      assert t[|t| - 1] == b[|b| - 1] && t[..|t| - 1] == s + b[..|b| - 1];
      FromEnd(s, b[..|b| - 1]);
    }
  }
}
