/** One connection: requests read one after another until something says to close it. */
module HttpConnection {
  import opened Wrappers
  import opened Http
  import opened HttpFraming

  /** What the handler answers with: a whole response, one that streams, or an upgrade. */
  datatype Answer = Whole | Streamed | Upgraded

  type Handler = Request -> Answer

  // ---- keep-alive ----

  function HeaderValue(headers: seq<Header>, name: string): Option<string> {
    if headers == [] then None
    else if Same(headers[0].name, name) then Some(headers[0].value)
    else HeaderValue(headers[1..], name)
  }

  /** `part` occurs in the text, whatever the case of the text's letters. */
  predicate Mentions(s: string, part: string) {
    (|part| <= |s| && Same(s[..|part|], part)) || (s != "" && Mentions(s[1..], part))
  }

  predicate WantsKeepAlive(q: Request) {
    var conn := HeaderValue(q.headers, "connection");
    if Same(q.version, "http/1.0") then conn.Some? && Mentions(conn.value, "keep-alive")
    else !(conn.Some? && Mentions(conn.value, "close"))
  }

  // ---- what that says ----

  ghost predicate FirstHeader(headers: seq<Header>, name: string, i: int) {
    0 <= i < |headers| && Alike(headers[i].name, name) && forall j :: 0 <= j < i ==> !Alike(headers[j].name, name)
  }

  ghost predicate OccursAt(s: string, part: string, k: int) {
    0 <= k && k + |part| <= |s| && Alike(s[k..k + |part|], part)
  }

  /** The first Connection header contains the word. */
  ghost predicate ConnectionSays(q: Request, word: string) {
    exists i, k :: FirstHeader(q.headers, "connection", i) && OccursAt(q.headers[i].value, word, k)
  }

  /** An HTTP/1.0 client keeps the connection by saying so, any other by not closing it; and
      the answer must neither stream nor upgrade. */
  ghost predicate KeptOpen(r: Incoming, handler: Handler) {
    r.Got? && handler(r.request).Whole?
    && if Alike(r.request.version, "HTTP/1.0") then ConnectionSays(r.request, "keep-alive")
       else !ConnectionSays(r.request, "close")
  }

  lemma {:induction false} HeaderValueIs(headers: seq<Header>, name: string)
    ensures forall i :: FirstHeader(headers, name, i) ==> HeaderValue(headers, name) == Some(headers[i].value)
    ensures HeaderValue(headers, name).Some? ==> exists i :: FirstHeader(headers, name, i)
    decreases |headers|
  {
    if headers != [] {
      SameIsAlike(headers[0].name, name);
      hide Same, Alike;
      HeaderValueIs(headers[1..], name);
      if Same(headers[0].name, name) {
        assert FirstHeader(headers, name, 0);
      } else if HeaderValue(headers, name).Some? {
        var i :| FirstHeader(headers[1..], name, i);
        assert forall j :: 0 < j < i + 1 ==> headers[j] == headers[1..][j - 1];
        assert FirstHeader(headers, name, i + 1);
      }
      forall i | FirstHeader(headers, name, i)
        ensures HeaderValue(headers, name) == Some(headers[i].value)
      {
        if !Same(headers[0].name, name) {
          assert forall j :: 0 <= j < i - 1 ==> headers[1..][j] == headers[j + 1];
          assert headers[1..][i - 1] == headers[i] && FirstHeader(headers[1..], name, i - 1);
        }
      }
    }
  }

  lemma MentionsTurn(s: string, part: string)
    requires part != ""
    ensures Mentions(s, part) <==> OccursAt(s, part, 0) || (s != "" && Mentions(s[1..], part))
  {
    if |part| <= |s| {
      SameIsAlike(s[..|part|], part);
      assert s[0..0 + |part|] == s[..|part|];
    }
    hide Same, Alike;
  }

  lemma OccursLater(s: string, part: string, k: nat)
    requires s != ""
    ensures OccursAt(s[1..], part, k) <==> OccursAt(s, part, k + 1)
  {
    hide Alike;
    if k + 1 + |part| <= |s| { assert s[1..][k..k + |part|] == s[k + 1..k + 1 + |part|]; }
  }

  lemma OccursInside(s: string, part: string, k: int)
    requires OccursAt(s, part, k) && part != ""
    ensures 0 <= k && s != ""
  {
  }

  lemma {:induction false} MentionsIs(s: string, part: string)
    requires part != ""
    ensures Mentions(s, part) <==> exists k :: OccursAt(s, part, k)
    decreases |s|
  {
    hide *;
    MentionsTurn(s, part);
    if s != "" {
      MentionsIs(s[1..], part);
      if k :| OccursAt(s[1..], part, k) {
        OccursInside(s[1..], part, k);
        OccursLater(s, part, k);
      }
    }
    if k :| OccursAt(s, part, k) {
      OccursInside(s, part, k);
      if k > 0 { OccursLater(s, part, k - 1); }
    }
  }

  lemma SaysIs(q: Request, word: string)
    requires word != ""
    ensures ConnectionSays(q, word) <==>
      var conn := HeaderValue(q.headers, "connection"); conn.Some? && Mentions(conn.value, word)
  {
    HeaderValueIs(q.headers, "connection");
    var conn := HeaderValue(q.headers, "connection");
    if conn.Some? {
      MentionsIs(conn.value, word);
      var i :| FirstHeader(q.headers, "connection", i);
      assert conn.value == q.headers[i].value;
    }
    hide HeaderValue, Mentions, Alike, OccursAt;
  }

  lemma StaysIs(r: Incoming, handler: Handler)
    ensures Stays(r, handler) <==> KeptOpen(r, handler)
  {
    if r.Got? {
      SaysIs(r.request, "keep-alive");
      SaysIs(r.request, "close");
      SameIsAlike(r.request.version, "http/1.0");
      VersionAlike(r.request.version);
    }
    hide ConnectionSays, HeaderValue, Mentions, Same, Alike;
  }

  lemma VersionAlike(v: string)
    ensures Alike(v, "http/1.0") <==> Alike(v, "HTTP/1.0")
  {
    var a, b := "http/1.0", "HTTP/1.0";
    assert forall i :: 0 <= i < 8 ==> a[i] == b[i] || ('A' <= b[i] <= 'Z' && a[i] as int == b[i] as int + 32);
  }

  predicate Stays(r: Incoming, handler: Handler) {
    r.Got? && WantsKeepAlive(r.request) && handler(r.request).Whole?
  }

  // ---- the loop ----

  /** What is read off the connection, at most `cap` times. */
  function Serve(s: string, l: Limits, cap: nat, handler: Handler): seq<Incoming>
    decreases cap
  {
    if cap == 0 then []
    else
      var o := Parse(s, l);
      if Stays(o.r, handler) && cap > 1 then [o.r] + Serve(s[o.used..], l, cap - 1, handler) else [o.r]
  }

  /** The loop of `handle_connection`: it serves what the bytes alone say, however they
      were cut into chunks. */
  method HandleConnection(reader: Reader, l: Limits, keepAliveMax: nat, handler: Handler)
    returns (served: seq<Incoming>)
    requires reader.Valid()
    modifies reader
    ensures served == Serve(old(reader.Stream()), l, if keepAliveMax < 1 then 1 else keepAliveMax, handler)
  {
    hide Parse, Stays;
    var cap := if keepAliveMax < 1 then 1 else keepAliveMax;
    ghost var all := Serve(reader.Stream(), l, cap, handler);
    served := [];
    while |served| < cap
      invariant reader.Valid() && |served| <= cap
      invariant all == served + Serve(reader.Stream(), l, cap - |served|, handler)
    {
      ghost var left := cap - |served|;
      ghost var now := reader.Stream();
      var r := ParseRequest(reader, l);
      assert Parse(now, l).r == r;
      if !Stays(r, handler) || |served| + 1 == cap {
        assert Serve(now, l, left, handler) == [r];
        return served + [r];
      }
      StaysGot(r, handler);
      assert reader.Stream() == now[Parse(now, l).used..];
      assert served + ([r] + Serve(reader.Stream(), l, left - 1, handler))
        == (served + [r]) + Serve(reader.Stream(), l, left - 1, handler);
      served := served + [r];
    }
  }

  lemma StaysGot(r: Incoming, handler: Handler)
    requires Stays(r, handler)
    ensures r.Got?
  {
  }

  lemma GotSome(s: string, l: Limits)
    requires Parse(s, l).r.Got?
    ensures Parse(s, l).used > 0
  {
    hide RequestLine, LineLength;
  }

  /** What is served are the first outcomes of reading the connection to its end, up to the
      first that is no request, that the client or the answer ends the connection with,
      or that reaches the cap; and no further. */
  lemma {:induction false} ServedUpTo(s: string, l: Limits, cap: nat, handler: Handler)
    requires cap >= 1
    ensures var served, all := Serve(s, l, cap, handler), ParseAll(s, l);
      && 1 <= |served| <= cap && served <= all
      && (forall i :: 0 <= i < |served| - 1 ==> KeptOpen(served[i], handler))
      && (|served| == cap || !KeptOpen(served[|served| - 1], handler))
    decreases cap
  {
    hide Parse, Stays, KeptOpen;
    var o := Parse(s, l);
    StaysIs(o.r, handler);
    if Stays(o.r, handler) {
      StaysGot(o.r, handler);
      GotSome(s, l);
      if cap > 1 {
        ServedUpTo(s[o.used..], l, cap - 1, handler);
      }
    }
  }

  /** Well-formed requests that all keep the connection open are served in order, as many
      as the cap allows, and then the end of the stream is seen. */
  lemma PipelineServed(qs: seq<Request>, l: Limits, cap: nat, handler: Handler)
    requires cap >= 1 && forall i :: 0 <= i < |qs| ==> WellFormed(qs[i], l) && KeptOpen(Got(qs[i]), handler)
    ensures Serve(RenderAll(qs), l, cap, handler) == if cap <= |qs| then AllGot(qs)[..cap] else AllGot(qs) + [Closed]
  {
    hide Parse, WellFormed, Serve, ParseAll, RenderAll;
    PipelineReadsBack(qs, l);
    ServedUpTo(RenderAll(qs), l, cap, handler);
    var served := Serve(RenderAll(qs), l, cap, handler);
    assert !KeptOpen(Closed, handler);
    hide KeptOpen;
    var all := AllGot(qs) + [Closed];
    if |served| <= |qs| {
      assert served[|served| - 1] == all[|served| - 1] == Got(qs[|served| - 1]);
      assert served == all[..cap] == AllGot(qs)[..cap];
    } else {
      assert served == all;
    }
  }
}
