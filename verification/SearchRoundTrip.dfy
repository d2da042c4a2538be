/** Any query of sanitized terms, written down in the grammar, parses back to itself. */
module SearchRoundTrip {
  import opened Search
  import opened Wrappers

  /** What follows a term: the end, or a space. */
  predicate Ends(tail: string) {
    tail == "" || tail[0] == ' '
  }

  // ---- words ----

  lemma {:induction false} WordsRun(w: string, tail: string, cur: string)
    requires forall i :: 0 <= i < |w| ==> Plain(w[i])
    ensures Words(w + tail, cur) == Words(tail, cur + w)
    decreases |w|
  {
    if w == "" {
      assert w + tail == tail && cur + w == cur;
    } else {
      assert (w + tail)[1..] == w[1..] + tail;
      assert (cur + [w[0]]) + w[1..] == cur + w;
      WordsRun(w[1..], tail, cur + [w[0]]);
      assert Plain(w[0]);
    }
  }

  lemma {:induction false} WordsBack(words: seq<string>)
    requires words != [] && forall i :: 0 <= i < |words| ==> GoodWord(words[i])
    ensures WordsOf(Join(words, " ")) == words
  {
    var w := words[0];
    if |words| == 1 {
      WordsRun(w, "", "");
      assert w + "" == w && "" + w == w;
    } else {
      var rest := " " + Join(words[1..], " ");
      WordsRun(w, rest, "");
      assert "" + w == w;
      assert rest[1..] == Join(words[1..], " ");
      WordsBack(words[1..]);
      assert Words(rest, w) == Flush(w) + Words(rest[1..], "");
      hide Words;
      assert words == [w] + words[1..];
    }
  }

  /** Neither a quote nor an upper-case letter is in the text of sanitized words. */
  lemma {:induction false} ShownChars(words: seq<string>)
    requires words != [] && forall i :: 0 <= i < |words| ==> GoodWord(words[i])
    ensures forall i :: 0 <= i < |Join(words, " ")| ==> Plain(Join(words, " ")[i]) || Join(words, " ")[i] == ' '
    ensures Join(words, " ") != "" && Plain(Join(words, " ")[0])
  {
    assert GoodWord(words[0]);
    if |words| > 1 {
      ShownChars(words[1..]);
      hide Plain;
    }
  }

  lemma {:induction false} QuoteAfter(s: string, tail: string)
    requires forall i :: 0 <= i < |s| ==> s[i] != '"'
    requires tail != "" && tail[0] == '"'
    ensures UntilQuote(s + tail) == |s|
    decreases |s|
  {
    if s == "" {
      assert s + tail == tail;
    } else {
      assert (s + tail)[1..] == s[1..] + tail;
      QuoteAfter(s[1..], tail);
    }
  }

  lemma {:induction false} SpaceAfter(w: string, tail: string)
    requires (forall i :: 0 <= i < |w| ==> Plain(w[i])) && Ends(tail)
    ensures UntilSpace(w + tail) == |w|
    decreases |w|
  {
    if w == "" {
      assert w + tail == tail;
    } else {
      assert (w + tail)[1..] == w[1..] + tail;
      SpaceAfter(w[1..], tail);
      assert Plain(w[0]);
    }
  }

  // ---- terms ----

  lemma WordTaken(w: string, tail: string)
    requires GoodWord(w) && Ends(tail)
    ensures TakeTerm(w + tail) == ([w], TrimStart(tail))
  {
    SpaceAfter(w, tail);
    WordsBack([w]);
    var s := w + tail;
    assert s[0] == w[0] && Plain(w[0]);
    assert s[..|w|] == w && s[|w|..] == tail;
    hide Words, TrimStart, UntilSpace, UntilQuote;
  }

  lemma PhraseTaken(words: seq<string>, tail: string)
    requires words != [] && forall i :: 0 <= i < |words| ==> GoodWord(words[i])
    ensures TakeTerm("\"" + Join(words, " ") + "\"" + tail) == (words, TrimStart(tail))
  {
    var shown := Join(words, " ");
    ShownChars(words);
    QuoteAfter(shown, "\"" + tail);
    WordsBack(words);
    QuotedCut(shown, tail);
    hide Words, TrimStart, UntilQuote, UntilSpace, Join;
  }

  lemma QuotedCut(shown: string, tail: string)
    ensures var s := "\"" + shown + "\"" + tail;
      && s[0] == '"' && s[1..] == shown + ("\"" + tail)
      && s[1..][..|shown|] == shown && |shown| < |s[1..]| && s[1..][|shown| + 1..] == tail
  {
  }

  lemma NotAtOr(c: char, s: string)
    requires s != "" && s[0] == c && c != 'O'
    ensures !AtOr(s)
  {
    assert "OR "[0] == 'O';
  }

  lemma TermHead(t: Term)
    requires GoodTerm(t)
    ensures ShowTerm(t) != "" && (ShowTerm(t)[0] == '-' <==> t.negated)
    ensures ShowTerm(t)[0] != 'O' && !IsSpace(ShowTerm(t)[0])
  {
    assert GoodWord(t.words[0]) && Plain(t.words[0][0]);
    hide Join;
  }

  function Body(t: Term): string
    requires t.words != []
  {
    if |t.words| == 1 then t.words[0] else "\"" + Join(t.words, " ") + "\""
  }

  lemma BodyTaken(t: Term, tail: string)
    requires GoodTerm(t) && Ends(tail)
    ensures TakeTerm(Body(t) + tail) == (t.words, TrimStart(tail))
  {
    if |t.words| == 1 {
      assert GoodWord(t.words[0]);
      WordTaken(t.words[0], tail);
      assert t.words == [t.words[0]];
    } else {
      PhraseTaken(t.words, tail);
    }
    hide TakeTerm, TrimStart, Join, GoodWord;
  }

  lemma TermText(t: Term, tail: string)
    requires t.words != []
    ensures ShowTerm(t) + tail == (if t.negated then "-" + (Body(t) + tail) else Body(t) + tail)
  {
    hide Join;
    assert "" + Body(t) == Body(t);
  }

  /** One step over a written term pushes it and stops after the space that follows. */
  lemma TermParsed(groups: seq<seq<Term>>, t: Term, tail: string)
    requires groups != [] && GoodTerm(t) && Ends(tail)
    ensures ShowTerm(t) + tail != ""
    ensures Step(groups, ShowTerm(t) + tail) == State(Push(groups, t), TrimStart(tail))
  {
    var s := ShowTerm(t) + tail;
    TermHead(t);
    assert s != "" && s[0] == ShowTerm(t)[0];
    NotAtOr(s[0], s);
    TermText(t, tail);
    BodyTaken(t, tail);
    assert t.negated ==> ("-" + (Body(t) + tail))[1..] == Body(t) + tail;
    hide TakeTerm, TrimStart, AtOr, Push, ShowTerm, Body, Join, IsSpace, GoodTerm;
  }

  // ---- groups ----

  lemma Trimmed(t: Term, more: string)
    requires GoodTerm(t)
    ensures TrimStart(ShowTerm(t) + more) == ShowTerm(t) + more
    ensures TrimStart(" " + (ShowTerm(t) + more)) == ShowTerm(t) + more
  {
    TermHead(t);
    var s := ShowTerm(t) + more;
    assert s[0] == ShowTerm(t)[0];
    assert (" " + s)[1..] == s;
    hide ShowTerm;
    assert TrimStart(s) == s;
  }

  function Extended(groups: seq<seq<Term>>, g: seq<Term>): (r: seq<seq<Term>>)
    requires groups != []
    ensures |r| == |groups|
  {
    groups[|groups| - 1 := groups[|groups| - 1] + g]
  }

  lemma GroupHead(g: seq<Term>, tail: string)
    requires g != [] && GoodGroup(g)
    ensures exists more :: ShowGroup(g) + tail == ShowTerm(g[0]) + more
  {
    if |g| == 1 {
      assert ShowGroup(g) + tail == ShowTerm(g[0]) + tail;
    } else {
      assert ShowGroup(g) + tail == ShowTerm(g[0]) + (" " + ShowGroup(g[1..]) + tail);
    }
  }

  lemma GroupText(g: seq<Term>, tail: string)
    requires |g| > 1 && GoodGroup(g)
    ensures ShowGroup(g) + tail == ShowTerm(g[0]) + (" " + (ShowGroup(g[1..]) + tail))
  {
    assert GoodTerm(g[0]) && GoodGroup(g[1..]);
    Enclosed(ShowTerm(g[0]), " ", ShowGroup(g[1..]), tail);
    hide ShowTerm, GoodTerm, GoodGroup;
    assert ShowGroup(g) == ShowTerm(g[0]) + " " + ShowGroup(g[1..]);
  }

  lemma GroupTrimmed(g: seq<Term>, tail: string)
    requires g != [] && GoodGroup(g)
    ensures TrimStart(ShowGroup(g) + tail) == ShowGroup(g) + tail
    ensures TrimStart(" " + (ShowGroup(g) + tail)) == ShowGroup(g) + tail
  {
    GroupHead(g, tail);
    var more :| ShowGroup(g) + tail == ShowTerm(g[0]) + more;
    Trimmed(g[0], more);
    hide *;
  }

  lemma {:induction false} GroupParsed(groups: seq<seq<Term>>, g: seq<Term>, tail: string)
    requires groups != [] && g != [] && GoodGroup(g) && Ends(tail)
    ensures Loop(groups, ShowGroup(g) + tail) == Loop(Extended(groups, g), TrimStart(tail))
    decreases |g|
  {
    if |g| == 1 {
      OneGroup(groups, g, tail);
    } else {
      var rest := ShowGroup(g[1..]) + tail;
      assert GoodTerm(g[0]) && GoodGroup(g[1..]);
      TermParsed(groups, g[0], " " + rest) by { assert Ends(" " + rest); }
      GroupTrimmed(g[1..], tail);
      GroupText(g, tail);
      GroupParsed(Push(groups, g[0]), g[1..], tail);
      Appended(groups, g);
      LoopOnce(groups, ShowTerm(g[0]) + (" " + rest));
      hide *;
    }
  }

  lemma OneGroup(groups: seq<seq<Term>>, g: seq<Term>, tail: string)
    requires groups != [] && |g| == 1 && GoodGroup(g) && Ends(tail)
    ensures Loop(groups, ShowGroup(g) + tail) == Loop(Extended(groups, g), TrimStart(tail))
  {
    assert GoodTerm(g[0]);
    TermParsed(groups, g[0], tail);
    LoopOnce(groups, ShowTerm(g[0]) + tail);
    assert ShowGroup(g) == ShowTerm(g[0]);
    assert Push(groups, g[0]) == Extended(groups, g) by { hide GoodTerm; assert g == [g[0]]; }
    hide *;
  }

  lemma LoopOnce(groups: seq<seq<Term>>, rest: string)
    requires groups != [] && rest != ""
    ensures Loop(groups, rest) == Loop(Step(groups, rest).groups, Step(groups, rest).rest)
  {
    hide Step;
  }

  lemma Appended(groups: seq<seq<Term>>, g: seq<Term>)
    requires groups != [] && g != [] && g[0].words != []
    ensures Extended(Push(groups, g[0]), g[1..]) == Extended(groups, g)
  {
    var last := groups[|groups| - 1];
    assert (last + [g[0]]) + g[1..] == last + g;
  }

  lemma OrStep(groups: seq<seq<Term>>, more: string)
    requires groups != [] && groups[|groups| - 1] != []
    ensures Step(groups, "OR " + more) == State(groups + [[]], TrimStart(more))
  {
    assert ("OR " + more)[3..] == more;
    hide TrimStart, TakeTerm;
  }

  // ---- whole queries ----

  lemma ShowHead(groups: seq<seq<Term>>)
    requires Good(groups)
    ensures groups[0] != [] && GoodTerm(groups[0][0])
    ensures exists more :: Show(groups) == ShowTerm(groups[0][0]) + more
  {
    assert HasPositive(groups[0]);
    if |groups| == 1 {
      GroupHead(groups[0], "");
      assert ShowGroup(groups[0]) + "" == ShowGroup(groups[0]);
    } else {
      GroupHead(groups[0], " OR " + Show(groups[1..]));
      assert ShowGroup(groups[0]) + " OR " + Show(groups[1..]) == ShowGroup(groups[0]) + (" OR " + Show(groups[1..]));
    }
  }

  /** A group, an `OR` and the rest of the query. */
  lemma OrParsed(done: seq<seq<Term>>, g: seq<Term>, more: string)
    requires g != [] && GoodGroup(g) && TrimStart(more) == more
    ensures Loop(done + [[]], ShowGroup(g) + (" OR " + more)) == Loop(done + [g] + [[]], more)
  {
    Started(done, g);
    GroupParsed(done + [[]], g, " OR " + more) by { assert Ends(" OR " + more); }
    OrTrimmed(more);
    OrStep(done + [g], more) by { assert (done + [g])[|done|] == g; }
    LoopOnce(done + [g], "OR " + more);
    hide *;
  }

  lemma Started(done: seq<seq<Term>>, g: seq<Term>)
    ensures Extended(done + [[]], g) == done + [g]
  {
    assert [] + g == g;
  }

  lemma QueryTrimmed(groups: seq<seq<Term>>)
    requires Good(groups)
    ensures TrimStart(Show(groups)) == Show(groups)
  {
    ShowHead(groups);
    var more :| Show(groups) == ShowTerm(groups[0][0]) + more;
    Trimmed(groups[0][0], more);
    hide *;
  }

  lemma QueryText(groups: seq<seq<Term>>)
    requires Good(groups)
    ensures groups[0] != [] && GoodGroup(groups[0])
    ensures |groups| == 1 ==> Show(groups) == ShowGroup(groups[0]) + ""
    ensures |groups| > 1 ==> Good(groups[1..]) && Show(groups) == ShowGroup(groups[0]) + (" OR " + Show(groups[1..]))
  {
    assert HasPositive(groups[0]) && GoodGroup(groups[0]);
    if |groups| > 1 {
      GoodTail(groups);
      Enclosed(ShowGroup(groups[0]), " OR ", Show(groups[1..]), "");
    }
    hide ShowGroup, GoodGroup, HasPositive;
  }

  lemma EndOfText(groups: seq<seq<Term>>)
    requires groups != []
    ensures TrimStart("") == "" && Loop(groups, "") == groups
  {
  }

  lemma LastParsed(done: seq<seq<Term>>, g: seq<Term>)
    requires g != [] && GoodGroup(g)
    ensures Loop(done + [[]], ShowGroup(g) + "") == done + [g]
  {
    Started(done, g);
    GroupParsed(done + [[]], g, "");
    EndOfText(done + [g]);
    hide *;
  }

  lemma {:induction false} QueryParsed(done: seq<seq<Term>>, groups: seq<seq<Term>>)
    requires Good(groups)
    ensures Loop(done + [[]], Show(groups)) == done + groups
    decreases |groups|
  {
    QueryText(groups);
    hide *;
    var g := groups[0];
    if |groups| == 1 {
      LastParsed(done, g);
      assert groups == [g];
    } else {
      QueryTrimmed(groups[1..]);
      OrParsed(done, g, Show(groups[1..]));
      QueryParsed(done + [g], groups[1..]);
      Joined(done, groups);
    }
  }

  lemma Joined(done: seq<seq<Term>>, groups: seq<seq<Term>>)
    requires groups != []
    ensures (done + [groups[0]]) + groups[1..] == done + groups
  {
  }

  lemma OrTrimmed(more: string)
    ensures TrimStart(" OR " + more) == "OR " + more
  {
    var s := " OR " + more;
    assert s[1..] == "OR " + more;
    assert TrimStart(s) == TrimStart(s[1..]);
    assert s[1] == 'O';
  }

  lemma GoodTail(groups: seq<seq<Term>>)
    requires Good(groups) && |groups| > 1
    ensures Good(groups[1..])
  {
    hide HasPositive, GoodGroup;
  }

  lemma {:induction false} RetainedAll(groups: seq<seq<Term>>)
    requires forall i :: 0 <= i < |groups| ==> groups[i] != []
    ensures Retained(groups) == groups
  {
    if groups != [] {
      RetainedAll(groups[1..]);
    }
  }

  lemma FinishGood(groups: seq<seq<Term>>)
    requires Good(groups)
    ensures Finish(groups) == Ok(groups)
  {
    assert forall i :: 0 <= i < |groups| ==> HasPositive(groups[i]);
    RetainedAll(groups);
    hide HasPositive, GoodGroup;
  }

  /** No shown query ends in a space. */
  lemma {:induction false} ShownEnd(groups: seq<seq<Term>>)
    requires Good(groups)
    ensures Show(groups) != "" && TrimEnd(Show(groups)) == Show(groups)
    decreases |groups|
  {
    assert HasPositive(groups[0]);
    if |groups| == 1 {
      GroupEnd(groups[0]);
    } else {
      GoodTail(groups);
      ShownEnd(groups[1..]);
      LastOf(ShowGroup(groups[0]) + " OR ", Show(groups[1..]));
      assert Show(groups) == ShowGroup(groups[0]) + " OR " + Show(groups[1..]);
      hide Show, ShowGroup;
    }
  }

  lemma LastOf(a: string, b: string)
    requires b != "" && TrimEnd(b) == b
    ensures TrimEnd(a + b) == a + b
  {
    assert IsSpace(b[|b| - 1]) ==> |TrimEnd(b[..|b| - 1])| <= |b| - 1 by { TrimEndLength(b[..|b| - 1]); }
    assert (a + b)[|a + b| - 1] == b[|b| - 1];
  }

  lemma {:induction false} TrimEndLength(s: string)
    ensures |TrimEnd(s)| <= |s|
  {
    if s != "" { TrimEndLength(s[..|s| - 1]); }
  }

  lemma {:induction false} GroupEnd(g: seq<Term>)
    requires g != [] && GoodGroup(g)
    ensures ShowGroup(g) != "" && TrimEnd(ShowGroup(g)) == ShowGroup(g)
    decreases |g|
  {
    TermEnd(g[0]);
    if |g| > 1 {
      GroupEnd(g[1..]);
      LastOf(ShowTerm(g[0]) + " ", ShowGroup(g[1..]));
    }
  }

  lemma TermEnd(t: Term)
    requires GoodTerm(t)
    ensures ShowTerm(t) != "" && TrimEnd(ShowTerm(t)) == ShowTerm(t)
  {
    TermHead(t);
    assert GoodWord(t.words[0]);
    var s := ShowTerm(t);
    if |t.words| == 1 {
      assert s[|s| - 1] == t.words[0][|t.words[0]| - 1] && Plain(s[|s| - 1]);
    } else {
      assert s[|s| - 1] == '"';
    }
  }

  /** Parsing what is written gives back the query. */
  lemma ParseShow(groups: seq<seq<Term>>)
    requires Good(groups)
    ensures Parse(Show(groups)) == Ok(groups)
  {
    ShowHead(groups);
    var more :| Show(groups) == ShowTerm(groups[0][0]) + more;
    Trimmed(groups[0][0], more);
    ShownEnd(groups);
    var none: seq<seq<Term>> := [];
    QueryParsed(none, groups);
    assert none + groups == groups && none + [[]] == [[]];
    FinishGood(groups);
    hide Loop, Finish, TrimStart, TrimEnd, Show, ShowTerm, Good;
  }
}
