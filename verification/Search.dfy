/** The search box: its grammar, the parser, and what a query means of a document. */
module Search {
  import opened Wrappers

  /** A word or a phrase, possibly negated. */
  datatype Term = Term(negated: bool, words: seq<string>)
  datatype Result = Ok(groups: seq<seq<Term>>) | Empty | NoPositive

  // ---- characters (ASCII) ----

  predicate IsWord(c: char) {
    'a' <= c <= 'z' || 'A' <= c <= 'Z' || '0' <= c <= '9' || c == '_'
  }

  /** What a sanitized word is made of. */
  predicate Plain(c: char) {
    IsWord(c) && Lower(c) == c
  }

  // ---- splitting text ----

  function Flush(word: string): seq<string> {
    if word == "" then [] else [word]
  }

  /** The words of `s`, after the unfinished word `cur`. */
  function Words(s: string, cur: string): seq<string> {
    if s == "" then Flush(cur)
    else if IsWord(s[0]) then Words(s[1..], cur + [Lower(s[0])])
    else Flush(cur) + Words(s[1..], "")
  }

  function WordsOf(s: string): seq<string> {
    Words(s, "")
  }

  /** The length of the text before the first space, or of all of it. */
  function UntilSpace(s: string): (n: nat)
    ensures n <= |s| && (n == 0 && s != "" ==> IsSpace(s[0]))
  {
    if s == "" || IsSpace(s[0]) then 0 else 1 + UntilSpace(s[1..])
  }

  function UntilQuote(s: string): (n: nat)
    ensures n <= |s|
  {
    if s == "" || s[0] == '"' then 0 else 1 + UntilQuote(s[1..])
  }

  /** The length of the run of word characters at the head of `s`. */
  function WordLength(s: string): (n: nat)
    ensures n <= |s| && (s != "" && IsWord(s[0]) ==> n > 0)
  {
    if s == "" || !IsWord(s[0]) then 0 else 1 + WordLength(s[1..])
  }

  lemma {:induction false} Run(w: string, tail: string)
    requires (forall i :: 0 <= i < |w| ==> Plain(w[i])) && (tail == "" || !IsWord(tail[0]))
    ensures WordLength(w + tail) == |w|
    decreases |w|
  {
    if w == "" {
      assert w + tail == tail;
    } else {
      assert (w + tail)[1..] == w[1..] + tail;
      Run(w[1..], tail);
      assert Plain(w[0]);
    }
  }

  // ---- the parser, one step at a time ----

  datatype State = State(groups: seq<seq<Term>>, rest: string)

  function Push(groups: seq<seq<Term>>, t: Term): (r: seq<seq<Term>>)
    requires groups != []
    ensures r != []
  {
    if t.words == [] then groups else groups[|groups| - 1 := groups[|groups| - 1] + [t]]
  }

  function NewGroup(groups: seq<seq<Term>>): (r: seq<seq<Term>>)
    requires groups != []
    ensures r != []
  {
    if groups[|groups| - 1] != [] then groups + [[]] else groups
  }

  predicate AtOr(rest: string) {
    "OR " <= rest || rest == "OR"
  }

  /** The words of the term at the head of `s`, and what follows it. */
  function TakeTerm(s: string): (r: (seq<string>, string))
    ensures |r.1| <= |s| && (s != "" ==> |r.1| < |s|)
  {
    if s != "" && s[0] == '"' then
      var r := s[1..];
      var end := UntilQuote(r);
      (WordsOf(r[..end]), TrimStart(if end < |r| then r[end + 1..] else ""))
    else
      var end := UntilSpace(s);
      assert end == 0 && s != "" ==> TrimStart(s) == TrimStart(s[1..]);
      (WordsOf(s[..end]), TrimStart(s[end..]))
  }

  function Step(groups: seq<seq<Term>>, rest: string): (r: State)
    requires groups != [] && rest != ""
    ensures r.groups != [] && |r.rest| < |rest|
  {
    if AtOr(rest) then State(NewGroup(groups), TrimStart(if "OR " <= rest then rest[3..] else ""))
    else
      var negated := rest[0] == '-';
      var (words, after) := TakeTerm(if negated then rest[1..] else rest);
      State(Push(groups, Term(negated, words)), after)
  }

  function Loop(groups: seq<seq<Term>>, rest: string): (r: seq<seq<Term>>)
    requires groups != []
    ensures r != []
    decreases |rest|
  {
    if rest == "" then groups else var s := Step(groups, rest); Loop(s.groups, s.rest)
  }

  function Retained(groups: seq<seq<Term>>): seq<seq<Term>> {
    if groups == [] then []
    else (if groups[0] == [] then [] else [groups[0]]) + Retained(groups[1..])
  }

  predicate HasPositive(g: seq<Term>) {
    exists i :: 0 <= i < |g| && !g[i].negated
  }

  function Finish(groups: seq<seq<Term>>): Result {
    var kept := Retained(groups);
    if kept == [] then Empty
    else if exists i :: 0 <= i < |kept| && !HasPositive(kept[i]) then NoPositive
    else Ok(kept)
  }

  function Parse(input: string): Result {
    Finish(Loop([[]], TrimEnd(TrimStart(input))))
  }

  /** `parse_query` */
  method ParseQuery(input: string) returns (r: Result)
    ensures r == Parse(input)
  {
    var groups: seq<seq<Term>>, rest := [[]], TrimEnd(TrimStart(input));
    while rest != ""
      invariant groups != [] && Loop(groups, rest) == Loop([[]], TrimEnd(TrimStart(input)))
      decreases |rest|
    {
      hide TakeTerm, TrimStart, TrimEnd;
      if AtOr(rest) {
        if groups[|groups| - 1] != [] {
          groups := groups + [[]];
        }
        rest := TrimStart(if "OR " <= rest then rest[3..] else "");
      } else {
        var negated := rest[0] == '-';
        var (words, after) := TakeTerm(if negated then rest[1..] else rest);
        if words != [] {
          groups := groups[|groups| - 1 := groups[|groups| - 1] + [Term(negated, words)]];
        }
        rest := after;
      }
    }
    r := Finish(groups);
  }

  // ---- every accepted query ----

  predicate GoodWord(w: string) {
    w != "" && forall i :: 0 <= i < |w| ==> Plain(w[i])
  }

  predicate GoodTerm(t: Term) {
    t.words != [] && forall i :: 0 <= i < |t.words| ==> GoodWord(t.words[i])
  }

  predicate GoodGroup(g: seq<Term>) {
    forall i :: 0 <= i < |g| ==> GoodTerm(g[i])
  }

  predicate GoodGroups(groups: seq<seq<Term>>) {
    forall i :: 0 <= i < |groups| ==> GoodGroup(groups[i])
  }

  /** Groups of sanitized terms, each with one that is not negated. */
  predicate Good(groups: seq<seq<Term>>) {
    groups != [] && GoodGroups(groups) && forall i :: 0 <= i < |groups| ==> HasPositive(groups[i])
  }

  lemma {:induction false} WordsGood(s: string, cur: string)
    requires forall i :: 0 <= i < |cur| ==> Plain(cur[i])
    ensures forall i :: 0 <= i < |Words(s, cur)| ==> GoodWord(Words(s, cur)[i])
    decreases |s|
  {
    if s != "" {
      if IsWord(s[0]) {
        WordsGood(s[1..], cur + [Lower(s[0])]);
      } else {
        WordsGood(s[1..], "");
      }
    }
  }

  lemma TakenGood(s: string, negated: bool)
    requires TakeTerm(s).0 != []
    ensures GoodTerm(Term(negated, TakeTerm(s).0))
  {
    hide UntilSpace, UntilQuote, Words, TrimStart, GoodWord;
    if s != "" && s[0] == '"' {
      WordsGood(s[1..][..UntilQuote(s[1..])], "");
    } else {
      WordsGood(s[..UntilSpace(s)], "");
    }
  }

  lemma {:induction false} LoopGood(groups: seq<seq<Term>>, rest: string)
    requires groups != [] && GoodGroups(groups)
    ensures GoodGroups(Loop(groups, rest))
    decreases |rest|
  {
    if rest != "" {
      var s := Step(groups, rest);
      var after := if rest[0] == '-' then rest[1..] else rest;
      if !AtOr(rest) && TakeTerm(after).0 != [] {
        TakenGood(after, rest[0] == '-');
      }
      assert GoodGroups(s.groups) by { hide TakeTerm, GoodTerm, Loop, TrimStart; }
      LoopGood(s.groups, s.rest);
      hide Step;
    }
  }

  lemma {:induction false} RetainedGood(groups: seq<seq<Term>>)
    requires GoodGroups(groups)
    ensures GoodGroups(Retained(groups))
  {
    hide GoodGroup;
    if groups != [] {
      RetainedGood(groups[1..]);
    }
  }

  /** An accepted query is non-empty groups of sanitized terms, each group with a
      positive one. */
  lemma AcceptedIsGood(input: string)
    requires Parse(input).Ok?
    ensures Good(Parse(input).groups)
  {
    assert GoodGroup([]);
    hide Loop, Retained, GoodGroup, TrimStart, TrimEnd, HasPositive;
    LoopGood([[]], TrimEnd(TrimStart(input)));
    RetainedGood(Loop([[]], TrimEnd(TrimStart(input))));
  }

  // ---- writing a query down ----

  function ShowTerm(t: Term): string
    requires t.words != []
  {
    (if t.negated then "-" else "") + (if |t.words| == 1 then t.words[0] else "\"" + Join(t.words, " ") + "\"")
  }

  function ShowGroup(g: seq<Term>): string
    requires g != [] && GoodGroup(g)
  {
    if |g| == 1 then ShowTerm(g[0]) else ShowTerm(g[0]) + " " + ShowGroup(g[1..])
  }

  function Show(groups: seq<seq<Term>>): string
    requires groups != [] && GoodGroups(groups) && forall i :: 0 <= i < |groups| ==> groups[i] != []
  {
    if |groups| == 1 then ShowGroup(groups[0]) else ShowGroup(groups[0]) + " OR " + Show(groups[1..])
  }

  // ---- meaning ----

  /** A document is its words in order. */
  type Doc = seq<string>

  predicate PhraseAt(doc: Doc, words: seq<string>, i: nat) {
    i + |words| <= |doc| && doc[i..i + |words|] == words
  }

  ghost predicate Contains(doc: Doc, words: seq<string>) {
    exists i: nat :: PhraseAt(doc, words, i)
  }

  ghost predicate TermMatches(doc: Doc, t: Term) {
    Contains(doc, t.words) != t.negated
  }

  ghost predicate GroupMatches(doc: Doc, g: seq<Term>) {
    forall i :: 0 <= i < |g| ==> TermMatches(doc, g[i])
  }

  ghost predicate Matches(doc: Doc, groups: seq<seq<Term>>) {
    exists i :: 0 <= i < |groups| && GroupMatches(doc, groups[i])
  }

  lemma MatchesCons(doc: Doc, groups: seq<seq<Term>>)
    requires groups != []
    ensures Matches(doc, groups) <==> GroupMatches(doc, groups[0]) || Matches(doc, groups[1..])
  {
    hide GroupMatches;
    if Matches(doc, groups) {
      var i :| 0 <= i < |groups| && GroupMatches(doc, groups[i]);
      if i > 0 { assert GroupMatches(doc, groups[1..][i - 1]); }
    }
    if Matches(doc, groups[1..]) {
      var i :| 0 <= i < |groups| - 1 && GroupMatches(doc, groups[1..][i]);
      assert GroupMatches(doc, groups[i + 1]);
    }
  }
}
