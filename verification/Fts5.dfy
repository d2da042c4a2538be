/** The query as SQLite FTS5 text, and that text read back under the engine's own
    precedence: `NOT` binds tightest, then `AND`, then `OR`, each to the left. */
module Fts5 {
  import opened Search
  import opened Wrappers
  import RT = SearchRoundTrip
  import Ts = TsQuery

  // ---- rendering ----

  /** The words of the terms whose negation is `negated`, in order. */
  function Select(g: seq<Term>, negated: bool): seq<seq<string>> {
    if g == [] then [] else (if g[0].negated == negated then [g[0].words] else []) + Select(g[1..], negated)
  }

  function Quoted(words: seq<string>): string {
    "\"" + Join(words, " ") + "\""
  }

  function QuotedAll(phrases: seq<seq<string>>): seq<string> {
    seq(|phrases|, i requires 0 <= i < |phrases| => Quoted(phrases[i]))
  }

  function NotClauses(phrases: seq<seq<string>>): string {
    if phrases == [] then "" else " NOT " + (Quoted(phrases[0]) + NotClauses(phrases[1..]))
  }

  function RenderGroup(g: seq<Term>, many: bool): string {
    var s := Join(QuotedAll(Select(g, false)), " AND ") + NotClauses(Select(g, true));
    if many && |g| > 1 then "(" + s + ")" else s
  }

  function RenderGroups(groups: seq<seq<Term>>, many: bool): seq<string> {
    seq(|groups|, i requires 0 <= i < |groups| => RenderGroup(groups[i], many))
  }

  /** `to_fts5` */
  function ToFts5(groups: seq<seq<Term>>): string {
    Join(RenderGroups(groups, |groups| > 1), " OR ")
  }

  /** The rendering of one group, with the `NOT` clauses appended in a loop. */
  method GroupText(g: seq<Term>, many: bool) returns (s: string)
    ensures s == RenderGroup(g, many)
  {
    hide Quoted, Join;
    s := Join(QuotedAll(Select(g, false)), " AND ");
    ghost var head := s;
    var i := 0;
    assert g[0..] == g && head + NotClauses(Select(g, true)) == s + NotClauses(Select(g[0..], true));
    while i < |g|
      invariant 0 <= i <= |g|
      invariant head + NotClauses(Select(g, true)) == s + NotClauses(Select(g[i..], true))
    {
      assert g[i..][0] == g[i] && g[i..][1..] == g[i + 1..];
      ClauseStep(g[i..]);
      if g[i].negated {
        Regroup(s, " NOT ", Quoted(g[i].words), NotClauses(Select(g[i + 1..], true)));
        s := s + (" NOT " + Quoted(g[i].words));
      }
      i := i + 1;
    }
    assert g[i..] == [] && s + "" == s;
    if many && |g| > 1 {
      s := "(" + s + ")";
    }
  }

  lemma ClauseStep(g: seq<Term>)
    requires g != []
    ensures var more := NotClauses(Select(g[1..], true));
      NotClauses(Select(g, true)) == if g[0].negated then " NOT " + (Quoted(g[0].words) + more) else more
  {
    hide Quoted;
    var more := Select(g[1..], true);
    assert [] + more == more && ([g[0].words] + more)[1..] == more;
  }

  // ---- the engine: tokens ----

  datatype Tok = Str(words: seq<string>) | Open | Close | And | Or | Not | Other(c: char)

  function Keyword(w: string): Tok {
    if w == "AND" then And else if w == "OR" then Or else if w == "NOT" then Not else Str([w])
  }

  /** A string is tokenized into the words of its phrase. A doubled quote, which stands
      for a quote inside a string, is not modelled: sanitized words hold none. */
  function Lex(s: string): seq<Tok> {
    if s == "" then []
    else if s[0] == ' ' then Lex(s[1..])
    else if s[0] == '(' then [Open] + Lex(s[1..])
    else if s[0] == ')' then [Close] + Lex(s[1..])
    else if s[0] == '"' then
      var n := UntilQuote(s[1..]);
      if n == |s| - 1 then [Other('"')] else [Str(WordsOf(s[1..n + 1]))] + Lex(s[n + 2..])
    else if IsWord(s[0]) then [Keyword(s[..WordLength(s)])] + Lex(s[WordLength(s)..])
    else [Other(s[0])] + Lex(s[1..])
  }

  // ---- the engine: precedence ----

  datatype Fts = Phrase(words: seq<string>) | Except(l: Fts, r: Fts) | Both(l: Fts, r: Fts) | Either(l: Fts, r: Fts)
  datatype Parsed = Fail | Got(e: Fts, rest: seq<Tok>)

  function ParseOr(t: seq<Tok>): (p: Parsed)
    ensures p.Got? ==> |p.rest| < |t|
    decreases |t|, 6
  {
    match ParseAnd(t)
    case Fail => Fail
    case Got(e, rest) => OrTail(e, rest)
  }

  function OrTail(e: Fts, t: seq<Tok>): (p: Parsed)
    ensures p.Got? ==> |p.rest| <= |t|
    decreases |t|, 7
  {
    if t == [] || t[0] != Or then Got(e, t)
    else
      match ParseAnd(t[1..])
      case Fail => Fail
      case Got(e2, rest) => OrTail(Either(e, e2), rest)
  }

  function ParseAnd(t: seq<Tok>): (p: Parsed)
    ensures p.Got? ==> |p.rest| < |t|
    decreases |t|, 4
  {
    match ParseNot(t)
    case Fail => Fail
    case Got(e, rest) => AndTail(e, rest)
  }

  function AndTail(e: Fts, t: seq<Tok>): (p: Parsed)
    ensures p.Got? ==> |p.rest| <= |t|
    decreases |t|, 5
  {
    if t == [] || t[0] != And then Got(e, t)
    else
      match ParseNot(t[1..])
      case Fail => Fail
      case Got(e2, rest) => AndTail(Both(e, e2), rest)
  }

  function ParseNot(t: seq<Tok>): (p: Parsed)
    ensures p.Got? ==> |p.rest| < |t|
    decreases |t|, 2
  {
    match Primary(t)
    case Fail => Fail
    case Got(e, rest) => NotTail(e, rest)
  }

  function NotTail(e: Fts, t: seq<Tok>): (p: Parsed)
    ensures p.Got? ==> |p.rest| <= |t|
    decreases |t|, 3
  {
    if t == [] || t[0] != Not then Got(e, t)
    else
      match Primary(t[1..])
      case Fail => Fail
      case Got(e2, rest) => NotTail(Except(e, e2), rest)
  }

  function Primary(t: seq<Tok>): (p: Parsed)
    ensures p.Got? ==> |p.rest| < |t|
    decreases |t|, 1
  {
    if t == [] then Fail
    else
      match t[0]
      case Str(words) => Got(Phrase(words), t[1..])
      case Open =>
        (match ParseOr(t[1..])
         case Fail => Fail
         case Got(e, rest) => if rest != [] && rest[0] == Close then Got(e, rest[1..]) else Fail)
      case _ => Fail
  }

  function Read(s: string): Parsed {
    ParseOr(Lex(s))
  }

  ghost predicate Holds(e: Fts, doc: Doc) {
    match e
    case Phrase(words) => Contains(doc, words)
    case Except(l, r) => Holds(l, doc) && !Holds(r, doc)
    case Both(l, r) => Holds(l, doc) && Holds(r, doc)
    case Either(l, r) => Holds(l, doc) || Holds(r, doc)
  }

  // ---- the tokens a rendering spells ----

  type Phrases = seq<seq<string>>

  ghost predicate GoodPhrases(ps: Phrases) {
    forall i :: 0 <= i < |ps| ==> GoodTerm(Term(false, ps[i]))
  }

  function PosToks(ps: Phrases): seq<Tok> {
    if ps == [] then [] else if |ps| == 1 then [Str(ps[0])] else [Str(ps[0])] + ([And] + PosToks(ps[1..]))
  }

  function NegToks(ns: Phrases): seq<Tok> {
    if ns == [] then [] else [Not] + ([Str(ns[0])] + NegToks(ns[1..]))
  }

  function InnerToks(g: seq<Term>): seq<Tok> {
    PosToks(Select(g, false)) + NegToks(Select(g, true))
  }

  function GroupToks(g: seq<Term>, many: bool): seq<Tok> {
    if many && |g| > 1 then [Open] + (InnerToks(g) + [Close]) else InnerToks(g)
  }

  function GroupsToks(groups: seq<seq<Term>>, many: bool): seq<Tok> {
    if groups == [] then []
    else if |groups| == 1 then GroupToks(groups[0], many)
    else GroupToks(groups[0], many) + ([Or] + GroupsToks(groups[1..], many))
  }

  lemma LexBracket(tail: string)
    ensures Lex("(" + tail) == [Open] + Lex(tail) && Lex(")" + tail) == [Close] + Lex(tail)
  {
    assert ("(" + tail)[1..] == tail && (")" + tail)[1..] == tail;
  }

  /** An upper-case word between spaces. */
  lemma LexKeyword(w: string, tail: string)
    requires w == "AND" || w == "OR" || w == "NOT"
    ensures Lex(" " + w + " " + tail) == [Keyword(w)] + Lex(tail)
  {
    var s, r := " " + w + " " + tail, w + (" " + tail);
    assert s[1..] == r;
    UpperRun(w, " " + tail);
    assert r[..|w|] == w && r[|w|..] == " " + tail && (" " + tail)[1..] == tail;
    assert r[0] == w[0] && IsWord(w[0]);
    assert Lex(" " + tail) == Lex(tail);
    hide WordLength, UntilQuote, Keyword;
    assert Lex(r) == [Keyword(w)] + Lex(" " + tail);
  }

  lemma {:induction false} UpperRun(w: string, tail: string)
    requires (forall i :: 0 <= i < |w| ==> IsWord(w[i])) && (tail == "" || !IsWord(tail[0]))
    ensures WordLength(w + tail) == |w|
    decreases |w|
  {
    if w == "" {
      assert w + tail == tail;
    } else {
      assert (w + tail)[1..] == w[1..] + tail;
      UpperRun(w[1..], tail);
    }
  }

  lemma LexQuoted(words: seq<string>, tail: string)
    requires GoodTerm(Term(false, words))
    ensures Lex(Quoted(words) + tail) == [Str(words)] + Lex(tail)
  {
    var shown := Join(words, " ");
    var s := Quoted(words) + tail;
    RT.ShownChars(words);
    RT.QuoteAfter(shown, "\"" + tail);
    RT.WordsBack(words);
    assert s[0] == '"' && s[1..] == shown + ("\"" + tail);
    assert s[1..|shown| + 1] == shown && s[|shown| + 2..] == tail;
    hide UntilQuote, Join, Words;
  }

  lemma {:induction false} PosLexed(ps: Phrases, tail: string)
    requires ps != [] && GoodPhrases(ps)
    ensures Lex(Join(QuotedAll(ps), " AND ") + tail) == PosToks(ps) + Lex(tail)
    decreases |ps|
  {
    if |ps| == 1 {
      LexQuoted(ps[0], tail);
    } else {
      var rest := Join(QuotedAll(ps[1..]), " AND ");
      PosLexed(ps[1..], tail);
      LexKeyword("AND", rest + tail);
      assert " " + "AND" + " " == " AND ";
      LexQuoted(ps[0], " AND " + (rest + tail));
      assert QuotedAll(ps)[1..] == QuotedAll(ps[1..]) by { hide Quoted; }
      Regroup(Quoted(ps[0]), " AND ", rest, tail);
      Regroup([Str(ps[0])], [And], PosToks(ps[1..]), Lex(tail));
      hide Lex, Quoted, GoodTerm;
    }
  }

  lemma {:induction false} NegLexed(ns: Phrases, tail: string)
    requires GoodPhrases(ns)
    ensures Lex(NotClauses(ns) + tail) == NegToks(ns) + Lex(tail)
    decreases |ns|
  {
    if ns == [] {
      assert "" + tail == tail;
    } else {
      var rest := NotClauses(ns[1..]);
      NegLexed(ns[1..], tail);
      LexKeyword("NOT", Quoted(ns[0]) + (rest + tail));
      assert " " + "NOT" + " " == " NOT ";
      LexQuoted(ns[0], rest + tail);
      Regroup(" NOT ", Quoted(ns[0]), rest, tail);
      Regroup([Not], [Str(ns[0])], NegToks(ns[1..]), Lex(tail));
      hide Lex, Quoted, GoodTerm;
    }
  }

  lemma {:induction false} SelectGood(g: seq<Term>, negated: bool)
    requires GoodGroup(g)
    ensures GoodPhrases(Select(g, negated))
    decreases |g|
  {
    if g != [] {
      SelectGood(g[1..], negated);
      assert GoodTerm(g[0]) && GoodTerm(Term(false, g[0].words));
      hide GoodTerm;
    }
  }

  lemma {:induction false} SelectSome(g: seq<Term>)
    requires HasPositive(g)
    ensures Select(g, false) != []
    decreases |g|
  {
    var i :| 0 <= i < |g| && !g[i].negated;
    if g[0].negated {
      assert !g[1..][i - 1].negated;
      SelectSome(g[1..]);
    }
  }

  lemma InnerLexed(g: seq<Term>, tail: string)
    requires GoodGroup(g) && HasPositive(g)
    ensures Lex(Join(QuotedAll(Select(g, false)), " AND ") + NotClauses(Select(g, true)) + tail)
      == InnerToks(g) + Lex(tail)
  {
    var ps, ns := Select(g, false), Select(g, true);
    SelectGood(g, false);
    SelectGood(g, true);
    SelectSome(g);
    NegLexed(ns, tail);
    PosLexed(ps, NotClauses(ns) + tail);
    assert InnerToks(g) == PosToks(ps) + NegToks(ns);
    hide *;
    Assoc(Join(QuotedAll(ps), " AND "), NotClauses(ns), tail);
    Assoc(PosToks(ps), NegToks(ns), Lex(tail));
  }

  lemma GroupLexed(g: seq<Term>, many: bool, tail: string)
    requires GoodGroup(g) && HasPositive(g)
    ensures Lex(RenderGroup(g, many) + tail) == GroupToks(g, many) + Lex(tail)
  {
    if many && |g| > 1 {
      var s := Join(QuotedAll(Select(g, false)), " AND ") + NotClauses(Select(g, true));
      InnerLexed(g, ")" + tail);
      LexBracket(tail);
      LexBracket(s + (")" + tail));
      Enclosed("(", s, ")", tail);
      Enclosed([Open], InnerToks(g), [Close], Lex(tail));
    } else {
      InnerLexed(g, tail);
    }
    hide Lex, Join, QuotedAll, NotClauses, InnerToks, GoodGroup, HasPositive, Select;
  }

  lemma {:induction false} GroupsLexed(groups: seq<seq<Term>>, many: bool, tail: string)
    requires Good(groups)
    ensures Lex(Join(RenderGroups(groups, many), " OR ") + tail) == GroupsToks(groups, many) + Lex(tail)
    decreases |groups|
  {
    assert GoodGroup(groups[0]) && HasPositive(groups[0]);
    GroupsShape(groups, many);
    hide Lex, RenderGroup, GroupToks, GoodGroup, HasPositive, Join, RenderGroups, GroupsToks;
    if |groups| == 1 {
      GroupLexed(groups[0], many, tail);
    } else {
      var rest := Join(RenderGroups(groups[1..], many), " OR ");
      RT.GoodTail(groups);
      hide Good;
      GroupsLexed(groups[1..], many, tail);
      LexOr(rest + tail);
      GroupLexed(groups[0], many, " OR " + (rest + tail));
      Regroup(RenderGroup(groups[0], many), " OR ", rest, tail);
      Regroup(GroupToks(groups[0], many), [Or], GroupsToks(groups[1..], many), Lex(tail));
    }
  }

  lemma LexOr(tail: string)
    ensures Lex(" OR " + tail) == [Or] + Lex(tail)
  {
    LexKeyword("OR", tail);
    assert " " + "OR" + " " == " OR ";
    hide Lex;
  }

  lemma GroupsShape(groups: seq<seq<Term>>, many: bool)
    requires groups != []
    ensures Join(RenderGroups(groups, many), " OR ") ==
      if |groups| == 1 then RenderGroup(groups[0], many)
      else RenderGroup(groups[0], many) + (" OR " + Join(RenderGroups(groups[1..], many), " OR "))
    ensures GroupsToks(groups, many) ==
      if |groups| == 1 then GroupToks(groups[0], many)
      else GroupToks(groups[0], many) + ([Or] + GroupsToks(groups[1..], many))
  {
    hide RenderGroup, GroupToks;
    assert RenderGroups(groups, many)[1..] == RenderGroups(groups[1..], many);
  }

  // ---- the tree those tokens parse to ----

  function ExceptFrom(e: Fts, ns: Phrases): Fts
    decreases |ns|
  {
    if ns == [] then e else ExceptFrom(Except(e, Phrase(ns[0])), ns[1..])
  }

  /** The `NOT` clauses bind to the last phrase alone. */
  function BothFrom(e: Fts, ps: Phrases, ns: Phrases): Fts
    requires ps != []
    decreases |ps|
  {
    if |ps| == 1 then Both(e, ExceptFrom(Phrase(ps[0]), ns)) else BothFrom(Both(e, Phrase(ps[0])), ps[1..], ns)
  }

  function InnerTree(ps: Phrases, ns: Phrases): Fts
    requires ps != []
  {
    if |ps| == 1 then ExceptFrom(Phrase(ps[0]), ns) else BothFrom(Phrase(ps[0]), ps[1..], ns)
  }

  function GroupTree(g: seq<Term>): Fts
    requires HasPositive(g)
  {
    SelectSome(g);
    InnerTree(Select(g, false), Select(g, true))
  }

  function EitherFrom(e: Fts, groups: seq<seq<Term>>): Fts
    requires forall i :: 0 <= i < |groups| ==> HasPositive(groups[i])
    decreases |groups|
  {
    if groups == [] then e else EitherFrom(Either(e, GroupTree(groups[0])), groups[1..])
  }

  predicate Begins(t: seq<Tok>, k: Tok) {
    t != [] && t[0] == k
  }

  /** A group ends at the end, at `OR` or at a closing parenthesis. */
  predicate Stops(tail: seq<Tok>) {
    !Begins(tail, Not) && !Begins(tail, And)
  }

  lemma PrimaryStr(words: seq<string>, tail: seq<Tok>)
    ensures Primary([Str(words)] + tail) == Got(Phrase(words), tail)
  {
    assert ([Str(words)] + tail)[1..] == tail;
  }

  lemma {:induction false} NegParsed(e: Fts, ns: Phrases, tail: seq<Tok>)
    requires !Begins(tail, Not)
    ensures NotTail(e, NegToks(ns) + tail) == Got(ExceptFrom(e, ns), tail)
    decreases |ns|
  {
    if ns == [] {
      assert [] + tail == tail;
    } else {
      var rest := NegToks(ns[1..]) + tail;
      NegParsed(Except(e, Phrase(ns[0])), ns[1..], tail);
      PrimaryStr(ns[0], rest);
      Regroup([Not], [Str(ns[0])], NegToks(ns[1..]), tail);
      assert ([Not] + ([Str(ns[0])] + rest))[1..] == [Str(ns[0])] + rest;
      hide Primary;
    }
  }

  lemma PhraseParsed(p: seq<string>, ns: Phrases, tail: seq<Tok>)
    requires !Begins(tail, Not)
    ensures ParseNot([Str(p)] + (NegToks(ns) + tail)) == Got(ExceptFrom(Phrase(p), ns), tail)
  {
    PrimaryStr(p, NegToks(ns) + tail);
    NegParsed(Phrase(p), ns, tail);
    hide Primary, NotTail, NegToks;
  }

  lemma BarePhraseParsed(p: seq<string>, tail: seq<Tok>)
    requires !Begins(tail, Not)
    ensures ParseNot([Str(p)] + tail) == Got(Phrase(p), tail)
  {
    PrimaryStr(p, tail);
    hide Primary;
  }

  lemma {:induction false} PosAfter(e: Fts, ps: Phrases, ns: Phrases, tail: seq<Tok>)
    requires ps != [] && Stops(tail)
    ensures AndTail(e, [And] + (PosToks(ps) + (NegToks(ns) + tail))) == Got(BothFrom(e, ps, ns), tail)
    decreases |ps|
  {
    var rest := NegToks(ns) + tail;
    assert ([And] + (PosToks(ps) + rest))[1..] == PosToks(ps) + rest;
    if |ps| == 1 {
      PhraseParsed(ps[0], ns, tail);
      hide ParseNot, NegToks;
    } else {
      var after := [And] + (PosToks(ps[1..]) + rest);
      PosAfter(Both(e, Phrase(ps[0])), ps[1..], ns, tail);
      BarePhraseParsed(ps[0], after);
      Regroup([Str(ps[0])], [And], PosToks(ps[1..]), rest);
      hide ParseNot, NegToks;
    }
  }

  lemma InnerParsed(ps: Phrases, ns: Phrases, tail: seq<Tok>)
    requires ps != [] && Stops(tail)
    ensures ParseAnd(PosToks(ps) + (NegToks(ns) + tail)) == Got(InnerTree(ps, ns), tail)
  {
    var rest := NegToks(ns) + tail;
    if |ps| == 1 {
      PhraseParsed(ps[0], ns, tail);
      assert AndTail(InnerTree(ps, ns), tail) == Got(InnerTree(ps, ns), tail);
      hide ParseNot, NegToks, AndTail;
    } else {
      BarePhraseParsed(ps[0], [And] + (PosToks(ps[1..]) + rest));
      Regroup([Str(ps[0])], [And], PosToks(ps[1..]), rest);
      PosAfter(Phrase(ps[0]), ps[1..], ns, tail);
      hide ParseNot, NegToks, AndTail;
    }
  }

  lemma Bracketed(inner: seq<Tok>, e: Fts, tail: seq<Tok>)
    requires ParseAnd(inner + ([Close] + tail)) == Got(e, [Close] + tail) && Stops(tail)
    ensures ParseAnd([Open] + (inner + ([Close] + tail))) == Got(e, tail)
  {
    var t := [Open] + (inner + ([Close] + tail));
    assert t[1..] == inner + ([Close] + tail) && ([Close] + tail)[1..] == tail;
    assert OrTail(e, [Close] + tail) == Got(e, [Close] + tail);
    assert Primary(t) == Got(e, tail) by { hide ParseAnd, OrTail; }
    assert NotTail(e, tail) == Got(e, tail) && AndTail(e, tail) == Got(e, tail);
    hide Primary, NotTail, AndTail, OrTail;
  }

  lemma Assoc<T>(a: seq<T>, b: seq<T>, c: seq<T>)
    ensures (a + b) + c == a + (b + c)
  {
  }

  lemma GroupParsed(g: seq<Term>, many: bool, tail: seq<Tok>)
    requires HasPositive(g) && Stops(tail)
    ensures ParseAnd(GroupToks(g, many) + tail) == Got(GroupTree(g), tail)
  {
    SelectSome(g);
    var ps, ns := Select(g, false), Select(g, true);
    if many && |g| > 1 {
      InnerParsed(ps, ns, [Close] + tail);
      Assoc(PosToks(ps), NegToks(ns), [Close] + tail);
      Bracketed(InnerToks(g), GroupTree(g), tail);
      Enclosed([Open], InnerToks(g), [Close], tail);
    } else {
      InnerParsed(ps, ns, tail);
      Assoc(PosToks(ps), NegToks(ns), tail);
    }
    hide ParseAnd, PosToks, NegToks, InnerTree, Select, HasPositive;
  }

  lemma {:induction false} GroupsAfter(e: Fts, groups: seq<seq<Term>>, many: bool)
    requires forall i :: 0 <= i < |groups| ==> HasPositive(groups[i])
    ensures OrTail(e, if groups == [] then [] else [Or] + GroupsToks(groups, many)) == Got(EitherFrom(e, groups), [])
    decreases |groups|
  {
    if groups != [] {
      var rest: seq<Tok> := if groups[1..] == [] then [] else [Or] + GroupsToks(groups[1..], many);
      GroupsAfter(Either(e, GroupTree(groups[0])), groups[1..], many);
      GroupParsed(groups[0], many, rest);
      GroupsCut(groups, many);
      assert ([Or] + GroupsToks(groups, many))[1..] == GroupsToks(groups, many);
      hide ParseAnd, GroupsToks, GroupToks, GroupTree, HasPositive;
    }
  }

  lemma GroupsCut(groups: seq<seq<Term>>, many: bool)
    requires groups != []
    ensures GroupsToks(groups, many)
      == GroupToks(groups[0], many) + (if groups[1..] == [] then [] else [Or] + GroupsToks(groups[1..], many))
  {
    hide GroupToks;
  }

  lemma ReadsBack(groups: seq<seq<Term>>)
    requires Good(groups)
    ensures Read(ToFts5(groups)) == Got(EitherFrom(GroupTree(groups[0]), groups[1..]), [])
  {
    var many := |groups| > 1;
    GroupsLexed(groups, many, "");
    assert ToFts5(groups) + "" == ToFts5(groups);
    assert Lex("") == [] && GroupsToks(groups, many) + [] == GroupsToks(groups, many);
    GroupsCut(groups, many);
    GroupParsed(groups[0], many, if groups[1..] == [] then [] else [Or] + GroupsToks(groups[1..], many));
    GroupsAfter(GroupTree(groups[0]), groups[1..], many);
    hide Lex, ParseAnd, GroupsToks, GroupToks, GroupTree, OrTail, Join, RenderGroups, GoodGroups, HasPositive;
  }

  // ---- its meaning ----

  ghost predicate AllOf(doc: Doc, ps: Phrases) {
    forall i :: 0 <= i < |ps| ==> Contains(doc, ps[i])
  }

  ghost predicate NoneOf(doc: Doc, ns: Phrases) {
    forall i :: 0 <= i < |ns| ==> !Contains(doc, ns[i])
  }

  lemma {:induction false} ExceptHolds(e: Fts, ns: Phrases, doc: Doc)
    ensures Holds(ExceptFrom(e, ns), doc) <==> Holds(e, doc) && NoneOf(doc, ns)
    decreases |ns|
  {
    hide Contains;
    if ns != [] {
      ExceptHolds(Except(e, Phrase(ns[0])), ns[1..], doc);
      NoneCons(doc, ns);
      hide NoneOf;
    }
  }

  lemma NoneCons(doc: Doc, ns: Phrases)
    requires ns != []
    ensures NoneOf(doc, ns) <==> !Contains(doc, ns[0]) && NoneOf(doc, ns[1..])
    ensures AllOf(doc, ns) <==> Contains(doc, ns[0]) && AllOf(doc, ns[1..])
  {
    hide Contains;
    forall i | 1 <= i < |ns|
      ensures Contains(doc, ns[i]) <==> Contains(doc, ns[1..][i - 1])
    {
    }
  }

  lemma {:induction false} BothHolds(e: Fts, ps: Phrases, ns: Phrases, doc: Doc)
    requires ps != []
    ensures Holds(BothFrom(e, ps, ns), doc) <==> Holds(e, doc) && AllOf(doc, ps) && NoneOf(doc, ns)
    decreases |ps|
  {
    NoneCons(doc, ps);
    hide Contains, NoneOf;
    if |ps| == 1 {
      ExceptHolds(Phrase(ps[0]), ns, doc);
      assert Holds(BothFrom(e, ps, ns), doc) <==> Holds(e, doc) && Holds(ExceptFrom(Phrase(ps[0]), ns), doc);
    } else {
      BothHolds(Both(e, Phrase(ps[0])), ps[1..], ns, doc);
      hide AllOf;
    }
  }

  lemma InnerHolds(ps: Phrases, ns: Phrases, doc: Doc)
    requires ps != []
    ensures Holds(InnerTree(ps, ns), doc) <==> AllOf(doc, ps) && NoneOf(doc, ns)
  {
    NoneCons(doc, ps);
    hide Contains, NoneOf;
    if |ps| == 1 {
      ExceptHolds(Phrase(ps[0]), ns, doc);
    } else {
      BothHolds(Phrase(ps[0]), ps[1..], ns, doc);
      hide AllOf, BothFrom;
    }
  }

  lemma {:induction false} SelectSplits(g: seq<Term>, doc: Doc)
    ensures GroupMatches(doc, g) <==> AllOf(doc, Select(g, false)) && NoneOf(doc, Select(g, true))
    decreases |g|
  {
    if g != [] {
      SelectSplits(g[1..], doc);
      var own := [g[0].words];
      var more := Select(g[1..], g[0].negated);
      var others := Select(g[1..], !g[0].negated);
      assert (own + more)[1..] == more && [] + others == others;
      assert Select(g, g[0].negated) == own + more && Select(g, !g[0].negated) == others;
      NoneCons(doc, own + more);
      MatchesMore(doc, g);
      hide AllOf, NoneOf, GroupMatches, Contains;
    }
  }

  lemma MatchesMore(doc: Doc, g: seq<Term>)
    requires g != []
    ensures GroupMatches(doc, g) <==> TermMatches(doc, g[0]) && GroupMatches(doc, g[1..])
  {
    hide TermMatches;
    forall i | 1 <= i < |g|
      ensures TermMatches(doc, g[i]) <==> TermMatches(doc, g[1..][i - 1])
    {
    }
  }

  lemma GroupHolds(g: seq<Term>, doc: Doc)
    requires HasPositive(g)
    ensures Holds(GroupTree(g), doc) <==> GroupMatches(doc, g)
  {
    SelectSome(g);
    InnerHolds(Select(g, false), Select(g, true), doc);
    SelectSplits(g, doc);
    hide AllOf, NoneOf, GroupMatches, InnerTree, Holds, Select;
  }

  lemma {:induction false} GroupsHold(e: Fts, groups: seq<seq<Term>>, doc: Doc)
    requires forall i :: 0 <= i < |groups| ==> HasPositive(groups[i])
    ensures Holds(EitherFrom(e, groups), doc) <==> Holds(e, doc) || Matches(doc, groups)
    decreases |groups|
  {
    if groups != [] {
      var g := groups[0];
      GroupHolds(g, doc);
      GroupsHold(Either(e, GroupTree(g)), groups[1..], doc);
      MatchesCons(doc, groups);
      hide GroupTree, GroupMatches, Matches, HasPositive;
    }
  }

  /** The text, read by the engine, matches exactly the documents the query means, though
      an unparenthesised `NOT` binds tighter than the `AND` before it. */
  lemma Fts5Means(groups: seq<seq<Term>>, doc: Doc)
    requires Good(groups)
    ensures Read(ToFts5(groups)).Got? && Read(ToFts5(groups)).rest == []
    ensures Holds(Read(ToFts5(groups)).e, doc) <==> Matches(doc, groups)
  {
    ReadsBack(groups);
    GroupHolds(groups[0], doc);
    GroupsHold(GroupTree(groups[0]), groups[1..], doc);
    MatchesCons(doc, groups);
    hide Holds, Read, ToFts5, GroupTree, EitherFrom, Matches, GroupMatches, HasPositive;
  }

  /** Every accepted input means the same to both engines, and what it parses to. */
  lemma EnginesAgree(input: string, doc: Doc)
    requires Parse(input).Ok?
    ensures var groups := Parse(input).groups;
      var ts, fts := Ts.Read(Ts.ToTsquery(groups)), Read(ToFts5(groups));
      && ts.Got? && ts.rest == [] && fts.Got? && fts.rest == []
      && (Ts.Holds(ts.e, doc) <==> Matches(doc, groups)) && (Holds(fts.e, doc) <==> Matches(doc, groups))
  {
    AcceptedIsGood(input);
    Ts.TsqueryMeans(Parse(input).groups, doc);
    Fts5Means(Parse(input).groups, doc);
    hide *;
  }
}
