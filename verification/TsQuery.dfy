/** The query as PostgreSQL text-search text, and that text read back under the engine's
    own precedence: `!`, then `<->`, then `&`, then `|`, each associating to the left. */
module TsQuery {
  import opened Search
  import opened Wrappers

  // ---- rendering ----

  function RenderBody(words: seq<string>): string {
    if |words| > 1 then "(" + Join(words, " <-> ") + ")" else Join(words, " <-> ")
  }

  function RenderTerm(t: Term): string {
    if t.negated then "!" + RenderBody(t.words) else RenderBody(t.words)
  }

  function RenderTerms(g: seq<Term>): seq<string> {
    seq(|g|, i requires 0 <= i < |g| => RenderTerm(g[i]))
  }

  function RenderGroup(g: seq<Term>, many: bool): string {
    var s := Join(RenderTerms(g), " & ");
    if many && |g| > 1 then "(" + s + ")" else s
  }

  function RenderGroups(groups: seq<seq<Term>>, many: bool): seq<string> {
    seq(|groups|, i requires 0 <= i < |groups| => RenderGroup(groups[i], many))
  }

  /** `to_tsquery` */
  function ToTsquery(groups: seq<seq<Term>>): string {
    Join(RenderGroups(groups, |groups| > 1), " | ")
  }

  // ---- the engine: tokens ----

  datatype Tok = Word(w: string) | Open | Close | Not | Follow | And | Or | Other(c: char)

  function Symbol(c: char): Tok {
    match c
    case '(' => Open
    case ')' => Close
    case '!' => Not
    case '&' => And
    case '|' => Or
    case _ => Other(c)
  }

  function Lex(s: string): seq<Tok> {
    if s == "" then []
    else if s[0] == ' ' then Lex(s[1..])
    else if "<->" <= s then [Follow] + Lex(s[3..])
    else if IsWord(s[0]) then [Word(s[..WordLength(s)])] + Lex(s[WordLength(s)..])
    else [Symbol(s[0])] + Lex(s[1..])
  }

  // ---- the engine: precedence ----

  datatype Ts = Lit(w: string) | Neg(e: Ts) | Then(l: Ts, r: Ts) | Both(l: Ts, r: Ts) | Either(l: Ts, r: Ts)
  datatype Parsed = Fail | Got(e: Ts, rest: seq<Tok>)

  function ParseOr(t: seq<Tok>): (p: Parsed)
    ensures p.Got? ==> |p.rest| < |t|
    decreases |t|, 6
  {
    match ParseAnd(t)
    case Fail => Fail
    case Got(e, rest) => OrTail(e, rest)
  }

  function OrTail(e: Ts, t: seq<Tok>): (p: Parsed)
    ensures p.Got? ==> |p.rest| <= |t|
    decreases |t|, 7
  {
    if t == [] || t[0] != Or then Got(e, t)
    else
      match ParseAnd(t[1..])
      case Fail => Fail
      case Got(e2, rest) => OrTail(Either(e, e2), rest)
  }

  function ParseAnd(t: seq<Tok>): (p: Parsed)
    ensures p.Got? ==> |p.rest| < |t|
    decreases |t|, 4
  {
    match ParseFollow(t)
    case Fail => Fail
    case Got(e, rest) => AndTail(e, rest)
  }

  function AndTail(e: Ts, t: seq<Tok>): (p: Parsed)
    ensures p.Got? ==> |p.rest| <= |t|
    decreases |t|, 5
  {
    if t == [] || t[0] != And then Got(e, t)
    else
      match ParseFollow(t[1..])
      case Fail => Fail
      case Got(e2, rest) => AndTail(Both(e, e2), rest)
  }

  function ParseFollow(t: seq<Tok>): (p: Parsed)
    ensures p.Got? ==> |p.rest| < |t|
    decreases |t|, 2
  {
    match Unary(t)
    case Fail => Fail
    case Got(e, rest) => FollowTail(e, rest)
  }

  function FollowTail(e: Ts, t: seq<Tok>): (p: Parsed)
    ensures p.Got? ==> |p.rest| <= |t|
    decreases |t|, 3
  {
    if t == [] || t[0] != Follow then Got(e, t)
    else
      match Unary(t[1..])
      case Fail => Fail
      case Got(e2, rest) => FollowTail(Then(e, e2), rest)
  }

  function Unary(t: seq<Tok>): (p: Parsed)
    ensures p.Got? ==> |p.rest| < |t|
    decreases |t|, 1
  {
    if t == [] then Fail
    else
      match t[0]
      case Word(w) => Got(Lit(w), t[1..])
      case Not =>
        (match Unary(t[1..])
         case Fail => Fail
         case Got(e, rest) => Got(Neg(e), rest))
      case Open =>
        (match ParseOr(t[1..])
         case Fail => Fail
         case Got(e, rest) => if rest != [] && rest[0] == Close then Got(e, rest[1..]) else Fail)
      case _ => Fail
  }

  function Read(s: string): Parsed {
    ParseOr(Lex(s))
  }

  // ---- the engine: meaning ----

  /** A match of `e` ends at position `p`. Only words and `<->` have positions here. */
  predicate EndsAt(e: Ts, doc: Doc, p: int) {
    match e
    case Lit(w) => 0 <= p < |doc| && doc[p] == w
    case Then(l, r) => EndsAt(l, doc, p - 1) && EndsAt(r, doc, p)
    case _ => false
  }

  ghost predicate Holds(e: Ts, doc: Doc) {
    match e
    case Neg(e1) => !Holds(e1, doc)
    case Both(l, r) => Holds(l, doc) && Holds(r, doc)
    case Either(l, r) => Holds(l, doc) || Holds(r, doc)
    case _ => exists p :: EndsAt(e, doc, p)
  }

  // ---- the tokens a rendering spells ----

  /** What may follow: a word run must not go on. */
  predicate Cut(tail: string) {
    tail == "" || !IsWord(tail[0])
  }

  function PhraseToks(words: seq<string>): seq<Tok> {
    if words == [] then []
    else if |words| == 1 then [Word(words[0])]
    else [Word(words[0])] + ([Follow] + PhraseToks(words[1..]))
  }

  function BodyToks(words: seq<string>): seq<Tok> {
    if |words| > 1 then [Open] + (PhraseToks(words) + [Close]) else PhraseToks(words)
  }

  function TermToks(t: Term): seq<Tok> {
    if t.negated then [Not] + BodyToks(t.words) else BodyToks(t.words)
  }

  function TermsToks(g: seq<Term>): seq<Tok> {
    if g == [] then [] else if |g| == 1 then TermToks(g[0]) else TermToks(g[0]) + ([And] + TermsToks(g[1..]))
  }

  function GroupToks(g: seq<Term>, many: bool): seq<Tok> {
    if many && |g| > 1 then [Open] + (TermsToks(g) + [Close]) else TermsToks(g)
  }

  function GroupsToks(groups: seq<seq<Term>>, many: bool): seq<Tok> {
    if groups == [] then []
    else if |groups| == 1 then GroupToks(groups[0], many)
    else GroupToks(groups[0], many) + ([Or] + GroupsToks(groups[1..], many))
  }

  lemma {:induction false} LexWord(w: string, tail: string)
    requires GoodWord(w) && Cut(tail)
    ensures Lex(w + tail) == [Word(w)] + Lex(tail)
  {
    Run(w, tail);
    var s := w + tail;
    assert s[0] == w[0] && Plain(w[0]);
    assert "<->"[0] == '<';
    assert s[..|w|] == w && s[|w|..] == tail;
    hide WordLength;
  }

  /** A symbol, alone or with a space on either side. */
  lemma LexSymbol(c: char, tail: string)
    requires c == '(' || c == ')' || c == '!' || c == '&' || c == '|'
    ensures Lex([c] + tail) == [Symbol(c)] + Lex(tail)
    ensures Lex(([' ', c, ' ']) + tail) == [Symbol(c)] + Lex(tail)
  {
    var s := [c] + tail;
    assert s[1..] == tail && "<->"[0] == '<';
    var p, q := [' ', c, ' '] + tail, [c, ' '] + tail;
    assert p[1..] == q && q[1..] == [' '] + tail && ([' '] + tail)[1..] == tail;
    assert Lex([' '] + tail) == Lex(tail);
    assert Lex(q) == [Symbol(c)] + Lex([' '] + tail);
  }

  lemma LexFollow(tail: string)
    ensures Lex(" <-> " + tail) == [Follow] + Lex(tail)
  {
    var s, r := " <-> " + tail, "<-> " + tail;
    assert s[1..] == r && r[3..] == " " + tail && (" " + tail)[1..] == tail;
    assert "<->" <= r;
    assert Lex(" " + tail) == Lex(tail);
  }

  lemma {:induction false} PhraseLexed(words: seq<string>, tail: string)
    requires words != [] && (forall i :: 0 <= i < |words| ==> GoodWord(words[i])) && Cut(tail)
    ensures Lex(Join(words, " <-> ") + tail) == PhraseToks(words) + Lex(tail)
    decreases |words|
  {
    if |words| == 1 {
      LexWord(words[0], tail);
    } else {
      var rest := Join(words[1..], " <-> ");
      PhraseLexed(words[1..], tail);
      LexFollow(rest + tail);
      LexWord(words[0], " <-> " + (rest + tail));
      Regroup(words[0], " <-> ", rest, tail);
      assert Join(words, " <-> ") == words[0] + (" <-> " + rest);
      assert PhraseToks(words) == [Word(words[0])] + ([Follow] + PhraseToks(words[1..]));
      hide Lex, Join, GoodWord, PhraseToks;
      Regroup([Word(words[0])], [Follow], PhraseToks(words[1..]), Lex(tail));
    }
  }

  lemma BodyLexed(words: seq<string>, tail: string)
    requires words != [] && (forall i :: 0 <= i < |words| ==> GoodWord(words[i])) && Cut(tail)
    ensures Lex(RenderBody(words) + tail) == BodyToks(words) + Lex(tail)
  {
    if |words| > 1 {
      var joined := Join(words, " <-> ");
      PhraseLexed(words, ")" + tail);
      LexSymbol(')', tail);
      LexSymbol('(', joined + (")" + tail));
      hide Lex, Join, PhraseToks, GoodWord;
      Enclosed("(", joined, ")", tail);
      Enclosed([Open], PhraseToks(words), [Close], Lex(tail));
    } else {
      PhraseLexed(words, tail);
    }
  }

  lemma TermLexed(t: Term, tail: string)
    requires GoodTerm(t) && Cut(tail)
    ensures Lex(RenderTerm(t) + tail) == TermToks(t) + Lex(tail)
  {
    BodyLexed(t.words, tail);
    hide Lex, RenderBody, BodyToks, GoodTerm;
    if t.negated {
      var body := RenderBody(t.words);
      LexSymbol('!', body + tail);
      assert ("!" + body) + tail == "!" + (body + tail);
    }
  }

  lemma {:induction false} TermsLexed(g: seq<Term>, tail: string)
    requires g != [] && GoodGroup(g) && Cut(tail)
    ensures Lex(Join(RenderTerms(g), " & ") + tail) == TermsToks(g) + Lex(tail)
    decreases |g|
  {
    assert GoodTerm(g[0]);
    if |g| == 1 {
      TermLexed(g[0], tail);
    } else {
      var rest := Join(RenderTerms(g[1..]), " & ");
      TermsLexed(g[1..], tail);
      LexSymbol('&', rest + tail);
      TermLexed(g[0], " & " + (rest + tail));
      assert RenderTerms(g)[1..] == RenderTerms(g[1..]) by { hide RenderTerm; }
      Regroup(RenderTerm(g[0]), " & ", rest, tail);
      Regroup(TermToks(g[0]), [And], TermsToks(g[1..]), Lex(tail));
      hide Lex, RenderTerm, TermToks, GoodTerm;
    }
  }

  lemma GroupLexed(g: seq<Term>, many: bool, tail: string)
    requires g != [] && GoodGroup(g) && Cut(tail)
    ensures Lex(RenderGroup(g, many) + tail) == GroupToks(g, many) + Lex(tail)
  {
    if many && |g| > 1 {
      var s := Join(RenderTerms(g), " & ");
      TermsLexed(g, ")" + tail);
      LexSymbol(')', tail);
      LexSymbol('(', s + (")" + tail));
      Enclosed("(", s, ")", tail);
      Enclosed([Open], TermsToks(g), [Close], Lex(tail));
    } else {
      TermsLexed(g, tail);
    }
    hide Lex, Join, RenderTerms, TermsToks, GoodGroup;
  }

  lemma {:induction false} GroupsLexed(groups: seq<seq<Term>>, many: bool, tail: string)
    requires groups != [] && GoodGroups(groups) && (forall i :: 0 <= i < |groups| ==> groups[i] != []) && Cut(tail)
    ensures Lex(Join(RenderGroups(groups, many), " | ") + tail) == GroupsToks(groups, many) + Lex(tail)
    decreases |groups|
  {
    assert GoodGroup(groups[0]);
    if |groups| == 1 {
      GroupLexed(groups[0], many, tail);
    } else {
      var rest := Join(RenderGroups(groups[1..], many), " | ");
      GroupsLexed(groups[1..], many, tail);
      LexSymbol('|', rest + tail);
      GroupLexed(groups[0], many, " | " + (rest + tail));
      assert RenderGroups(groups, many)[1..] == RenderGroups(groups[1..], many) by { hide RenderGroup; }
      Regroup(RenderGroup(groups[0], many), " | ", rest, tail);
      Regroup(GroupToks(groups[0], many), [Or], GroupsToks(groups[1..], many), Lex(tail));
      hide Lex, RenderGroup, GroupToks, GoodGroup;
    }
  }

  // ---- the tree those tokens parse to ----

  function ThenFrom(e: Ts, words: seq<string>): Ts
    decreases |words|
  {
    if words == [] then e else ThenFrom(Then(e, Lit(words[0])), words[1..])
  }

  function PhraseTree(words: seq<string>): Ts
    requires words != []
  {
    ThenFrom(Lit(words[0]), words[1..])
  }

  function TermTree(t: Term): Ts
    requires t.words != []
  {
    if t.negated then Neg(PhraseTree(t.words)) else PhraseTree(t.words)
  }

  function BothFrom(e: Ts, g: seq<Term>): Ts
    requires forall i :: 0 <= i < |g| ==> g[i].words != []
    decreases |g|
  {
    if g == [] then e else BothFrom(Both(e, TermTree(g[0])), g[1..])
  }

  function GroupTree(g: seq<Term>): Ts
    requires g != [] && forall i :: 0 <= i < |g| ==> g[i].words != []
  {
    BothFrom(TermTree(g[0]), g[1..])
  }

  ghost predicate Solid(groups: seq<seq<Term>>) {
    forall i :: 0 <= i < |groups| ==> groups[i] != [] && forall j :: 0 <= j < |groups[i]| ==> groups[i][j].words != []
  }

  ghost function EitherFrom(e: Ts, groups: seq<seq<Term>>): Ts
    requires Solid(groups)
    decreases |groups|
  {
    if groups == [] then e else EitherFrom(Either(e, GroupTree(groups[0])), groups[1..])
  }

  ghost function QueryTree(groups: seq<seq<Term>>): Ts
    requires groups != [] && Solid(groups)
  {
    EitherFrom(GroupTree(groups[0]), groups[1..])
  }

  predicate Begins(t: seq<Tok>, k: Tok) {
    t != [] && t[0] == k
  }

  lemma UnaryWord(w: string, tail: seq<Tok>)
    ensures Unary([Word(w)] + tail) == Got(Lit(w), tail)
  {
    assert ([Word(w)] + tail)[1..] == tail;
  }

  lemma {:induction false} WordsParsed(e: Ts, words: seq<string>, tail: seq<Tok>)
    requires !Begins(tail, Follow)
    ensures words == [] ==> FollowTail(e, tail) == Got(e, tail)
    ensures words != [] ==> FollowTail(e, [Follow] + (PhraseToks(words) + tail)) == Got(ThenFrom(e, words), tail)
    decreases |words|
  {
    if words != [] {
      var w, more := words[0], words[1..];
      var after := if more == [] then tail else [Follow] + (PhraseToks(more) + tail);
      WordsParsed(Then(e, Lit(w)), more, tail);
      UnaryWord(w, after);
      PhraseCut(words, tail);
      assert ([Follow] + (PhraseToks(words) + tail))[1..] == PhraseToks(words) + tail;
      hide Unary, PhraseToks;
    }
  }

  lemma PhraseCut(words: seq<string>, tail: seq<Tok>)
    requires words != []
    ensures PhraseToks(words) + tail
      == [Word(words[0])] + (if words[1..] == [] then tail else [Follow] + (PhraseToks(words[1..]) + tail))
  {
    if |words| > 1 {
      Regroup([Word(words[0])], [Follow], PhraseToks(words[1..]), tail);
    }
  }

  lemma PhraseParsed(words: seq<string>, tail: seq<Tok>)
    requires words != [] && !Begins(tail, Follow)
    ensures ParseFollow(PhraseToks(words) + tail) == Got(PhraseTree(words), tail)
  {
    PhraseCut(words, tail);
    UnaryWord(words[0], if words[1..] == [] then tail else [Follow] + (PhraseToks(words[1..]) + tail));
    WordsParsed(Lit(words[0]), words[1..], tail);
    hide Unary, FollowTail, PhraseToks;
  }

  /** In parentheses, up to the closing one. */
  lemma Bracketed(inner: seq<Tok>, e: Ts, tail: seq<Tok>)
    requires ParseOr(inner + ([Close] + tail)) == Got(e, [Close] + tail)
    ensures Unary([Open] + (inner + ([Close] + tail))) == Got(e, tail)
  {
    assert ([Open] + (inner + ([Close] + tail)))[1..] == inner + ([Close] + tail);
    assert ([Close] + tail)[1..] == tail;
    hide ParseOr;
  }

  /** A phrase, up to the closing parenthesis. */
  lemma PhraseToClose(words: seq<string>, tail: seq<Tok>)
    requires words != []
    ensures ParseOr(PhraseToks(words) + ([Close] + tail)) == Got(PhraseTree(words), [Close] + tail)
  {
    var e, rest := PhraseTree(words), [Close] + tail;
    PhraseParsed(words, rest);
    assert AndTail(e, rest) == Got(e, rest) && OrTail(e, rest) == Got(e, rest);
    hide ParseFollow, AndTail, OrTail, PhraseTree, PhraseToks;
  }

  lemma BodyParsed(t: Term, tail: seq<Tok>)
    requires t.words != []
    ensures Unary(BodyToks(t.words) + tail) == Got(PhraseTree(t.words), tail)
  {
    if |t.words| > 1 {
      PhraseToClose(t.words, tail);
      Bracketed(PhraseToks(t.words), PhraseTree(t.words), tail);
      Enclosed([Open], PhraseToks(t.words), [Close], tail);
      hide Unary, PhraseToks, PhraseTree;
    } else {
      UnaryWord(t.words[0], tail);
      assert PhraseToks(t.words) == [Word(t.words[0])];
      assert t.words[1..] == [];
    }
  }

  lemma TermParsed(t: Term, tail: seq<Tok>)
    requires t.words != [] && !Begins(tail, Follow)
    ensures ParseFollow(TermToks(t) + tail) == Got(TermTree(t), tail)
  {
    BodyParsed(t, tail);
    var s := BodyToks(t.words) + tail;
    hide PhraseTree, PhraseToks;
    if t.negated {
      assert TermToks(t) + tail == [Not] + s by { Regroup([], [Not], BodyToks(t.words), tail); }
      assert ([Not] + s)[1..] == s;
      assert Unary([Not] + s) == Got(Neg(PhraseTree(t.words)), tail);
    }
    assert FollowTail(TermTree(t), tail) == Got(TermTree(t), tail);
    hide Unary;
  }

  lemma {:induction false} TermsAfter(e: Ts, g: seq<Term>, tail: seq<Tok>)
    requires (forall i :: 0 <= i < |g| ==> g[i].words != []) && !Begins(tail, Follow) && !Begins(tail, And)
    ensures g == [] ==> AndTail(e, tail) == Got(e, tail)
    ensures g != [] ==> AndTail(e, [And] + (TermsToks(g) + tail)) == Got(BothFrom(e, g), tail)
    decreases |g|
  {
    if g != [] {
      var after := if g[1..] == [] then tail else [And] + (TermsToks(g[1..]) + tail);
      TermsAfter(Both(e, TermTree(g[0])), g[1..], tail);
      TermParsed(g[0], after);
      TermsCut(g, tail);
      assert ([And] + (TermsToks(g) + tail))[1..] == TermsToks(g) + tail;
      hide ParseFollow, TermsToks, TermToks, TermTree;
    }
  }

  lemma TermsCut(g: seq<Term>, tail: seq<Tok>)
    requires g != []
    ensures TermsToks(g) + tail == TermToks(g[0]) + (if g[1..] == [] then tail else [And] + (TermsToks(g[1..]) + tail))
  {
    if |g| > 1 {
      Regroup(TermToks(g[0]), [And], TermsToks(g[1..]), tail);
    }
    hide TermToks;
  }

  lemma TermsParsed(g: seq<Term>, tail: seq<Tok>)
    requires g != [] && (forall i :: 0 <= i < |g| ==> g[i].words != []) && !Begins(tail, Follow) && !Begins(tail, And)
    ensures ParseAnd(TermsToks(g) + tail) == Got(GroupTree(g), tail)
  {
    TermsCut(g, tail);
    TermParsed(g[0], if g[1..] == [] then tail else [And] + (TermsToks(g[1..]) + tail));
    TermsAfter(TermTree(g[0]), g[1..], tail);
    hide ParseFollow, TermsToks, TermToks, AndTail, TermTree, BothFrom;
  }

  lemma GroupParsed(g: seq<Term>, many: bool, tail: seq<Tok>)
    requires g != [] && (forall i :: 0 <= i < |g| ==> g[i].words != []) && !Begins(tail, Follow) && !Begins(tail, And)
    ensures ParseAnd(GroupToks(g, many) + tail) == Got(GroupTree(g), tail)
  {
    if many && |g| > 1 {
      TermsParsed(g, [Close] + tail);
      assert ParseOr(TermsToks(g) + ([Close] + tail)) == Got(GroupTree(g), [Close] + tail) by {
        hide ParseAnd, TermsToks, GroupTree;
      }
      Bracketed(TermsToks(g), GroupTree(g), tail);
      Enclosed([Open], TermsToks(g), [Close], tail);
      assert FollowTail(GroupTree(g), tail) == Got(GroupTree(g), tail)
        && AndTail(GroupTree(g), tail) == Got(GroupTree(g), tail);
      hide Unary, TermsToks, GroupTree, FollowTail, AndTail;
      assert ParseFollow(GroupToks(g, many) + tail) == Got(GroupTree(g), tail);
    } else {
      TermsParsed(g, tail);
    }
  }

  lemma {:induction false} GroupsAfter(e: Ts, groups: seq<seq<Term>>, many: bool)
    requires Solid(groups)
    ensures OrTail(e, if groups == [] then [] else [Or] + GroupsToks(groups, many)) == Got(EitherFrom(e, groups), [])
    decreases |groups|
  {
    if groups != [] {
      var rest: seq<Tok> := if groups[1..] == [] then [] else [Or] + GroupsToks(groups[1..], many);
      GroupsAfter(Either(e, GroupTree(groups[0])), groups[1..], many);
      GroupParsed(groups[0], many, rest);
      GroupsCut(groups, many);
      assert ([Or] + GroupsToks(groups, many))[1..] == GroupsToks(groups, many);
      hide ParseAnd, GroupsToks, GroupToks, GroupTree;
    }
  }

  lemma GroupsCut(groups: seq<seq<Term>>, many: bool)
    requires groups != []
    ensures GroupsToks(groups, many)
      == GroupToks(groups[0], many) + (if groups[1..] == [] then [] else [Or] + GroupsToks(groups[1..], many))
  {
    hide GroupToks;
  }

  /** The whole query, read back. */
  lemma ReadsBack(groups: seq<seq<Term>>)
    requires Good(groups)
    ensures Solid(groups) && Read(ToTsquery(groups)) == Got(QueryTree(groups), [])
  {
    GoodSolid(groups);
    var many := |groups| > 1;
    GroupsLexed(groups, many, "");
    assert ToTsquery(groups) + "" == ToTsquery(groups);
    assert Lex("") == [] && GroupsToks(groups, many) + [] == GroupsToks(groups, many);
    GroupsCut(groups, many);
    GroupParsed(groups[0], many, if groups[1..] == [] then [] else [Or] + GroupsToks(groups[1..], many));
    GroupsAfter(GroupTree(groups[0]), groups[1..], many);
    hide Lex, ParseAnd, GroupsToks, GroupToks, GroupTree, OrTail, Join, RenderGroups, Good, Solid;
  }

  lemma GoodSolid(groups: seq<seq<Term>>)
    requires Good(groups)
    ensures Solid(groups) && GoodGroups(groups) && forall i :: 0 <= i < |groups| ==> groups[i] != []
  {
    forall i | 0 <= i < |groups|
      ensures groups[i] != [] && forall j :: 0 <= j < |groups[i]| ==> groups[i][j].words != []
    {
      assert HasPositive(groups[i]) && GoodGroup(groups[i]);
    }
  }

  // ---- its meaning ----

  /** Words chained by `<->` end at `p` exactly where they stand in a row up to `p`. */
  lemma {:induction false} ChainEnds(e: Ts, words: seq<string>, doc: Doc, p: int)
    ensures EndsAt(ThenFrom(e, words), doc, p) <==>
      EndsAt(e, doc, p - |words|) && forall k :: 0 <= k < |words| ==> InRow(doc, words, p, k)
    decreases |words|
  {
    if words != [] {
      var w, more := words[0], words[1..];
      ChainEnds(Then(e, Lit(w)), more, doc, p);
      forall k | 1 <= k < |words|
        ensures InRow(doc, words, p, k) <==> InRow(doc, more, p, k - 1)
      {
      }
      hide ThenFrom;
      assert InRow(doc, words, p, 0) <==> EndsAt(Lit(w), doc, p - |more|);
      assert EndsAt(Then(e, Lit(w)), doc, p - |more|) <==> EndsAt(e, doc, p - |words|) && InRow(doc, words, p, 0);
      RowShift(doc, words, p);
      hide InRow, EndsAt;
    }
  }

  /** The `k`-th word stands where the phrase ending at `p` has it. */
  predicate InRow(doc: Doc, words: seq<string>, p: int, k: int)
    requires 0 <= k < |words|
  {
    var i := p - |words| + 1 + k;
    0 <= i < |doc| && doc[i] == words[k]
  }

  lemma RowShift(doc: Doc, words: seq<string>, p: int)
    requires words != []
    ensures (forall k :: 0 <= k < |words| ==> InRow(doc, words, p, k)) <==>
      InRow(doc, words, p, 0) && forall k :: 0 <= k < |words| - 1 ==> InRow(doc, words[1..], p, k)
  {
    forall k | 0 <= k < |words| - 1
      ensures InRow(doc, words[1..], p, k) <==> InRow(doc, words, p, k + 1)
    {
    }
    hide InRow;
    if forall k :: 0 <= k < |words| - 1 ==> InRow(doc, words[1..], p, k) {
      forall k | 1 <= k < |words|
        ensures InRow(doc, words, p, k)
      {
        assert InRow(doc, words[1..], p, k - 1);
      }
    }
  }

  lemma PhraseHolds(words: seq<string>, doc: Doc)
    requires words != []
    ensures Holds(PhraseTree(words), doc) <==> Contains(doc, words)
  {
    var e := PhraseTree(words);
    ThenShape(Lit(words[0]), words[1..]);
    forall p: int
      ensures EndsAt(e, doc, p) <==> p - |words| + 1 >= 0 && PhraseAt(doc, words, p - |words| + 1)
    {
      ChainEnds(Lit(words[0]), words[1..], doc, p);
      RowIsSlice(words, doc, p);
      hide ThenFrom;
    }
    hide PhraseTree, EndsAt, PhraseAt;
    if Contains(doc, words) {
      var i: nat :| PhraseAt(doc, words, i);
      assert EndsAt(e, doc, i + |words| - 1);
    }
  }

  lemma {:induction false} ThenShape(e: Ts, words: seq<string>)
    requires e.Lit? || e.Then?
    ensures ThenFrom(e, words).Lit? || ThenFrom(e, words).Then?
    decreases |words|
  {
    if words != [] { ThenShape(Then(e, Lit(words[0])), words[1..]); }
  }

  lemma RowIsSlice(words: seq<string>, doc: Doc, p: int)
    requires words != []
    ensures (EndsAt(Lit(words[0]), doc, p - |words[1..]|) && forall k :: 0 <= k < |words[1..]| ==>
      InRow(doc, words[1..], p, k))
      <==> p - |words| + 1 >= 0 && PhraseAt(doc, words, p - |words| + 1)
  {
    assert EndsAt(Lit(words[0]), doc, p - |words[1..]|) <==> InRow(doc, words, p, 0);
    RowShift(doc, words, p);
    var i := p - |words| + 1;
    if i >= 0 && PhraseAt(doc, words, i) {
      forall k | 0 <= k < |words|
        ensures InRow(doc, words, p, k)
      {
        assert doc[i..i + |words|][k] == words[k];
      }
    }
    if forall k :: 0 <= k < |words| ==> InRow(doc, words, p, k) {
      assert InRow(doc, words, p, 0) && InRow(doc, words, p, |words| - 1);
      forall k | 0 <= k < |words|
        ensures doc[i..i + |words|][k] == words[k]
      {
        assert InRow(doc, words, p, k);
      }
      assert doc[i..i + |words|] == words;
    }
  }

  lemma TermHolds(t: Term, doc: Doc)
    requires t.words != []
    ensures Holds(TermTree(t), doc) <==> TermMatches(doc, t)
  {
    PhraseHolds(t.words, doc);
    hide PhraseTree, Contains;
  }

  lemma {:induction false} GroupHolds(e: Ts, g: seq<Term>, doc: Doc)
    requires forall i :: 0 <= i < |g| ==> g[i].words != []
    ensures Holds(BothFrom(e, g), doc) <==> Holds(e, doc) && GroupMatches(doc, g)
    decreases |g|
  {
    if g != [] {
      TermHolds(g[0], doc);
      GroupHolds(Both(e, TermTree(g[0])), g[1..], doc);
      assert Holds(Both(e, TermTree(g[0])), doc) <==> Holds(e, doc) && Holds(TermTree(g[0]), doc);
      hide Holds, TermTree, TermMatches;
      if GroupMatches(doc, g[1..]) && TermMatches(doc, g[0]) {
        forall i | 0 <= i < |g|
          ensures TermMatches(doc, g[i])
        {
          if i > 0 { assert TermMatches(doc, g[1..][i - 1]); }
        }
      }
    }
  }

  lemma {:induction false} GroupsHold(e: Ts, groups: seq<seq<Term>>, doc: Doc)
    requires Solid(groups)
    ensures Holds(EitherFrom(e, groups), doc) <==> Holds(e, doc) || Matches(doc, groups)
    decreases |groups|
  {
    if groups != [] {
      var g := groups[0];
      WholeGroup(g, doc);
      GroupsHold(Either(e, GroupTree(g)), groups[1..], doc);
      assert Holds(Either(e, GroupTree(g)), doc) <==> Holds(e, doc) || Holds(GroupTree(g), doc);
      MatchesCons(doc, groups);
      hide Holds, GroupTree, GroupMatches, Matches;
    }
  }

  lemma WholeGroup(g: seq<Term>, doc: Doc)
    requires g != [] && forall i :: 0 <= i < |g| ==> g[i].words != []
    ensures Holds(GroupTree(g), doc) <==> GroupMatches(doc, g)
  {
    TermHolds(g[0], doc);
    GroupHolds(TermTree(g[0]), g[1..], doc);
    hide Holds, TermTree, TermMatches;
    if GroupMatches(doc, g[1..]) && TermMatches(doc, g[0]) {
      forall i | 0 <= i < |g|
        ensures TermMatches(doc, g[i])
      {
        if i > 0 { assert TermMatches(doc, g[1..][i - 1]); }
      }
    }
  }

  /** The text, read by the engine, matches exactly the documents the query means. */
  lemma TsqueryMeans(groups: seq<seq<Term>>, doc: Doc)
    requires Good(groups)
    ensures Read(ToTsquery(groups)).Got? && Read(ToTsquery(groups)).rest == []
    ensures Holds(Read(ToTsquery(groups)).e, doc) <==> Matches(doc, groups)
  {
    ReadsBack(groups);
    WholeGroup(groups[0], doc);
    GroupsHold(GroupTree(groups[0]), groups[1..], doc);
    MatchesCons(doc, groups);
    hide Holds, Read, ToTsquery, GroupTree, EitherFrom, Matches, GroupMatches;
  }
}
