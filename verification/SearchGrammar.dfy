/** The search grammar item by item: what every input is made of, and what it is parsed to. */
module SearchGrammar {
  import opened Search
  import opened Wrappers

  /** `OR`, a token up to the next white space, or a phrase up to the next quote or, left
      open, to the end. */
  datatype Raw = Alt | Bare(negated: bool, text: string) | Quoted(negated: bool, text: string, closed: bool)

  /** An item and the white space behind it. */
  datatype Item = Item(raw: Raw, gap: string)

  // ---- words ----

  /** The words of a text are cut at every character that is no ASCII letter, digit or
      underscore. */
  lemma {:induction false} WordsCut(a: string, c: char, b: string, cur: string)
    requires !('a' <= c <= 'z') && !('A' <= c <= 'Z') && !('0' <= c <= '9') && c != '_'
    ensures Words(a + [c] + b, cur) == Words(a, cur) + Words(b, "")
    decreases |a|
  {
    var s := a + [c] + b;
    if a == "" {
      assert s[0] == c && s[1..] == b;
    } else {
      assert s[0] == a[0] && s[1..] == a[1..] + [c] + b;
      if IsWord(a[0]) {
        WordsCut(a[1..], c, b, cur + [Lower(a[0])]);
      } else {
        WordsCut(a[1..], c, b, "");
        assert Flush(cur) + (Words(a[1..], "") + Words(b, "")) == Flush(cur) + Words(a[1..], "") + Words(b, "");
      }
    }
  }

  /** A text of nothing but these is one word, its ASCII letters in lower case. */
  lemma {:induction false} OneWord(s: string, cur: string)
    requires s != ""
    requires forall i :: 0 <= i < |s| ==> 'a' <= s[i] <= 'z' || 'A' <= s[i] <= 'Z' || '0' <= s[i] <= '9' || s[i] == '_'
    ensures Words(s, cur) != [] && Words(s, cur) == [Words(s, cur)[0]]
    ensures var w := Words(s, cur)[0];
      && |w| == |cur| + |s| && w[..|cur|] == cur
      && forall i :: 0 <= i < |s| ==>
           w[|cur| + i] as int == if 'A' <= s[i] <= 'Z' then s[i] as int + 32 else s[i] as int
    decreases |s|
  {
    var more := cur + [Lower(s[0])];
    if |s| == 1 {
      assert s[1..] == "";
      assert Words(s, cur) == [more];
    } else {
      OneWord(s[1..], more);
      var w := Words(s, cur)[0];
      assert w[|cur|] == w[..|more|][|cur|] == more[|cur|];
      assert w[..|cur|] == w[..|more|][..|cur|] == cur;
      forall i | 0 <= i < |s|
        ensures w[|cur| + i] as int == if 'A' <= s[i] <= 'Z' then s[i] as int + 32 else s[i] as int
      {
        if i > 0 {
          assert s[1..][i - 1] == s[i] && w[|more| + (i - 1)] == w[|cur| + i];
        }
      }
    }
  }

  /** So the words of a text, one cut or one word at a time. */
  lemma WordsByLaw(a: string, c: char, b: string)
    ensures WordsOf("") == []
    ensures !('a' <= c <= 'z') && !('A' <= c <= 'Z') && !('0' <= c <= '9') && c != '_' ==>
      WordsOf(a + [c] + b) == WordsOf(a) + WordsOf(b)
    ensures a != "" && (forall i :: 0 <= i < |a| ==>
        'a' <= a[i] <= 'z' || 'A' <= a[i] <= 'Z' || '0' <= a[i] <= '9' || a[i] == '_') ==>
      |WordsOf(a)| == 1 && |WordsOf(a)[0]| == |a| && forall i :: 0 <= i < |a| ==>
        WordsOf(a)[0][i] as int == if 'A' <= a[i] <= 'Z' then a[i] as int + 32 else a[i] as int
  {
    if !('a' <= c <= 'z') && !('A' <= c <= 'Z') && !('0' <= c <= '9') && c != '_' {
      WordsCut(a, c, b, "");
    }
    if a != "" && forall i :: 0 <= i < |a| ==>
      'a' <= a[i] <= 'z' || 'A' <= a[i] <= 'Z' || '0' <= a[i] <= '9' || a[i] == '_' {
      OneWord(a, "");
      hide Words;
      var w := WordsOf(a)[0];
      assert forall i :: 0 <= i < |a| ==> w[i] == w[|""| + i];
    }
  }

  // ---- items ----

  function RawText(r: Raw): (t: string)
    requires r.Bare? && !r.negated ==> r.text != ""
    ensures t != ""
  {
    match r
    case Alt => "OR"
    case Bare(negated, text) => (if negated then "-" else "") + text
    case Quoted(negated, text, closed) => (if negated then "-" else "") + PhraseText(text, closed)
  }

  function PhraseText(text: string, closed: bool): string {
    "\"" + (text + (if closed then "\"" else ""))
  }

  const WHITE: set<char> := {' ', '\t', '\n', '\r', '\U{B}', '\U{C}'}

  predicate Spaces(s: string) {
    forall i :: 0 <= i < |s| ==> s[i] in WHITE
  }

  predicate NoSpace(s: string) {
    forall i :: 0 <= i < |s| ==> s[i] !in WHITE
  }

  /** White space stands between items, though none need follow a closing quote, and none
      follows the last; `OR` has a blank right behind it, or nothing; a token is not that,
      starts with neither a quote nor, unless negated, a dash; only the last phrase may be
      left open. */
  ghost predicate ItemOk(it: Item, last: bool) {
    && Spaces(it.gap) && (last ==> it.gap == "")
    && (!last ==> it.gap != "" || (it.raw.Quoted? && it.raw.closed))
    && match it.raw
       case Alt => last || it.gap[0] == ' '
       case Bare(negated, text) =>
         && NoSpace(text) && (text != "" ==> text[0] != '"')
         && (!negated ==> text != "" && text[0] != '-' && (text == "OR" ==> !last && it.gap[0] != ' '))
       case Quoted(_, text, closed) => '"' !in text && (!closed ==> last && (text != "" ==> !IsSpace(text[|text| - 1])))
  }

  ghost predicate ItemsOk(items: seq<Item>) {
    forall i :: 0 <= i < |items| ==> ItemOk(items[i], i == |items| - 1)
  }

  lemma TailOk(items: seq<Item>)
    requires ItemsOk(items) && items != []
    ensures ItemsOk(items[1..]) && ItemOk(items[0], |items| == 1)
  {
    hide ItemOk;
    var rest := items[1..];
    forall i | 0 <= i < |rest|
      ensures ItemOk(rest[i], i == |rest| - 1)
    {
      assert rest[i] == items[i + 1];
    }
  }

  /** The items written down. */
  function Written(items: seq<Item>): string
    requires ItemsOk(items)
  {
    if items == [] then ""
    else
      TailOk(items);
      RawText(items[0].raw) + (items[0].gap + Written(items[1..]))
  }

  /** No item starts or ends with white space. */
  lemma WrittenHead(items: seq<Item>)
    requires ItemsOk(items)
    ensures Written(items) == "" <==> items == []
    ensures items != [] ==> !IsSpace(Written(items)[0])
  {
    if items != [] {
      TailOk(items);
      assert ItemOk(items[0], |items| == 1);
      assert Written(items)[0] == RawText(items[0].raw)[0];
    }
  }

  lemma {:induction false} WrittenEnd(items: seq<Item>)
    requires ItemsOk(items) && items != []
    ensures Written(items) != "" && !IsSpace(Written(items)[|Written(items)| - 1])
    decreases |items|
  {
    TailOk(items);
    var t, gap, rest := RawText(items[0].raw), items[0].gap, Written(items[1..]);
    assert Written(items) == t + (gap + rest);
    if |items| == 1 {
      assert rest == "" && gap == "";
      LastCharacter(items[0]);
    } else {
      hide *;
      WrittenEnd(items[1..]);
    }
    hide *;
    LastOf(t, gap, rest);
  }

  lemma LastOf(t: string, gap: string, rest: string)
    requires rest != "" || (gap == "" && t != "")
    ensures var s := t + (gap + rest);
      s != "" && s[|s| - 1] == if rest != "" then rest[|rest| - 1] else t[|t| - 1]
  {
  }

  lemma LastCharacter(it: Item)
    requires ItemOk(it, true)
    ensures RawText(it.raw) != "" && !IsSpace(RawText(it.raw)[|RawText(it.raw)| - 1])
  {
  }

  // ---- white space ----

  lemma {:induction false} SkipGap(gap: string, tail: string)
    requires Spaces(gap) && (tail != "" ==> !IsSpace(tail[0]))
    ensures TrimStart(gap + tail) == tail
    decreases |gap|
  {
    if gap == "" {
      assert gap + tail == tail;
    } else {
      assert (gap + tail)[1..] == gap[1..] + tail;
      SkipGap(gap[1..], tail);
    }
  }

  lemma {:induction false} DropGap(head: string, gap: string)
    requires Spaces(gap) && (head != "" ==> !IsSpace(head[|head| - 1]))
    ensures TrimEnd(head + gap) == head
    decreases |gap|
  {
    if gap == "" {
      assert head + gap == head;
    } else {
      var s := head + gap;
      assert s[..|s| - 1] == head + gap[..|gap| - 1] && s[|s| - 1] == gap[|gap| - 1];
      DropGap(head, gap[..|gap| - 1]);
    }
  }

  // ---- one item is one turn of the loop ----

  lemma {:induction false} TokenEnds(t: string, tail: string)
    requires NoSpace(t) && (tail != "" ==> IsSpace(tail[0]))
    ensures UntilSpace(t + tail) == |t|
    decreases |t|
  {
    if t == "" {
      assert t + tail == tail;
    } else {
      assert (t + tail)[1..] == t[1..] + tail;
      TokenEnds(t[1..], tail);
    }
  }

  lemma {:induction false} PhraseEnds(t: string, tail: string)
    requires '"' !in t && (tail != "" ==> tail[0] == '"')
    ensures UntilQuote(t + tail) == |t|
    decreases |t|
  {
    if t == "" {
      assert t + tail == tail;
    } else {
      assert (t + tail)[1..] == t[1..] + tail;
      PhraseEnds(t[1..], tail);
    }
  }

  lemma TakeToken(t: string, gap: string, tail: string)
    requires NoSpace(t) && (t != "" ==> t[0] != '"') && Spaces(gap) && (tail != "" ==> gap != "" && !IsSpace(tail[0]))
    ensures TakeTerm(t + (gap + tail)) == (WordsOf(t), tail)
  {
    var after := gap + tail;
    TokenEnds(t, after);
    SkipGap(gap, tail);
    Cut(t, after);
    assert t == "" && after != "" ==> after[0] == gap[0] && gap[0] != '"';
    hide Words, TrimStart, UntilSpace, UntilQuote;
  }

  lemma Cut(a: string, b: string)
    ensures (a + b)[..|a|] == a && (a + b)[|a|..] == b && (a == "" ==> a + b == b) && (a != "" ==> (a + b)[0] == a[0])
  {
  }

  lemma PhraseSplit(text: string, close: string, after: string)
    ensures var s := ("\"" + (text + close)) + after;
      s != "" && s[0] == '"' && s[1..] == text + (close + after)
  {
  }

  lemma TakePhrase(t: string, closed: bool, gap: string, tail: string)
    requires '"' !in t && Spaces(gap) && (tail != "" ==> !IsSpace(tail[0])) && (!closed ==> gap == tail == "")
    ensures TakeTerm(PhraseText(t, closed) + (gap + tail)) == (WordsOf(t), tail)
  {
    var close, after := if closed then "\"" else "", gap + tail;
    PhraseSplit(t, close, after);
    SkipGap(gap, tail);
    hide Words, TrimStart, UntilSpace, UntilQuote, Spaces;
    PhraseEnds(t, close + after);
    Cut(t, close + after);
    assert closed ==> (t + (close + after))[|t| + 1..] == after;
    assert !closed ==> t + (close + after) == t;
  }

  /** What an item says: the words of its text. */
  function Said(r: Raw): seq<Term> {
    if r.Alt? || WordsOf(r.text) == [] then [] else [Term(r.negated, WordsOf(r.text))]
  }

  lemma AltTurn(groups: seq<seq<Term>>, gap: string, tail: string)
    requires groups != [] && Spaces(gap) && (tail == "" ==> gap == "")
      && (tail != "" ==> gap != "" && gap[0] == ' ' && !IsSpace(tail[0]))
    ensures Step(groups, "OR" + (gap + tail)) == State(NewGroup(groups), tail)
  {
    var rest := "OR" + (gap + tail);
    if tail == "" {
      assert rest == "OR" && !("OR " <= rest);
    } else {
      assert rest[..3] == "OR " && rest[3..] == gap[1..] + tail;
      assert "OR " <= rest;
      SkipGap(gap[1..], tail);
    }
    hide TrimStart;
  }

  lemma NotAlt(t: string, gap: string, tail: string)
    requires NoSpace(t) && t != "" && Spaces(gap) && (tail != "" ==> gap != "")
    requires t == "OR" ==> gap != "" && gap[0] != ' '
    ensures !AtOr(t + (gap + tail))
  {
    var s := t + (gap + tail);
    AtOrIs(s);
    if |t| == 1 {
      assert |s| > 1 ==> s[1] == (gap + tail)[0] == gap[0];
    } else if |t| == 2 {
      assert s[0] == t[0] && s[1] == t[1];
      assert t[0] == 'O' && t[1] == 'R' ==> t == "OR";
      assert |s| > 2 ==> s[2] == (gap + tail)[0] == gap[0];
    } else {
      assert s[2] == t[2];
    }
  }

  lemma AtOrIs(s: string)
    ensures AtOr(s) <==> |s| >= 2 && s[0] == 'O' && s[1] == 'R' && (|s| > 2 ==> s[2] == ' ')
  {
    if |s| == 2 && s[0] == 'O' && s[1] == 'R' {
      assert s == "OR";
    } else if |s| > 2 && s[0] == 'O' && s[1] == 'R' && s[2] == ' ' {
      assert s[..3] == "OR ";
    }
  }

  /** One turn of the loop takes one item. */
  lemma ItemTurn(groups: seq<seq<Term>>, items: seq<Item>)
    requires groups != [] && items != [] && ItemsOk(items)
    ensures ItemsOk(items[1..]) && Written(items) != ""
    ensures var r := items[0].raw;
      Step(groups, Written(items)) == State(
        if r.Alt? then NewGroup(groups) else Push(groups, Term(r.negated, WordsOf(r.text))), Written(items[1..]))
  {
    TailOk(items);
    WrittenHead(items[1..]);
    assert ItemOk(items[0], |items| == 1);
    OneTurn(groups, items[0].raw, items[0].gap, Written(items[1..]));
    assert Written(items) == RawText(items[0].raw) + (items[0].gap + Written(items[1..]));
    hide Written, Step, RawText;
  }

  lemma OneTurn(groups: seq<seq<Term>>, r: Raw, gap: string, tail: string)
    requires groups != [] && ItemOk(Item(r, gap), tail == "") && (tail != "" ==> !IsSpace(tail[0]))
    ensures Step(groups, RawText(r) + (gap + tail)) ==
      State(if r.Alt? then NewGroup(groups) else Push(groups, Term(r.negated, WordsOf(r.text))), tail)
  {
    match r
    case Alt => AltTurn(groups, gap, tail);
    case Bare(negated, text) => BareTurn(groups, negated, text, gap, tail);
    case Quoted(negated, text, closed) => QuotedTurn(groups, negated, text, closed, gap, tail);
  }

  lemma BareTurn(groups: seq<seq<Term>>, negated: bool, text: string, gap: string, tail: string)
    requires groups != [] && ItemOk(Item(Bare(negated, text), gap), tail == "") && (tail != "" ==> !IsSpace(tail[0]))
    ensures Step(groups, RawText(Bare(negated, text)) + (gap + tail))
      == State(Push(groups, Term(negated, WordsOf(text))), tail)
  {
    TakeToken(text, gap, tail);
    var after := gap + tail;
    if negated {
      hide *;
      SignedText(text, after);
      SignedTurn(groups, true, RawText(Bare(true, text)) + after, text + after, WordsOf(text), tail);
    } else {
      NotAlt(text, gap, tail);
      Cut(text, after);
      assert "" + text == text;
      hide TakeTerm, AtOr, Words, Push;
    }
  }

  lemma SignedText(text: string, after: string)
    ensures var s := RawText(Bare(true, text)) + after; s != "" && s[0] == '-' && s[1..] == text + after
  {
  }

  lemma QuotedTurn(groups: seq<seq<Term>>, negated: bool, text: string, closed: bool, gap: string, tail: string)
    requires groups != [] && ItemOk(Item(Quoted(negated, text, closed), gap), tail == "")
      && (tail != "" ==> !IsSpace(tail[0]))
    ensures Step(groups, RawText(Quoted(negated, text, closed)) + (gap + tail))
      == State(Push(groups, Term(negated, WordsOf(text))), tail)
  {
    TakePhrase(text, closed, gap, tail);
    PhraseSplit(text, if closed then "\"" else "", "");
    SignedPhrase(negated, PhraseText(text, closed), gap + tail);
    var s := RawText(Quoted(negated, text, closed)) + (gap + tail);
    hide *;
    SignedTurn(groups, negated, s, PhraseText(text, closed) + (gap + tail), WordsOf(text), tail);
  }

  lemma SignedPhrase(negated: bool, phrase: string, after: string)
    requires phrase + "" != "" && (phrase + "")[0] == '"'
    ensures var s := (if negated then "-" else "") + phrase + after;
      && s != "" && (s[0] == '-' <==> negated) && s[0] != 'O' && (if negated then s[1..] else s) == phrase + after
  {
    assert phrase + "" == phrase;
  }

  lemma SignedTurn(groups: seq<seq<Term>>, negated: bool, s: string, body: string, words: seq<string>, tail: string)
    requires groups != [] && s != "" && (s[0] == '-' <==> negated) && s[0] != 'O'
      && (if negated then s[1..] else s) == body
    requires TakeTerm(body) == (words, tail)
    ensures Step(groups, s) == State(Push(groups, Term(negated, words)), tail)
  {
    AtOrIs(s);
    hide TakeTerm, AtOr, Push;
  }

  // ---- what the items mean ----

  /** The terms between the `OR`s. */
  function Alternatives(items: seq<Item>): (r: seq<seq<Term>>)
    ensures r != []
  {
    if items == [] then [[]]
    else
      var rest := Alternatives(items[1..]);
      if items[0].raw.Alt? then [[]] + rest else [Said(items[0].raw) + rest[0]] + rest[1..]
  }

  function NonEmpty(groups: seq<seq<Term>>): seq<seq<Term>> {
    if groups == [] then []
    else NonEmpty(groups[..|groups| - 1]) + (if groups[|groups| - 1] == [] then [] else [groups[|groups| - 1]])
  }

  lemma {:induction false} NonEmptyBoth(a: seq<seq<Term>>, b: seq<seq<Term>>)
    ensures NonEmpty(a + b) == NonEmpty(a) + NonEmpty(b)
    decreases |b|
  {
    if b == [] {
      assert a + b == a;
    } else {
      assert (a + b)[..|a + b| - 1] == a + b[..|b| - 1];
      NonEmptyBoth(a, b[..|b| - 1]);
    }
  }

  lemma {:induction false} RetainedIsNonEmpty(groups: seq<seq<Term>>)
    ensures Retained(groups) == NonEmpty(groups)
    decreases |groups|
  {
    hide *;
    RetainedCons(groups);
    if groups != [] {
      RetainedIsNonEmpty(groups[1..]);
      NonEmptyBoth([groups[0]], groups[1..]);
      NonEmptyOne(groups[0]);
      assert [groups[0]] + groups[1..] == groups;
    }
  }

  lemma RetainedCons(groups: seq<seq<Term>>)
    ensures Retained(groups) ==
      if groups == [] then [] else (if groups[0] == [] then [] else [groups[0]]) + Retained(groups[1..])
    ensures NonEmpty([]) == []
  {
  }

  /** The alternatives go on where the groups stand. */
  function Joined(groups: seq<seq<Term>>, rest: seq<seq<Term>>): seq<seq<Term>>
    requires groups != [] && rest != []
  {
    groups[..|groups| - 1] + ([groups[|groups| - 1] + rest[0]] + rest[1..])
  }

  lemma JoinedAlt(groups: seq<seq<Term>>, rest: seq<seq<Term>>)
    requires groups != [] && rest != []
    ensures NonEmpty(Joined(NewGroup(groups), rest)) == NonEmpty(Joined(groups, [[]] + rest))
  {
    var n := |groups| - 1;
    var front, last := groups[..n], groups[n];
    AltShape(groups, rest);
    hide *;
    NonEmptyBoth(front, [last] + rest);
    NonEmptyBoth([last], rest);
    NonEmptyOne(last);
    NonEmptyBoth(front, rest);
    if last == [] {
      assert NonEmpty([last]) + NonEmpty(rest) == NonEmpty(rest);
    }
  }

  lemma AltShape(groups: seq<seq<Term>>, rest: seq<seq<Term>>)
    requires groups != [] && rest != []
    ensures var front, last := groups[..|groups| - 1], groups[|groups| - 1];
      && Joined(groups, [[]] + rest) == front + ([last] + rest)
      && Joined(NewGroup(groups), rest) == if last == [] then front + rest else front + ([last] + rest)
  {
    var front, last := groups[..|groups| - 1], groups[|groups| - 1];
    var alt := [[]] + rest;
    assert alt[0] == [] && alt[1..] == rest && last + [] == last && [] + rest[0] == rest[0];
    assert [rest[0]] + rest[1..] == rest && front + [last] == groups;
    if last != [] {
      var g := groups + [[]];
      assert g[..|g| - 1] == groups;
      Enclosed(front, [last], rest, []);
    }
  }

  lemma NonEmptyOne(g: seq<Term>)
    ensures NonEmpty([g]) == if g == [] then [] else [g]
  {
    assert [g][..0] == [];
  }

  lemma JoinedTerm(groups: seq<seq<Term>>, r: Raw, rest: seq<seq<Term>>)
    requires groups != [] && rest != [] && !r.Alt?
    ensures Joined(Push(groups, Term(r.negated, WordsOf(r.text))), rest)
      == Joined(groups, [Said(r) + rest[0]] + rest[1..])
  {
    var n := |groups| - 1;
    var last := groups[n];
    hide Words;
    assert last + Said(r) + rest[0] == last + (Said(r) + rest[0]);
    if WordsOf(r.text) == [] {
      assert Said(r) + rest[0] == rest[0];
    } else {
      var pushed := groups[n := last + Said(r)];
      assert pushed[..n] == groups[..n];
    }
  }

  lemma {:induction false} LoopItems(groups: seq<seq<Term>>, items: seq<Item>)
    requires groups != [] && ItemsOk(items)
    ensures NonEmpty(Loop(groups, Written(items))) == NonEmpty(Joined(groups, Alternatives(items)))
    decreases |items|
  {
    if items == [] {
      JoinedNothing(groups);
    } else {
      var r, rest := items[0].raw, Alternatives(items[1..]);
      ItemTurn(groups, items);
      hide Written, Step, Push, NewGroup, Joined, NonEmpty, Said, ItemsOk;
      if r.Alt? {
        LoopItems(NewGroup(groups), items[1..]);
        JoinedAlt(groups, rest);
      } else {
        LoopItems(Push(groups, Term(r.negated, WordsOf(r.text))), items[1..]);
        JoinedTerm(groups, r, rest);
      }
    }
  }

  lemma JoinedNothing(groups: seq<seq<Term>>)
    requires groups != []
    ensures Joined(groups, [[]]) == groups
  {
    var last := groups[|groups| - 1];
    var nothing: seq<seq<Term>> := [[]];
    assert last + [] == last && nothing[1..] == [];
    assert Joined(groups, [[]]) == groups[..|groups| - 1] + [last];
  }

  lemma FromNothing(rest: seq<seq<Term>>)
    requires rest != []
    ensures Joined([[]], rest) == rest
  {
    var nothing: seq<seq<Term>> := [[]];
    assert nothing[..0] == [] && [] + rest[0] == rest[0];
    assert [rest[0]] + rest[1..] == rest;
  }

  ghost predicate OnlyExcludes(g: seq<Term>) {
    forall j :: 0 <= j < |g| ==> g[j].negated
  }

  /** What any items are parsed to, whatever the white space around and between them: the
      alternatives that say something, each with the terms of its items in order; an error if
      none does, and another if one of them only excludes. */
  lemma ParseItems(lead: string, items: seq<Item>, trail: string)
    requires Spaces(lead) && Spaces(trail) && ItemsOk(items)
    ensures var groups := NonEmpty(Alternatives(items));
      Parse(lead + (Written(items) + trail)) ==
        if groups == [] then Empty
        else if exists i :: 0 <= i < |groups| && OnlyExcludes(groups[i]) then NoPositive
        else Ok(groups)
  {
    hide *;
    Trimmed(lead, items, trail);
    LoopItems([[]], items);
    FromNothing(Alternatives(items));
    RetainedIsNonEmpty(Loop([[]], Written(items)));
    FinishIs(Loop([[]], Written(items)));
    ParseIs(lead + (Written(items) + trail));
  }

  lemma ParseIs(input: string)
    ensures Parse(input) == Finish(Loop([[]], TrimEnd(TrimStart(input))))
  {
  }

  lemma FinishIs(groups: seq<seq<Term>>)
    ensures var kept := Retained(groups);
      Finish(groups) ==
        if kept == [] then Empty
        else if exists i :: 0 <= i < |kept| && OnlyExcludes(kept[i]) then NoPositive
        else Ok(kept)
  {
    hide Retained, HasPositive, OnlyExcludes;
    forall g
      ensures HasPositive(g) <==> !OnlyExcludes(g)
    {
      PositiveOrNot(g);
    }
  }

  lemma PositiveOrNot(g: seq<Term>)
    ensures HasPositive(g) <==> !OnlyExcludes(g)
  {
  }

  lemma Trimmed(lead: string, items: seq<Item>, trail: string)
    requires Spaces(lead) && Spaces(trail) && ItemsOk(items)
    ensures TrimEnd(TrimStart(lead + (Written(items) + trail))) == Written(items)
  {
    WrittenHead(items);
    if items == [] {
      assert lead + ("" + trail) == (lead + trail) + "";
      SkipGap(lead + trail, "");
    } else {
      WrittenEnd(items);
      hide Written, ItemsOk, TrimStart, TrimEnd;
      assert (Written(items) + trail)[0] == Written(items)[0];
      SkipGap(lead, Written(items) + trail);
      DropGap(Written(items), trail);
    }
  }

  // ---- every input is items ----

  /** Neither end is white space. */
  predicate Trim(s: string) {
    s != "" ==> !IsSpace(s[0]) && !IsSpace(s[|s| - 1])
  }

  lemma ConsGap(u: string, g: string, t: string)
    requires u != "" && u[1..] == g + t
    ensures u == ([u[0]] + g) + t
    ensures IsSpace(u[0]) && Spaces(g) ==> Spaces([u[0]] + g)
  {
  }

  lemma {:induction false} LeadingGap(u: string) returns (gap: string, tail: string)
    requires u != "" ==> !IsSpace(u[|u| - 1])
    ensures u == gap + tail && Spaces(gap) && Trim(tail) && (tail == "" ==> gap == "")
    ensures u != "" && IsSpace(u[0]) ==> gap != "" && gap[0] == u[0]
    ensures u != "" && !IsSpace(u[0]) ==> gap == ""
    decreases |u|
  {
    if u == "" || !IsSpace(u[0]) {
      gap, tail := "", u;
    } else {
      hide Trim;
      var g, t := LeadingGap(u[1..]);
      gap, tail := [u[0]] + g, t;
      hide *;
      ConsGap(u, g, t);
    }
  }

  lemma {:induction false} UntilSpaceIs(v: string)
    ensures NoSpace(v[..UntilSpace(v)]) && (UntilSpace(v) < |v| ==> IsSpace(v[UntilSpace(v)]))
    decreases |v|
  {
    if v != "" && !IsSpace(v[0]) {
      UntilSpaceIs(v[1..]);
    }
  }

  lemma {:induction false} UntilQuoteIs(v: string)
    ensures '"' !in v[..UntilQuote(v)] && (UntilQuote(v) < |v| ==> v[UntilQuote(v)] == '"')
    decreases |v|
  {
    if v != "" && v[0] != '"' {
      UntilQuoteIs(v[1..]);
    }
  }

  lemma FirstQuoted(negated: bool, r: string) returns (raw: Raw, gap: string, tail: string)
    requires r != "" ==> !IsSpace(r[|r| - 1])
    ensures raw.Quoted? && raw.negated == negated && ItemOk(Item(raw, gap), tail == "") && Trim(tail) && |tail| <= |r|
    ensures "\"" + r == PhraseText(raw.text, raw.closed) + (gap + tail)
  {
    var k := UntilQuote(r);
    UntilQuoteIs(r);
    if k < |r| {
      gap, tail := LeadingGap(r[k + 1..]);
      raw := Quoted(negated, r[..k], true);
      CutAtQuote(r, k);
      ClosedPhrase(r[..k], gap + tail);
    } else {
      raw, gap, tail := Quoted(negated, r, false), "", "";
      assert r[..k] == r;
    }
  }

  lemma CutAtQuote(r: string, k: nat)
    requires k < |r| && r[k] == '"'
    ensures r == r[..k] + ("\"" + r[k + 1..])
  {
  }

  lemma ClosedPhrase(text: string, after: string)
    ensures "\"" + (text + ("\"" + after)) == PhraseText(text, true) + after
  {
  }

  lemma FirstBare(negated: bool, v: string) returns (raw: Raw, gap: string, tail: string)
    requires v != "" ==> !IsSpace(v[|v| - 1]) && v[0] != '"'
    requires !negated ==> v != "" && !IsSpace(v[0]) && v[0] != '-' && !AtOr(v)
    ensures raw.Bare? && raw.negated == negated && ItemOk(Item(raw, gap), tail == "") && Trim(tail)
    ensures v == raw.text + (gap + tail) && (v != "" ==> |tail| < |v|)
  {
    var k := UntilSpace(v);
    UntilSpaceIs(v);
    var t := v[..k];
    gap, tail := LeadingGap(v[k..]);
    raw := Bare(negated, t);
    assert v == t + v[k..];
    AtOrIs(v);
    if !negated && t == "OR" {
      assert v[0] == t[0] && v[1] == t[1];
      assert k < |v| && v[k..][0] == v[2];
    }
  }

  lemma FirstItem(s: string) returns (raw: Raw, gap: string, tail: string)
    requires s != "" && Trim(s)
    ensures ItemOk(Item(raw, gap), tail == "") && Trim(tail) && |tail| < |s|
    ensures s == RawText(raw) + (gap + tail)
  {
    AtOrIs(s);
    if AtOr(s) {
      raw := Alt;
      gap, tail := LeadingGap(s[2..]);
      assert s == "OR" + s[2..];
    } else if s[0] == '-' {
      var v := s[1..];
      assert s == "-" + v;
      if v != "" && v[0] == '"' {
        raw, gap, tail := FirstQuoted(true, v[1..]);
        assert v == "\"" + v[1..];
        Enclosed("-", PhraseText(raw.text, raw.closed), gap + tail, "");
      } else {
        raw, gap, tail := FirstBare(true, v);
        Enclosed("-", raw.text, gap + tail, "");
      }
    } else if s[0] == '"' {
      raw, gap, tail := FirstQuoted(false, s[1..]);
      assert s == "\"" + s[1..] && "" + PhraseText(raw.text, raw.closed) == PhraseText(raw.text, raw.closed);
    } else {
      raw, gap, tail := FirstBare(false, s);
      assert "" + raw.text == raw.text;
    }
  }

  lemma {:induction false} EveryText(s: string) returns (items: seq<Item>)
    requires Trim(s)
    ensures ItemsOk(items) && Written(items) == s
    decreases |s|
  {
    if s == "" {
      items := [];
    } else {
      var raw, gap, tail := FirstItem(s);
      var rest := EveryText(tail);
      WrittenHead(rest);
      items := [Item(raw, gap)] + rest;
      Prepend(Item(raw, gap), rest);
    }
  }

  lemma Prepend(it: Item, rest: seq<Item>)
    requires ItemsOk(rest) && ItemOk(it, rest == [])
    ensures var items := [it] + rest;
      ItemsOk(items) && Written(items) == RawText(it.raw) + (it.gap + Written(rest))
  {
    var items := [it] + rest;
    assert ItemsOk(items) by { hide ItemOk; }
    assert items[1..] == rest;
    hide ItemOk, RawText;
  }

  /** Every input is items between white space, so `ParseItems` says what each is parsed to. */
  lemma EveryInput(input: string) returns (lead: string, items: seq<Item>, trail: string)
    ensures Spaces(lead) && Spaces(trail) && ItemsOk(items) && input == lead + (Written(items) + trail)
  {
    var s := TrimStart(input);
    lead := LeadOf(input);
    var body := TrimEnd(s);
    trail := TrailOf(s);
    items := EveryText(body);
  }

  lemma {:induction false} LeadOf(s: string) returns (lead: string)
    ensures Spaces(lead) && s == lead + TrimStart(s)
    decreases |s|
  {
    if s != "" && IsSpace(s[0]) {
      var l := LeadOf(s[1..]);
      lead := [s[0]] + l;
      assert s == [s[0]] + s[1..];
    } else {
      lead := "";
    }
  }

  lemma {:induction false} TrailOf(s: string) returns (trail: string)
    requires s != "" ==> !IsSpace(s[0])
    ensures Spaces(trail) && s == TrimEnd(s) + trail && Trim(TrimEnd(s))
    decreases |s|
  {
    if s != "" && IsSpace(s[|s| - 1]) {
      var t := TrailOf(s[..|s| - 1]);
      trail := t + [s[|s| - 1]];
      assert s == s[..|s| - 1] + [s[|s| - 1]];
    } else {
      trail := "";
    }
  }
}
