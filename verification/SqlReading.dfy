/** Built SQL read back: the text cut into words and signs, each `?` taking the next value,
    and the words of a WHERE clause read as the predicates they say. */
module SqlReading {
  import opened Wrappers
  import opened Decimals
  import opened Sql
  import opened Identifiers
  import opened JsonPath
  import opened Builder

  datatype Tok = Word(s: string) | Open | Close | Comma | Bound(v: Value) | Unbound

  // ---- words ----

  predicate InWord(c: char) {
    c != ' ' && c != '(' && c != ')' && c != ',' && c != '?'
  }

  predicate AllWord(w: string) {
    forall i :: 0 <= i < |w| ==> InWord(w[i])
  }

  function WordRun(s: string): (n: nat)
    ensures n <= |s| && (s != "" && InWord(s[0]) ==> n > 0)
  {
    if s == "" || !InWord(s[0]) then 0 else 1 + WordRun(s[1..])
  }

  /** The words and signs of the text, with the values it is sent with. */
  function Lex(sql: string, vals: seq<Value>): seq<Tok>
    decreases |sql|
  {
    if sql == "" then []
    else if sql[0] == ' ' then Lex(sql[1..], vals)
    else if sql[0] == '(' then [Open] + Lex(sql[1..], vals)
    else if sql[0] == ')' then [Close] + Lex(sql[1..], vals)
    else if sql[0] == ',' then [Comma] + Lex(sql[1..], vals)
    else if sql[0] == '?' then
      (if vals == [] then [Unbound] + Lex(sql[1..], []) else [Bound(vals[0])] + Lex(sql[1..], vals[1..]))
    else [Word(sql[..WordRun(sql)])] + Lex(sql[WordRun(sql)..], vals)
  }

  lemma {:induction false} RunEnds(w: string, tail: string)
    requires AllWord(w) && (tail == "" || !InWord(tail[0]))
    ensures WordRun(w + tail) == |w|
    decreases |w|
  {
    if w == "" {
      assert w + tail == tail;
    } else {
      assert (w + tail)[1..] == w[1..] + tail;
      RunEnds(w[1..], tail);
    }
  }

  lemma LexWord(w: string, tail: string, vals: seq<Value>)
    requires w != "" && AllWord(w) && (tail == "" || !InWord(tail[0]))
    ensures Lex(w + tail, vals) == [Word(w)] + Lex(tail, vals)
  {
    RunEnds(w, tail);
    assert (w + tail)[0] == w[0] && (w + tail)[..|w|] == w && (w + tail)[|w|..] == tail;
    hide WordRun;
  }

  /** A sign, or a blank, at the head of the text. */
  lemma LexSign(c: char, tail: string, vals: seq<Value>)
    requires !InWord(c)
    ensures c != '?' ==>
      Lex([c] + tail, vals)
      == (if c == ' ' then [] else if c == '(' then [Open] else if c == ')' then [Close] else [Comma]) + Lex(tail, vals)
    ensures c == '?' && vals != [] ==> Lex([c] + tail, vals) == [Bound(vals[0])] + Lex(tail, vals[1..])
  {
    assert ([c] + tail)[1..] == tail;
  }

  /** Words with a blank before each, whatever follows. */
  function Spaced(words: seq<string>): string {
    if words == [] then "" else " " + (words[0] + Spaced(words[1..]))
  }

  function AsWords(words: seq<string>): seq<Tok> {
    if words == [] then [] else [Word(words[0])] + AsWords(words[1..])
  }

  lemma {:induction false} LexSpaced(words: seq<string>, tail: string, vals: seq<Value>)
    requires forall i :: 0 <= i < |words| ==> words[i] != "" && AllWord(words[i])
    requires tail == "" || !InWord(tail[0])
    ensures Lex(Spaced(words) + tail, vals) == AsWords(words) + Lex(tail, vals)
    decreases |words|
  {
    assert !InWord(' ');
    SpacedIs(words, tail);
    assert words != [] ==> AsWords(words) == [Word(words[0])] + AsWords(words[1..]);
    assert words == [] ==> AsWords(words) == [] && [] + Lex(tail, vals) == Lex(tail, vals);
    hide *;
    if words != [] {
      var more := Spaced(words[1..]) + tail;
      SpacedHead(words[1..], tail);
      LexSign(' ', words[0] + more, vals);
      LexWord(words[0], more, vals);
      LexSpaced(words[1..], tail, vals);
      Regrouped([Word(words[0])], AsWords(words[1..]), Lex(tail, vals));
      assert [] + Lex(words[0] + more, vals) == Lex(words[0] + more, vals);
    }
  }

  lemma SpacedIs(words: seq<string>, tail: string)
    ensures words == [] ==> Spaced(words) + tail == tail
    ensures words != [] ==> Spaced(words) + tail == [' '] + (words[0] + (Spaced(words[1..]) + tail))
  {
    if words == [] {
      assert "" + tail == tail;
    } else {
      assert " " == [' '];
      Regroup(" ", words[0], Spaced(words[1..]), tail);
    }
    hide *;
  }

  lemma SpacedHead(words: seq<string>, tail: string)
    requires tail == "" || !InWord(tail[0])
    ensures var s := Spaced(words) + tail; s == "" || !InWord(s[0])
  {
  }

  // ---- identifiers and operators are words ----

  lemma NameIsWord(s: string)
    requires Name(s)
    ensures AllWord(s)
  {
  }

  lemma DottedIsWord(s: string, k: nat)
    requires k < |s| && s[k] == '.' && s[..k] != "" && AllWord(s[..k]) && AllWord(s[k + 1..])
    ensures AllWord(s)
  {
    forall i | 0 <= i < |s|
      ensures InWord(s[i])
    {
      if i < k { assert s[i] == s[..k][i]; } else if i > k { assert s[i] == s[k + 1..][i - k - 1]; }
    }
  }

  lemma IdentifierIsWord(s: string)
    requires ValidIdentifier(s)
    ensures s != "" && AllWord(s) && s[0] != '0'
  {
    IdentifierIs(s);
    assert AllWord("*") && forall n :: Name(n) ==> n != "" && n[0] != '0';
    hide ValidIdentifier, Name, AllWord;
    if s != "*" {
      if Name(s) {
        NameIsWord(s);
      } else {
        var k :| 0 <= k < |s| && s[k] == '.' && Name(s[..k]) && (s[k + 1..] == "*" || Name(s[k + 1..]));
        NameIsWord(s[..k]);
        if s[k + 1..] != "*" { NameIsWord(s[k + 1..]); }
        DottedIsWord(s, k);
        assert s[0] == s[..k][0];
      }
    }
  }

  /** `NOT LIKE` and `NOT ILIKE` are two words. */
  function OpWords(op: string): seq<string> {
    if |op| > 4 && op[3] == ' ' then [op[..3], op[4..]] else [op]
  }

  lemma OperatorIsWords(op: string)
    requires ValidOperator(op)
    ensures forall i :: 0 <= i < |OpWords(op)| ==> OpWords(op)[i] != "" && AllWord(OpWords(op)[i])
    ensures Spaced(OpWords(op)) == " " + op
    ensures OpWords(op)[0] !in {"IN", "IS", "#>>", "@>"}
  {
    OperatorIs(op);
    var o :| o in ACCEPTED && InEitherCase(op, o);
    OperatorChars(o);
    CharsAs(op, o);
    if |op| > 4 && op[3] == ' ' {
      assert op == op[..3] + (" " + op[4..]);
      SpacedTwo(op[..3], op[4..]);
      assert op[..3][0] == op[0];
    } else {
      SpacedOne(op);
    }
    hide ACCEPTED, InEitherCase, Spaced;
  }

  /** Either case has the same words and never looks like a keyword of the reader. */
  lemma CharsAs(op: string, o: string)
    requires o in ACCEPTED && InEitherCase(op, o)
    ensures |op| == |o| > 0 && forall i :: 0 <= i < |o| ==>
      (op[i] == ' ' <==> o[i] == ' ') && (InWord(o[i]) ==> InWord(op[i]))
    ensures op !in {"IN", "IS", "#>>", "@>"} && op[0] != '#' && op[0] != '@' && (|op| > 2 ==> op[..3] !in {"IN", "IS"})
  {
    OperatorChars(o);
    assert op[0] == o[0] || op[0] as int == o[0] as int + 32;
    assert |op| == 2 ==> op[1] != 'N' && op[1] != 'S';
    assert "IN"[1] == 'N' && "IS"[1] == 'S' && "#>>"[0] == '#' && "@>"[0] == '@';
    hide ACCEPTED;
  }

  lemma SpacedOne(w: string)
    ensures Spaced([w]) == " " + w
  {
    assert [w][1..] == [] && w + "" == w;
  }

  lemma SpacedTwo(w: string, x: string)
    ensures Spaced([w, x]) == " " + (w + (" " + x))
  {
    SpacedOne(x);
    assert [w, x][1..] == [x];
  }

  lemma OperatorChars(o: string)
    requires o in ACCEPTED
    ensures o != "" && forall i :: 0 <= i < |o| ==> (InWord(o[i]) || (i == 3 && |o| > 4)) && o[i] != '#' && o[i] != '@'
    ensures |o| == 2 ==> o[1] != 'N' && o[1] != 'S'
    ensures |o| > 4 && o[3] != ' ' ==> InWord(o[3])
    ensures |o| > 4 && o[3] == ' ' ==> |o| >= 8 && o[..3] == "NOT"
  {
  }

  // ---- what a template says ----

  ghost predicate Ends(tail: string) {
    tail == "" || !InWord(tail[0])
  }

  /** The template's text and values are these words and signs, whatever follows; `any`:
      even a letter may follow. */
  ghost predicate Says(t: Template, toks: seq<Tok>, any: bool) {
    forall tail, more {:trigger Lex(Render(t) + tail, Values(t) + more)} ::
      any || Ends(tail) ==> Lex(Render(t) + tail, Values(t) + more) == toks + Lex(tail, more)
  }

  lemma Use(t: Template, toks: seq<Tok>, any: bool, tail: string, more: seq<Value>)
    requires Says(t, toks, any) && (any || Ends(tail))
    ensures Lex(Render(t) + tail, Values(t) + more) == toks + Lex(tail, more)
  {
  }

  lemma Weaken(t: Template, toks: seq<Tok>)
    requires Says(t, toks, true)
    ensures Says(t, toks, false)
  {
  }

  lemma Cat(a: Template, ta: seq<Tok>, x: bool, b: Template, tb: seq<Tok>, y: bool)
    requires Says(a, ta, x) && Says(b, tb, y)
    requires x || (Ends(Render(b)) && (Render(b) != "" || !y))
    ensures Says(a + b, ta + tb, y)
  {
    RenderCat(a, b);
    hide Lex, Render, Values, Says;
    forall tail, more | y || Ends(tail)
      ensures Lex(Render(a + b) + tail, Values(a + b) + more) == (ta + tb) + Lex(tail, more)
    {
      Regrouped(Render(a), Render(b), tail);
      Regrouped(Values(a), Values(b), more);
      Regrouped(ta, tb, Lex(tail, more));
      Use(b, tb, y, tail, more);
      Use(a, ta, x, Render(b) + tail, Values(b) + more);
    }
    SaysIs(a + b, ta + tb, y);
  }

  lemma SaysIs(t: Template, toks: seq<Tok>, any: bool)
    requires forall tail, more {:trigger Lex(Render(t) + tail, Values(t) + more)} ::
      any || Ends(tail) ==> Lex(Render(t) + tail, Values(t) + more) == toks + Lex(tail, more)
    ensures Says(t, toks, any)
  {
    hide Lex, Render, Values, Ends;
  }

  lemma Regrouped<T>(a: seq<T>, b: seq<T>, c: seq<T>)
    ensures (a + b) + c == a + (b + c)
  {
  }

  // ---- text ----

  ghost predicate TextSays(s: string, toks: seq<Tok>, any: bool) {
    Says([Lit(s)], toks, any)
  }

  lemma TextIs(s: string, toks: seq<Tok>, any: bool)
    requires forall tail, vals {:trigger Lex(s + tail, vals)} ::
      any || Ends(tail) ==> Lex(s + tail, vals) == toks + Lex(tail, vals)
    ensures TextSays(s, toks, any)
  {
    hide Lex, Ends;
    One(Lit(s));
    assert forall vals: seq<Value> :: [] + vals == vals;
  }

  lemma TextOf(s: string, toks: seq<Tok>, any: bool, tail: string, vals: seq<Value>)
    requires TextSays(s, toks, any) && (any || Ends(tail))
    ensures Lex(s + tail, vals) == toks + Lex(tail, vals)
  {
    One(Lit(s));
    hide Lex, Render, Values, Ends, Says;
    assert [] + vals == vals;
    Use([Lit(s)], toks, any, tail, vals);
  }

  lemma TextCat(a: string, ta: seq<Tok>, x: bool, b: string, tb: seq<Tok>, y: bool)
    requires TextSays(a, ta, x) && TextSays(b, tb, y)
    requires x || (Ends(b) && (b != "" || !y))
    ensures TextSays(a + b, ta + tb, y)
  {
    hide Lex, TextSays;
    forall tail, vals | y || Ends(tail)
      ensures Lex((a + b) + tail, vals) == (ta + tb) + Lex(tail, vals)
    {
      Regrouped(a, b, tail);
      Regrouped(ta, tb, Lex(tail, vals));
      TextOf(b, tb, y, tail, vals);
      TextOf(a, ta, x, b + tail, vals);
    }
    TextIs(a + b, ta + tb, y);
  }

  lemma WordSays(w: string)
    requires w != "" && AllWord(w)
    ensures TextSays(w, [Word(w)], false)
  {
    hide Lex, AllWord;
    forall tail, vals | Ends(tail)
      ensures Lex(w + tail, vals) == [Word(w)] + Lex(tail, vals)
    {
      LexWord(w, tail, vals);
    }
    TextIs(w, [Word(w)], false);
  }

  lemma SignSays(c: char, toks: seq<Tok>)
    requires (c == '(' && toks == [Open]) || (c == ')' && toks == [Close]) || (c == ',' && toks == [Comma])
      || (c == ' ' && toks == [])
    ensures TextSays([c], toks, true)
  {
    hide Lex;
    forall tail, vals
      ensures Lex([c] + tail, vals) == toks + Lex(tail, vals)
    {
      LexSign(c, tail, vals);
    }
    TextIs([c], toks, true);
  }

  /** The blank and the signs, and that none of them runs a word on. */
  lemma Signs()
    ensures TextSays(" ", [], true) && TextSays("(", [Open], true) && TextSays(")", [Close], true)
    ensures TextSays(",", [Comma], true) && Ends(" ") && Ends(")") && Ends(", ") && Ends("")
  {
    assert " " == [' '] && "(" == ['('] && ")" == [')'] && "," == [','];
    hide TextSays;
    SignSays(' ', []);
    SignSays('(', [Open]);
    SignSays(')', [Close]);
    SignSays(',', [Comma]);
  }

  lemma NothingSays()
    ensures TextSays("", [], true) && Says([], [], true)
  {
    hide Lex;
    forall tail, vals
      ensures Lex("" + tail, vals) == [] + Lex(tail, vals)
    {
      assert "" + tail == tail;
    }
    TextIs("", [], true);
    assert forall vals: seq<Value> :: [] + vals == vals;
    assert forall tail: string :: "" + tail == tail;
  }

  lemma MarkSays(v: Value)
    ensures Says([Mark(v)], [Bound(v)], true)
  {
    One(Mark(v));
    hide Lex, Render, Values;
    forall tail, more
      ensures Lex("?" + tail, [v] + more) == [Bound(v)] + Lex(tail, more)
    {
      assert ([v] + more)[1..] == more && "?" == ['?'];
      LexSign('?', tail, [v] + more);
    }
  }

  /** A word with a blank before it. */
  lemma NextWord(w: string)
    requires w != "" && AllWord(w)
    ensures TextSays(" " + w, [Word(w)], false)
  {
    hide *;
    Signs();
    WordSays(w);
    TextCat(" ", [], true, w, [Word(w)], false);
    assert [] + [Word(w)] == [Word(w)];
  }

  /** A word with a blank before and after it. */
  lemma BetweenWord(w: string)
    requires w != "" && AllWord(w)
    ensures TextSays(" " + w + " ", [Word(w)], true)
  {
    hide *;
    NextWord(w);
    Signs();
    TextCat(" " + w, [Word(w)], false, " ", [], true);
    assert [Word(w)] + [] == [Word(w)];
  }

  lemma CommaSays()
    ensures TextSays(", ", [Comma], true)
  {
    hide *;
    Signs();
    TextCat(",", [Comma], true, " ", [], true);
    assert "," + " " == ", " && [Comma] + [] == [Comma];
  }

  lemma AroundSays(before: string, tb: seq<Tok>, v: Value, after: string, ta: seq<Tok>, any: bool)
    requires TextSays(before, tb, true) && TextSays(after, ta, any)
    ensures Says(Around(before, v, after), tb + ([Bound(v)] + ta), any)
  {
    assert Around(before, v, after) == [Lit(before)] + ([Mark(v)] + [Lit(after)]);
    hide Lex, Says, Render, Values;
    MarkSays(v);
    Cat([Mark(v)], [Bound(v)], true, [Lit(after)], ta, any);
    Cat([Lit(before)], tb, true, [Mark(v)] + [Lit(after)], [Bound(v)] + ta, any);
  }

  // ---- lists ----

  function JoinToks(tss: seq<seq<Tok>>, sep: seq<Tok>): seq<Tok> {
    if tss == [] then [] else if |tss| == 1 then tss[0] else tss[0] + (sep + JoinToks(tss[1..], sep))
  }

  lemma {:induction false} JoinSays(ts: seq<Template>, tss: seq<seq<Tok>>, sep: string, st: seq<Tok>)
    requires |ts| == |tss| > 0 && TextSays(sep, st, true) && sep != "" && Ends(sep)
    requires forall i :: 0 <= i < |ts| ==> Says(ts[i], tss[i], false)
    ensures Says(JoinAll(ts, sep), JoinToks(tss, st), false)
    decreases |ts|
  {
    hide Says, Render, Ends;
    if |ts| > 1 {
      JoinSays(ts[1..], tss[1..], sep, st);
      var rest, more := JoinAll(ts[1..], sep), JoinToks(tss[1..], st);
      Cat([Lit(sep)], st, true, rest, more, false);
      SepEnds(sep, rest);
      Cat(ts[0], tss[0], false, [Lit(sep)] + rest, st + more, false);
    }
  }

  lemma SepEnds(sep: string, rest: Template)
    requires sep != "" && Ends(sep)
    ensures Ends(Render([Lit(sep)] + rest))
  {
    One(Lit(sep));
    RenderCat([Lit(sep)], rest);
    hide Render;
  }

  // ---- the reader ----

  /** What a predicate says. */
  datatype Said =
    | Never
    | Compare(c: Cond)
    | OneOf(col: string, values: seq<Value>)
    | NullTest(col: string, isNull: bool)
    | AnyOf(conds: seq<Cond>)
    | AtPath(c: Cond, path: Value, cast: string)
    | Contained(col: string, v: Value)

  type Rest = seq<Tok>

  /** What `read` reads, again and again with the separator between. */
  function ReadList<T>(read: Rest -> Option<(T, Rest)>, sep: Tok, ts: Rest, acc: seq<T>): Option<(seq<T>, Rest)>
    decreases |ts|
  {
    match read(ts)
    case None => None
    case Some((x, rest)) =>
      if rest != [] && rest[0] == sep && |rest| <= |ts| then ReadList(read, sep, rest[1..], acc + [x])
      else Some((acc + [x], rest))
  }

  ghost predicate Plain(rest: Rest) {
    rest == [] || (rest[0] != Word("#>>") && !rest[0].Open?)
  }

  ghost predicate Reads<T(!new)>(read: Rest -> Option<(T, Rest)>, toks: seq<Tok>, x: T) {
    forall rest {:trigger toks + rest} :: Plain(rest) ==> read(toks + rest) == Some((x, rest))
  }

  lemma {:induction false} ListRead<T(!new)>(read: Rest -> Option<(T, Rest)>, sep: Tok, tss: seq<seq<Tok>>, xs: seq<T>,
                                             rest: Rest, acc: seq<T>)
    requires |tss| == |xs| > 0 && forall i :: 0 <= i < |xs| ==> Reads(read, tss[i], xs[i])
    requires Plain(rest) && sep != Word("#>>") && !sep.Open? && (rest == [] || rest[0] != sep)
    ensures ReadList(read, sep, JoinToks(tss, [sep]) + rest, acc) == Some((acc + xs, rest))
    decreases |xs|
  {
    assert Reads(read, tss[0], xs[0]);
    if |xs| == 1 {
      assert xs == [xs[0]];
      assert read(tss[0] + rest) == Some((xs[0], rest));
    } else {
      var more := JoinToks(tss[1..], [sep]) + rest;
      Regroup(tss[0], [sep], JoinToks(tss[1..], [sep]), rest);
      assert read(tss[0] + ([sep] + more)) == Some((xs[0], [sep] + more));
      assert ([sep] + more)[1..] == more;
      hide Reads, JoinToks;
      ListRead(read, sep, tss[1..], xs[1..], rest, acc + [xs[0]]);
      assert (acc + [xs[0]]) + xs[1..] == acc + xs;
    }
  }

  function ReadName(ts: Rest): Option<(string, Rest)> {
    if ts != [] && ts[0].Word? then Some((ts[0].s, ts[1..])) else None
  }

  function ReadValue(ts: Rest): Option<(Value, Rest)> {
    if ts != [] && ts[0].Bound? then Some((ts[0].v, ts[1..])) else None
  }

  /** An operator of one word or two, and its value. */
  function ReadOp(ts: Rest): Option<(string, Value, Rest)> {
    if |ts| >= 2 && ts[0].Word? && ts[1].Bound? then Some((ts[0].s, ts[1].v, ts[2..]))
    else if |ts| >= 3 && ts[0].Word? && ts[1].Word? && ts[2].Bound? then
      Some((ts[0].s + " " + ts[1].s, ts[2].v, ts[3..]))
    else None
  }

  function ReadCond(ts: Rest): Option<(Cond, Rest)> {
    if ts == [] || !ts[0].Word? then None
    else
      match ReadOp(ts[1..])
      case None => None
      case Some((op, v, rest)) => Some((Cond(ts[0].s, op, v), rest))
  }

  function ReadPath(col: string, path: Value, cast: string, ts: Rest): Option<(Said, Rest)> {
    match ReadOp(ts)
    case None => None
    case Some((op, v, rest)) => Some((AtPath(Cond(col, op, v), path, cast), rest))
  }

  /** Behind an opening bracket: a cast document path, or conditions between `OR`s. */
  function ReadBracket(ts: Rest): Option<(Said, Rest)> {
    if |ts| > 5 && ts[0].Word? && ts[1] == Word("#>>") && ts[2].Bound? && ts[3].Close? && ts[4].Word? then
      ReadPath(ts[0].s, ts[2].v, ts[4].s, ts[5..])
    else
      match ReadList(ReadCond, Word("OR"), ts, [])
      case None => None
      case Some((conds, rest)) => if rest != [] && rest[0].Close? then Some((AnyOf(conds), rest[1..])) else None
  }

  function ReadIn(col: string, ts: Rest): Option<(Said, Rest)> {
    match ReadList(ReadValue, Comma, ts, [])
    case None => None
    case Some((vs, rest)) => if rest != [] && rest[0].Close? then Some((OneOf(col, vs), rest[1..])) else None
  }

  function ReadAtom(ts: Rest): Option<(Said, Rest)> {
    if |ts| < 3 then None
    else if ts[0].Open? then ReadBracket(ts[1..])
    else if !ts[0].Word? then None
    else if ts[1].Open? then
      if |ts| > 6 && ts[0] == Word("json_extract") && ts[2].Word? && ts[3].Comma? && ts[4].Bound? && ts[5].Close? then
        ReadPath(ts[2].s, ts[4].v, "", ts[6..])
      else None
    else if ts[0] == Word("0") then
      if ts[1] == Word("=") && ts[2] == Word("1") then Some((Never, ts[3..])) else None
    else if ts[1] == Word("IN") then
      if ts[2].Open? then ReadIn(ts[0].s, ts[3..]) else None
    else if ts[1] == Word("IS") then
      if ts[2] == Word("NULL") then Some((NullTest(ts[0].s, true), ts[3..]))
      else if |ts| > 3 && ts[2] == Word("NOT") && ts[3] == Word("NULL") then Some((NullTest(ts[0].s, false), ts[4..]))
      else None
    else if ts[1] == Word("#>>") then
      if ts[2].Bound? then ReadPath(ts[0].s, ts[2].v, "", ts[3..]) else None
    else if ts[1] == Word("@>") then
      if |ts| > 3 && ts[2].Bound? && ts[3] == Word("::jsonb") then Some((Contained(ts[0].s, ts[2].v), ts[4..]))
        else None
    else
      match ReadCond(ts)
      case None => None
      case Some((c, rest)) => Some((Compare(c), rest))
  }

  /** A WHERE clause, if there is one, and what follows it. */
  function ReadWhere(ts: Rest): Option<(seq<Said>, Rest)> {
    if ts != [] && ts[0] == Word("WHERE") then ReadList(ReadAtom, Word("AND"), ts[1..], []) else Some(([], ts))
  }

  // ---- what each predicate should say ----

  function SaidBy(p: Pred, d: Dialect): Said
    requires !p.Raw?
  {
    match p
    case Cmp(c) => Compare(c)
    case In(col, values) => if values == [] then Never else OneOf(col, values)
    case IsNull(col, isNull) => NullTest(col, isNull)
    case Or(group) => if group == [] then Never else AnyOf(group)
    case JsonCmp(c, segs) =>
      if d.Sqlite? then AtPath(c, Text(SqlitePath(segs)), "")
      else AtPath(c, Text(PgPath(segs)),
                  if c.v.Int? || c.v.Real? then "::numeric" else if c.v.Bool? then "::boolean" else "")
    case JsonContains(col, v) => Contained(col, v)
  }

  // ---- conditions ----

  lemma WordsOne(w: string)
    ensures AsWords([w]) == [Word(w)]
  {
    assert [w][1..] == [];
  }

  lemma WordsTwo(w: string, x: string)
    ensures AsWords([w, x]) == [Word(w), Word(x)]
  {
    assert [w, x][1..] == [x];
    WordsOne(x);
  }

  lemma OpSays(op: string)
    requires ValidOperator(op)
    ensures TextSays(" " + op, AsWords(OpWords(op)), false) && TextSays(" " + op + " ", AsWords(OpWords(op)), true)
  {
    OperatorIsWords(op);
    hide *;
    forall tail, vals | Ends(tail)
      ensures Lex((" " + op) + tail, vals) == AsWords(OpWords(op)) + Lex(tail, vals)
    {
      EndsIs(tail);
      LexSpaced(OpWords(op), tail, vals);
    }
    TextIs(" " + op, AsWords(OpWords(op)), false);
    Signs();
    TextCat(" " + op, AsWords(OpWords(op)), false, " ", [], true);
    assert AsWords(OpWords(op)) + [] == AsWords(OpWords(op));
  }

  lemma EndsIs(tail: string)
    ensures Ends(tail) <==> tail == "" || !InWord(tail[0])
  {
  }

  function OpToks(op: string, v: Value): seq<Tok> {
    AsWords(OpWords(op)) + [Bound(v)]
  }

  function CondToks(c: Cond): seq<Tok> {
    [Word(c.col)] + OpToks(c.op, c.v)
  }

  lemma HeadWord(w: string, s: string, toks: seq<Tok>, any: bool)
    requires w != "" && AllWord(w) && TextSays(s, toks, any) && Ends(s) && s != ""
    ensures TextSays(w + s, [Word(w)] + toks, any)
  {
    hide *;
    WordSays(w);
    TextCat(w, [Word(w)], false, s, toks, any);
  }

  lemma BlankEnds(s: string)
    ensures Ends(" " + s) && " " + s != ""
  {
  }

  lemma CondSays(c: Cond)
    requires CondChecked(c)
    ensures Says(CondTemplate(c), CondToks(c), false)
  {
    var toks := AsWords(OpWords(c.op));
    CondParts(c);
    hide *;
    OpSays(c.op);
    IdentifierIsWord(c.col);
    BlankEnds(c.op + " ");
    HeadWord(c.col, " " + c.op + " ", toks, true);
    NothingSays();
    AroundSays(c.col + " " + c.op + " ", [Word(c.col)] + toks, c.v, "", [], true);
    CondSums(c, toks);
    Weaken(CondTemplate(c), CondToks(c));
  }

  lemma CondParts(c: Cond)
    requires CondChecked(c)
    ensures ValidIdentifier(c.col) && ValidOperator(c.op)
    ensures CondTemplate(c) == Around(c.col + " " + c.op + " ", c.v, "")
    ensures c.col + " " + c.op + " " == c.col + (" " + c.op + " ") && " " + c.op + " " == " " + (c.op + " ")
    ensures CondToks(c) == [Word(c.col)] + (AsWords(OpWords(c.op)) + [Bound(c.v)])
  {
  }

  lemma CondSums(c: Cond, toks: seq<Tok>)
    ensures ([Word(c.col)] + toks) + ([Bound(c.v)] + []) == [Word(c.col)] + (toks + [Bound(c.v)])
  {
  }

  lemma OpRead(op: string, v: Value, rest: Rest)
    requires ValidOperator(op)
    ensures ReadOp(OpToks(op, v) + rest) == Some((op, v, rest)) && |OpToks(op, v)| >= 2
    ensures OpToks(op, v)[0].Word? && OpToks(op, v)[0].s !in {"IN", "IS", "#>>", "@>"}
  {
    OperatorIsWords(op);
    if |op| > 4 && op[3] == ' ' {
      WordsTwo(op[..3], op[4..]);
      assert op == op[..3] + " " + op[4..];
      assert OpToks(op, v) + rest == [Word(op[..3]), Word(op[4..]), Bound(v)] + rest;
    } else {
      WordsOne(op);
      assert OpToks(op, v) + rest == [Word(op), Bound(v)] + rest;
    }
  }

  lemma CondRead(c: Cond, rest: Rest)
    requires CondChecked(c)
    ensures ReadCond(CondToks(c) + rest) == Some((c, rest))
  {
    OpRead(c.op, c.v, rest);
    hide OpToks, ReadOp, ValidOperator, ValidIdentifier;
    assert (CondToks(c) + rest)[1..] == OpToks(c.op, c.v) + rest;
  }

  // ---- every predicate ----

  const ZERO: seq<Tok> := [Word("0"), Word("="), Word("1")]

  function CondsToks(group: seq<Cond>): seq<seq<Tok>> {
    seq(|group|, i requires 0 <= i < |group| => CondToks(group[i]))
  }

  function BoundToks(values: seq<Value>): seq<seq<Tok>> {
    seq(|values|, i requires 0 <= i < |values| => [Bound(values[i])])
  }

  /** The words and signs each predicate is built as. */
  function PredToks(p: Pred, d: Dialect): seq<Tok>
    requires !p.Raw?
  {
    match p
    case Cmp(c) => CondToks(c)
    case In(col, values) =>
      if values == [] then ZERO
      else [Word(col), Word("IN"), Open] + (JoinToks(BoundToks(values), [Comma]) + [Close])
    case IsNull(col, isNull) =>
      if isNull then [Word(col), Word("IS"), Word("NULL")] else [Word(col), Word("IS"), Word("NOT"), Word("NULL")]
    case Or(group) => if group == [] then ZERO else [Open] + (JoinToks(CondsToks(group), [Word("OR")]) + [Close])
    case JsonCmp(c, segs) =>
      if d.Sqlite? then
        [Word("json_extract"), Open, Word(c.col), Comma, Bound(Text(SqlitePath(segs))), Close] + OpToks(c.op, c.v)
      else if Casts(c.v).0 == "" then [Word(c.col), Word("#>>"), Bound(Text(PgPath(segs)))] + OpToks(c.op, c.v)
      else
        [Open, Word(c.col), Word("#>>"), Bound(Text(PgPath(segs))), Close, Word(Casts(c.v).1[1..])] + OpToks(c.op, c.v)
    case JsonContains(col, v) => [Word(col), Word("@>"), Bound(v), Word("::jsonb")]
  }

  lemma ZeroSays()
    ensures Says([Lit("0 = 1")], ZERO, false)
  {
    assert AllWord("0") && AllWord("=") && AllWord("1");
    assert " " + "=" == " =" && " " + "= 1" == " = 1" && " " + "1" == " 1" && " =" + " 1" == " = 1"
      && "0" + " = 1" == "0 = 1";
    assert [Word("=")] + [Word("1")] == [Word("="), Word("1")] && [Word("0")] + [Word("="), Word("1")] == ZERO;
    hide Lex, Says, AllWord, Ends;
    NextWord("=");
    NextWord("1");
    BlankEnds("1");
    BlankEnds("= 1");
    TextCat(" =", [Word("=")], false, " 1", [Word("1")], false);
    HeadWord("0", " = 1", [Word("="), Word("1")], false);
  }

  lemma BracketSays(before: string, tb: seq<Tok>, t: Template, tt: seq<Tok>)
    requires TextSays(before, tb, true) && Says(t, tt, false)
    ensures Says(Bracketed(before, t), tb + (tt + [Close]), false)
  {
    hide Lex, Says, Render, Ends;
    Signs();
    One(Lit(")"));
    Cat(t, tt, false, [Lit(")")], [Close], true);
    Cat([Lit(before)], tb, true, t + [Lit(")")], tt + [Close], true);
    Weaken(Bracketed(before, t), tb + (tt + [Close]));
  }

  lemma InSays(col: string, values: seq<Value>, d: Dialect)
    requires ValidIdentifier(col) && values != []
    ensures Says(PredTemplate(In(col, values), d), PredToks(In(col, values), d), false)
  {
    assert AllWord("IN") && " " + "IN" + " " == " IN " && " " + "IN (" == " IN (" && " IN " + "(" == " IN (";
    assert [Word("IN")] + [Open] == [Word("IN"), Open];
    assert [Word(col)] + [Word("IN"), Open] == [Word(col), Word("IN"), Open];
    hide Lex, Says, AllWord, Ends, Bracketed, JoinAll, JoinToks, ValidIdentifier;
    IdentifierIsWord(col);
    BetweenWord("IN");
    Signs();
    TextCat(" IN ", [Word("IN")], true, "(", [Open], true);
    BlankEnds("IN (");
    HeadWord(col, " IN (", [Word("IN"), Open], true);
    forall i | 0 <= i < |values|
      ensures Says(MarkTemplates(values)[i], BoundToks(values)[i], false)
    {
      MarkSays(values[i]);
      Weaken([Mark(values[i])], [Bound(values[i])]);
    }
    CommaSays();
    JoinSays(MarkTemplates(values), BoundToks(values), ", ", [Comma]);
    BracketSays(col + " IN (", [Word(col), Word("IN"), Open],
                JoinAll(MarkTemplates(values), ", "), JoinToks(BoundToks(values), [Comma]));
  }

  lemma NullWords()
    ensures TextSays(" IS NULL", [Word("IS"), Word("NULL")], false) && Ends(" IS NULL")
    ensures TextSays(" IS NOT NULL", [Word("IS"), Word("NOT"), Word("NULL")], false) && Ends(" IS NOT NULL")
  {
    assert AllWord("IS") && AllWord("NOT") && AllWord("NULL");
    assert " " + "IS" == " IS" && " " + "NOT" == " NOT" && " " + "NULL" == " NULL";
    assert " NOT" + " NULL" == " NOT NULL" && " IS" + " NULL" == " IS NULL" && " IS" + " NOT NULL" == " IS NOT NULL";
    assert [Word("IS")] + [Word("NULL")] == [Word("IS"), Word("NULL")];
    assert [Word("IS")] + ([Word("NOT")] + [Word("NULL")]) == [Word("IS"), Word("NOT"), Word("NULL")];
    assert Ends(" NULL") && Ends(" NOT NULL") && Ends(" IS NULL") && Ends(" IS NOT NULL");
    hide *;
    NextWord("IS");
    NextWord("NOT");
    NextWord("NULL");
    TextCat(" NOT", [Word("NOT")], false, " NULL", [Word("NULL")], false);
    TextCat(" IS", [Word("IS")], false, " NULL", [Word("NULL")], false);
    TextCat(" IS", [Word("IS")], false, " NOT NULL", [Word("NOT")] + [Word("NULL")], false);
  }

  lemma NullSays(col: string, isNull: bool, d: Dialect)
    requires ValidIdentifier(col)
    ensures Says(PredTemplate(IsNull(col, isNull), d), PredToks(IsNull(col, isNull), d), false)
  {
    assert PredTemplate(IsNull(col, isNull), d) == [Lit(col + " IS " + (if isNull then "" else "NOT ") + "NULL")];
    assert col + " IS " + "" + "NULL" == col + " IS NULL" && col + " IS " + "NOT " + "NULL" == col + " IS NOT NULL";
    assert [Word(col)] + [Word("IS"), Word("NULL")] == [Word(col), Word("IS"), Word("NULL")];
    assert [Word(col)] + [Word("IS"), Word("NOT"), Word("NULL")] == [Word(col), Word("IS"), Word("NOT"), Word("NULL")];
    IdentifierIsWord(col);
    hide Lex, Says, AllWord, Ends, ValidIdentifier, PredTemplate;
    NullWords();
    HeadWord(col, " IS NULL", [Word("IS"), Word("NULL")], false);
    HeadWord(col, " IS NOT NULL", [Word("IS"), Word("NOT"), Word("NULL")], false);
  }

  lemma OrSays(group: seq<Cond>, d: Dialect)
    requires group != [] && forall i :: 0 <= i < |group| ==> CondChecked(group[i])
    ensures Says(PredTemplate(Or(group), d), PredToks(Or(group), d), false)
  {
    assert AllWord("OR") && " " + "OR" + " " == " OR " && " " + "OR " == " OR ";
    hide Lex, Says, AllWord, Ends, Bracketed, JoinAll, JoinToks, CondChecked, CondTemplate, CondToks;
    forall i | 0 <= i < |group|
      ensures Says(CondTemplates(group)[i], CondsToks(group)[i], false)
    {
      CondSays(group[i]);
    }
    BetweenWord("OR");
    BlankEnds("OR ");
    JoinSays(CondTemplates(group), CondsToks(group), " OR ", [Word("OR")]);
    Signs();
    BracketSays("(", [Open], JoinAll(CondTemplates(group), " OR "), JoinToks(CondsToks(group), [Word("OR")]));
  }

  lemma ContainsSays(col: string, v: Value, d: Dialect)
    requires ValidIdentifier(col)
    ensures Says(PredTemplate(JsonContains(col, v), d), PredToks(JsonContains(col, v), d), false)
  {
    assert AllWord("@>") && AllWord("::jsonb") && " " + "@>" + " " == " @> " && " " + "@> " == " @> ";
    assert ([Word(col)] + [Word("@>")]) + ([Bound(v)] + [Word("::jsonb")])
      == [Word(col), Word("@>"), Bound(v), Word("::jsonb")];
    hide Lex, Says, AllWord, Ends, Around, ValidIdentifier;
    IdentifierIsWord(col);
    BetweenWord("@>");
    BlankEnds("@> ");
    HeadWord(col, " @> ", [Word("@>")], true);
    WordSays("::jsonb");
    AroundSays(col + " @> ", [Word(col)] + [Word("@>")], v, "::jsonb", [Word("::jsonb")], false);
  }

  /** Two marks, the first with the path and the second with the value compared. */
  lemma TwoSays(a: string, ta: seq<Tok>, v: Value, b: string, tb: seq<Tok>, w: Value)
    requires TextSays(a, ta, true) && TextSays(b, tb, true)
    ensures Says(Around(a, v, "") + Around(b, w, ""), (ta + [Bound(v)]) + (tb + [Bound(w)]), false)
  {
    assert ta + ([Bound(v)] + []) == ta + [Bound(v)] && tb + ([Bound(w)] + []) == tb + [Bound(w)];
    hide *;
    NothingSays();
    AroundSays(a, ta, v, "", [], true);
    AroundSays(b, tb, w, "", [], true);
    Cat(Around(a, v, ""), ta + [Bound(v)], true, Around(b, w, ""), tb + [Bound(w)], true);
    Weaken(Around(a, v, "") + Around(b, w, ""), (ta + [Bound(v)]) + (tb + [Bound(w)]));
  }

  lemma SqliteSays(c: Cond, segs: seq<Seg>)
    requires CondChecked(c)
    ensures Says(PredTemplate(JsonCmp(c, segs), Sqlite), PredToks(JsonCmp(c, segs), Sqlite), false)
  {
    var path := Text(SqlitePath(segs));
    var ops := AsWords(OpWords(c.op));
    CondParts(c);
    SqliteTemplate(c, segs);
    SqliteSums(c, path, ops);
    hide *;
    OpSays(c.op);
    ExtractSays(c.col);
    Signs();
    TextCat(")", [Close], true, " " + c.op + " ", ops, true);
    TwoSays("json_extract(" + c.col + ", ", [Word("json_extract"), Open, Word(c.col), Comma], path,
            ")" + (" " + c.op + " "), [Close] + ops, c.v);
  }

  lemma SqliteTemplate(c: Cond, segs: seq<Seg>)
    ensures PredTemplate(JsonCmp(c, segs), Sqlite)
      == Around("json_extract(" + c.col + ", ", Text(SqlitePath(segs)), "") + Around(")" + (" " + c.op + " "), c.v, "")
    ensures PredToks(JsonCmp(c, segs), Sqlite)
      == [Word("json_extract"), Open, Word(c.col), Comma, Bound(Text(SqlitePath(segs))), Close]
         + (AsWords(OpWords(c.op)) + [Bound(c.v)])
  {
    hide Around, SqlitePath, AsWords, OpWords;
    assert ")" + (" " + c.op + " ") == ") " + c.op + " ";
  }

  lemma SqliteSums(c: Cond, path: Value, ops: seq<Tok>)
    ensures ([Word("json_extract"), Open, Word(c.col), Comma] + [Bound(path)]) + (([Close] + ops) + [Bound(c.v)])
      == [Word("json_extract"), Open, Word(c.col), Comma, Bound(path), Close] + (ops + [Bound(c.v)])
  {
  }

  /** `json_extract(col, ` */
  lemma ExtractSays(col: string)
    requires ValidIdentifier(col)
    ensures TextSays("json_extract(" + col + ", ", [Word("json_extract"), Open, Word(col), Comma], true)
  {
    assert AllWord("json_extract") && "json_extract" + "(" == "json_extract(";
    assert "json_extract(" + (col + ", ") == "json_extract(" + col + ", ";
    assert ([Word("json_extract")] + [Open]) + ([Word(col)] + [Comma])
      == [Word("json_extract"), Open, Word(col), Comma];
    IdentifierIsWord(col);
    Commas();
    hide *;
    WordSays("json_extract");
    Signs();
    CommaSays();
    TextCat("json_extract", [Word("json_extract")], false, "(", [Open], true);
    HeadWord(col, ", ", [Comma], true);
    TextCat("json_extract" + "(", [Word("json_extract")] + [Open], true, col + ", ", [Word(col)] + [Comma], true);
  }

  lemma Commas()
    ensures Ends("(") && "(" != "" && ", " != ""
  {
  }

  lemma PgPlainSays(c: Cond, segs: seq<Seg>)
    requires CondChecked(c) && Casts(c.v).0 == ""
    ensures Says(PredTemplate(JsonCmp(c, segs), Postgres), PredToks(JsonCmp(c, segs), Postgres), false)
  {
    var ops := AsWords(OpWords(c.op));
    CondParts(c);
    PgPlainTemplate(c, segs);
    Regrouped([Word(c.col), Word("#>>"), Bound(Text(PgPath(segs)))], ops, [Bound(c.v)]);
    assert [Word(c.col), Word("#>>")] + [Bound(Text(PgPath(segs)))]
      == [Word(c.col), Word("#>>"), Bound(Text(PgPath(segs)))];
    hide *;
    OpSays(c.op);
    ArrowSays(c.col);
    TwoSays(c.col + " #>> ", [Word(c.col), Word("#>>")], Text(PgPath(segs)), " " + c.op + " ", ops, c.v);
  }

  lemma PgPlainTemplate(c: Cond, segs: seq<Seg>)
    requires Casts(c.v).0 == ""
    ensures PredTemplate(JsonCmp(c, segs), Postgres)
      == Around(c.col + " #>> ", Text(PgPath(segs)), "") + Around(" " + c.op + " ", c.v, "")
    ensures PredToks(JsonCmp(c, segs), Postgres)
      == [Word(c.col), Word("#>>"), Bound(Text(PgPath(segs)))] + (AsWords(OpWords(c.op)) + [Bound(c.v)])
  {
    assert Casts(c.v) == ("", "");
    assert "" + c.col + " #>> " == c.col + " #>> " && "" + " " + c.op + " " == " " + c.op + " ";
    hide Around, PgPath, AsWords, OpWords;
  }

  /** `col #>> ` */
  lemma ArrowSays(col: string)
    requires ValidIdentifier(col)
    ensures TextSays(col + " #>> ", [Word(col), Word("#>>")], true)
  {
    assert AllWord("#>>") && " " + "#>>" + " " == " #>> " && " " + "#>> " == " #>> ";
    assert [Word(col)] + [Word("#>>")] == [Word(col), Word("#>>")];
    IdentifierIsWord(col);
    hide *;
    BetweenWord("#>>");
    BlankEnds("#>> ");
    HeadWord(col, " #>> ", [Word("#>>")], true);
  }

  lemma PgCastSays(c: Cond, segs: seq<Seg>)
    requires CondChecked(c) && Casts(c.v).0 != ""
    ensures Says(PredTemplate(JsonCmp(c, segs), Postgres), PredToks(JsonCmp(c, segs), Postgres), false)
  {
    var path := Text(PgPath(segs));
    var ops := AsWords(OpWords(c.op));
    var cast := Casts(c.v).1[1..];
    CastIs(c.v);
    CondParts(c);
    PgCastTemplate(c, segs, cast);
    PgCastSums(c, path, cast, ops);
    hide *;
    OpSays(c.op);
    ArrowSays(c.col);
    Signs();
    TextCat("(", [Open], true, c.col + " #>> ", [Word(c.col), Word("#>>")], true);
    WordSays(cast);
    TextCat(")", [Close], true, cast, [Word(cast)], false);
    BlankEnds(c.op + " ");
    TextCat(")" + cast, [Close] + [Word(cast)], false, " " + c.op + " ", ops, true);
    TwoSays("(" + (c.col + " #>> "), [Open] + [Word(c.col), Word("#>>")], path,
            (")" + cast) + (" " + c.op + " "), ([Close] + [Word(cast)]) + ops, c.v);
  }

  lemma PgCastTemplate(c: Cond, segs: seq<Seg>, cast: string)
    requires Casts(c.v) == ("(", ")" + cast) && cast == Casts(c.v).1[1..]
    ensures PredTemplate(JsonCmp(c, segs), Postgres)
      == Around("(" + (c.col + " #>> "), Text(PgPath(segs)), "") + Around((")" + cast) + (" " + c.op + " "), c.v, "")
    ensures PredToks(JsonCmp(c, segs), Postgres)
      == [Open, Word(c.col), Word("#>>"), Bound(Text(PgPath(segs))), Close, Word(cast)]
         + (AsWords(OpWords(c.op)) + [Bound(c.v)])
  {
    assert "(" + (c.col + " #>> ") == "(" + c.col + " #>> ";
    assert (")" + cast) + (" " + c.op + " ") == (")" + cast) + " " + c.op + " ";
    hide Around, PgPath, AsWords, OpWords, Casts;
  }

  lemma PgCastSums(c: Cond, path: Value, cast: string, ops: seq<Tok>)
    ensures (([Open] + [Word(c.col), Word("#>>")]) + [Bound(path)]) + ((([Close] + [Word(cast)]) + ops) + [Bound(c.v)])
      == [Open, Word(c.col), Word("#>>"), Bound(path), Close, Word(cast)] + (ops + [Bound(c.v)])
  {
  }

  lemma CastIs(v: Value)
    ensures Casts(v).0 == "" || Casts(v).0 == "("
    ensures Casts(v).0 != "" ==> Casts(v).1 != ""
    ensures Casts(v).0 != "" ==>
      var cast := Casts(v).1[1..]; cast != "" && AllWord(cast) && Casts(v).1 == ")" + cast
  {
    assert ")::numeric"[1..] == "::numeric" && ")::boolean"[1..] == "::boolean";
    assert AllWord("::numeric") && AllWord("::boolean");
    hide AllWord;
  }

  lemma PredSays(p: Pred, d: Dialect)
    requires !p.Raw? && PredChecked(p)
    ensures Says(PredTemplate(p, d), PredToks(p, d), false)
  {
    match p
    case Cmp(c) =>
      CondSays(c);
      assert PredTemplate(p, d) == CondTemplate(c) && PredToks(p, d) == CondToks(c);
    case In(col, values) => if values == [] { ZeroSays(); } else { InSays(col, values, d); }
    case IsNull(col, isNull) => NullSays(col, isNull, d);
    case Or(group) => if group == [] { ZeroSays(); } else { OrSays(group, d); }
    case JsonCmp(c, segs) =>
      if d.Sqlite? {
        SqliteSays(c, segs);
      } else if Casts(c.v).0 == "" {
        PgPlainSays(c, segs);
      } else {
        PgCastSays(c, segs);
      }
    case JsonContains(col, v) => ContainsSays(col, v, d);
    hide Says, CondTemplate, CondToks, Bracketed, JoinAll, JoinToks, Around, OpToks, Casts;
  }

  // ---- each predicate read back ----

  lemma ReadsIs<T(!new)>(read: Rest -> Option<(T, Rest)>, toks: seq<Tok>, x: T)
    requires forall rest {:trigger toks + rest} :: Plain(rest) ==> read(toks + rest) == Some((x, rest))
    ensures Reads(read, toks, x)
  {
  }

  lemma CondReads(c: Cond)
    requires CondChecked(c)
    ensures Reads(ReadCond, CondToks(c), c)
  {
    hide CondToks, CondChecked, ReadCond;
    forall rest | Plain(rest)
      ensures ReadCond(CondToks(c) + rest) == Some((c, rest))
    {
      CondRead(c, rest);
    }
    ReadsIs(ReadCond, CondToks(c), c);
  }

  lemma ValueReads(v: Value)
    ensures Reads(ReadValue, [Bound(v)], v)
  {
  }

  lemma CondAtom(c: Cond, rest: Rest)
    requires CondChecked(c)
    ensures ReadAtom(CondToks(c) + rest) == Some((Compare(c), rest))
  {
    var ts := CondToks(c) + rest;
    OpRead(c.op, c.v, rest);
    assert ts[1..] == OpToks(c.op, c.v) + rest && ts[1] == OpToks(c.op, c.v)[0];
    IdentifierIsWord(c.col);
    CondRead(c, rest);
    hide OpToks, ReadOp, ReadCond, ValidOperator, ValidIdentifier;
  }

  lemma ZeroAtom(rest: Rest)
    ensures ReadAtom(ZERO + rest) == Some((Never, rest))
  {
    assert (ZERO + rest)[3..] == rest;
  }

  lemma InAtom(col: string, values: seq<Value>, d: Dialect, rest: Rest)
    requires ValidIdentifier(col) && values != []
    ensures ReadAtom(PredToks(In(col, values), d) + rest) == Some((OneOf(col, values), rest))
  {
    var list := JoinToks(BoundToks(values), [Comma]);
    var ts := PredToks(In(col, values), d) + rest;
    assert ts[3..] == list + ([Close] + rest) by {
      Enclosed([Word(col), Word("IN"), Open], list, [Close], rest);
    }
    forall i | 0 <= i < |values|
      ensures Reads(ReadValue, BoundToks(values)[i], values[i])
    {
      ValueReads(values[i]);
    }
    hide JoinToks, ReadValue, Reads, ReadList;
    ListRead(ReadValue, Comma, BoundToks(values), values, [Close] + rest, []);
    assert [] + values == values && ([Close] + rest)[1..] == rest;
    IdentifierIsWord(col);
    hide ValidIdentifier;
  }

  lemma OrAtom(group: seq<Cond>, d: Dialect, rest: Rest)
    requires group != [] && forall i :: 0 <= i < |group| ==> CondChecked(group[i])
    ensures ReadAtom(PredToks(Or(group), d) + rest) == Some((AnyOf(group), rest))
  {
    var list := JoinToks(CondsToks(group), [Word("OR")]);
    var ts := PredToks(Or(group), d) + rest;
    assert ts[1..] == list + ([Close] + rest) by {
      Enclosed([Open], list, [Close], rest);
    }
    forall i | 0 <= i < |group|
      ensures Reads(ReadCond, CondsToks(group)[i], group[i])
    {
      CondReads(group[i]);
    }
    GroupHead(group);
    hide JoinToks, ReadCond, Reads, ReadList, CondToks, CondChecked;
    ListRead(ReadCond, Word("OR"), CondsToks(group), group, [Close] + rest, []);
    assert [] + group == group && ([Close] + rest)[1..] == rest;
  }

  /** A group begins with a column and an operator, never with a document path. */
  lemma GroupHead(group: seq<Cond>)
    requires group != [] && CondChecked(group[0])
    ensures var list := JoinToks(CondsToks(group), [Word("OR")]); |list| >= 3 && list[1] != Word("#>>")
  {
    var c := group[0];
    OpRead(c.op, c.v, []);
    assert CondToks(c)[1] == OpToks(c.op, c.v)[0];
    hide OpToks;
  }

  lemma PathRead(op: string, v: Value, col: string, path: Value, cast: string, rest: Rest)
    requires ValidOperator(op)
    ensures ReadPath(col, path, cast, OpToks(op, v) + rest) == Some((AtPath(Cond(col, op, v), path, cast), rest))
    ensures |OpToks(op, v)| >= 2
  {
    OpRead(op, v, rest);
  }

  lemma SqliteAtom(c: Cond, path: Value, rest: Rest)
    requires CondChecked(c)
    ensures ReadAtom(([Word("json_extract"), Open, Word(c.col), Comma, Bound(path), Close] + OpToks(c.op, c.v)) + rest)
      == Some((AtPath(c, path, ""), rest))
  {
    var head := [Word("json_extract"), Open, Word(c.col), Comma, Bound(path), Close];
    var ts := (head + OpToks(c.op, c.v)) + rest;
    assert ts[6..] == OpToks(c.op, c.v) + rest && forall i :: 0 <= i < 6 ==> ts[i] == head[i];
    PathRead(c.op, c.v, c.col, path, "", rest);
    hide OpToks, ReadPath, ReadOp, ReadCond, ReadList, ReadBracket, CondChecked;
  }

  lemma PgPlainAtom(c: Cond, path: Value, rest: Rest)
    requires CondChecked(c)
    ensures ReadAtom(([Word(c.col), Word("#>>"), Bound(path)] + OpToks(c.op, c.v)) + rest)
      == Some((AtPath(c, path, ""), rest))
  {
    var head := [Word(c.col), Word("#>>"), Bound(path)];
    var ts := (head + OpToks(c.op, c.v)) + rest;
    assert ts[3..] == OpToks(c.op, c.v) + rest && forall i :: 0 <= i < 3 ==> ts[i] == head[i];
    PathRead(c.op, c.v, c.col, path, "", rest);
    IdentifierIsWord(c.col);
    hide OpToks, ReadPath, ReadOp, ReadCond, ReadList, ReadBracket, CondChecked;
  }

  lemma PgCastAtom(c: Cond, path: Value, cast: string, rest: Rest)
    requires CondChecked(c)
    ensures ReadAtom(([Open, Word(c.col), Word("#>>"), Bound(path), Close, Word(cast)] + OpToks(c.op, c.v)) + rest)
      == Some((AtPath(c, path, cast), rest))
  {
    var head := [Open, Word(c.col), Word("#>>"), Bound(path), Close, Word(cast)];
    var ts := (head + OpToks(c.op, c.v)) + rest;
    assert ts[1..][5..] == OpToks(c.op, c.v) + rest && forall i :: 0 <= i < 6 ==> ts[i] == head[i];
    PathRead(c.op, c.v, c.col, path, cast, rest);
    assert |OpToks(c.op, c.v)| >= 2;
    hide OpToks, ReadPath, ReadOp, ReadCond, ReadList, CondChecked;
  }

  lemma JsonAtom(c: Cond, segs: seq<Seg>, d: Dialect, rest: Rest)
    requires CondChecked(c)
    ensures var p := JsonCmp(c, segs); ReadAtom(PredToks(p, d) + rest) == Some((SaidBy(p, d), rest))
  {
    hide OpToks, ReadAtom, CondChecked, PgPath, SqlitePath;
    if d.Sqlite? {
      SqliteAtom(c, Text(SqlitePath(segs)), rest);
    } else if Casts(c.v).0 == "" {
      PgPlainAtom(c, Text(PgPath(segs)), rest);
    } else {
      PgCastAtom(c, Text(PgPath(segs)), Casts(c.v).1[1..], rest);
    }
  }

  lemma NullAtom(col: string, isNull: bool, rest: Rest)
    requires ValidIdentifier(col)
    ensures ReadAtom(PredToks(IsNull(col, isNull), Sqlite) + rest) == Some((NullTest(col, isNull), rest))
  {
    var toks := PredToks(IsNull(col, isNull), Sqlite);
    assert (toks + rest)[|toks|..] == rest && forall i :: 0 <= i < |toks| ==> (toks + rest)[i] == toks[i];
    IdentifierIsWord(col);
    hide ReadCond, ReadBracket, ReadPath, ReadIn, ValidIdentifier;
  }

  lemma ContainsAtom(col: string, v: Value, rest: Rest)
    requires ValidIdentifier(col)
    ensures ReadAtom([Word(col), Word("@>"), Bound(v), Word("::jsonb")] + rest) == Some((Contained(col, v), rest))
  {
    var toks := [Word(col), Word("@>"), Bound(v), Word("::jsonb")];
    assert (toks + rest)[4..] == rest && forall i :: 0 <= i < 4 ==> (toks + rest)[i] == toks[i];
    IdentifierIsWord(col);
    hide ReadCond, ReadBracket, ReadPath, ReadIn, ValidIdentifier;
  }

  lemma AtomRead(p: Pred, d: Dialect, rest: Rest)
    requires !p.Raw? && PredChecked(p)
    ensures ReadAtom(PredToks(p, d) + rest) == Some((SaidBy(p, d), rest))
  {
    match p
    case Cmp(c) =>
      CondAtom(c, rest);
      assert PredToks(p, d) == CondToks(c);
    case In(col, values) => if values == [] { ZeroAtom(rest); } else { InAtom(col, values, d, rest); }
    case IsNull(col, isNull) => NullAtom(col, isNull, rest);
    case Or(group) => if group == [] { ZeroAtom(rest); } else { OrAtom(group, d, rest); }
    case JsonCmp(c, segs) => JsonAtom(c, segs, d, rest);
    case JsonContains(col, v) => ContainsAtom(col, v, rest);
    hide ReadAtom, CondToks, JoinToks, OpToks, ValidIdentifier;
  }

  // ---- the WHERE clause ----

  function PredsToks(preds: seq<Pred>, d: Dialect): seq<seq<Tok>>
    requires forall i :: 0 <= i < |preds| ==> !preds[i].Raw?
  {
    seq(|preds|, i requires 0 <= i < |preds| => PredToks(preds[i], d))
  }

  /** What the predicates say, in order. */
  function SaidByAll(preds: seq<Pred>, d: Dialect): seq<Said>
    requires forall i :: 0 <= i < |preds| ==> !preds[i].Raw?
  {
    seq(|preds|, i requires 0 <= i < |preds| => SaidBy(preds[i], d))
  }

  function WhereToks(preds: seq<Pred>, d: Dialect): seq<Tok>
    requires forall i :: 0 <= i < |preds| ==> !preds[i].Raw?
  {
    if preds == [] then [] else [Word("WHERE")] + JoinToks(PredsToks(preds, d), [Word("AND")])
  }

  lemma WhereSays(preds: seq<Pred>, d: Dialect)
    requires forall i :: 0 <= i < |preds| ==> !preds[i].Raw? && PredChecked(preds[i])
    ensures Says(WhereTemplate(preds, d), WhereToks(preds, d), false) && Ends(Render(WhereTemplate(preds, d)))
  {
    assert AllWord("WHERE") && " " + "WHERE" + " " == " WHERE " && " " + "WHERE " == " WHERE ";
    assert AllWord("AND") && " " + "AND" + " " == " AND " && " " + "AND " == " AND ";
    NothingSays();
    assert Render([]) == "";
    hide Lex, Says, AllWord, Ends, PredTemplate, PredToks, PredChecked, Render, JoinAll, JoinToks;
    Signs();
    if preds == [] {
      Weaken([], []);
    } else {
      forall i | 0 <= i < |preds|
        ensures Says(PredTemplates(preds, d)[i], PredsToks(preds, d)[i], false)
      {
        PredSays(preds[i], d);
      }
      BetweenWord("WHERE");
      BetweenWord("AND");
      BlankEnds("AND ");
      BlankEnds("WHERE ");
      JoinSays(PredTemplates(preds, d), PredsToks(preds, d), " AND ", [Word("AND")]);
      Cat([Lit(" WHERE ")], [Word("WHERE")], true,
          JoinAll(PredTemplates(preds, d), " AND "), JoinToks(PredsToks(preds, d), [Word("AND")]), false);
      SepEnds(" WHERE ", JoinAll(PredTemplates(preds, d), " AND "));
    }
  }

  /** A raw fragment aside, the WHERE clause reads back as what the predicates say, in order. */
  lemma WhereRead(preds: seq<Pred>, d: Dialect, rest: Rest)
    requires forall i :: 0 <= i < |preds| ==> !preds[i].Raw? && PredChecked(preds[i])
    requires Plain(rest) && (rest == [] || (rest[0] != Word("WHERE") && rest[0] != Word("AND")))
    ensures ReadWhere(WhereToks(preds, d) + rest) == Some((SaidByAll(preds, d), rest))
  {
    hide *;
    NoWhereRead(rest);
    if preds == [] {
      NoPreds(d, rest);
    } else {
      WhereIs(preds, d, rest);
      AtomsRead(preds, d, rest);
      WhereOpened(JoinToks(PredsToks(preds, d), [Word("AND")]) + rest);
    }
  }

  lemma NoWhereRead(rest: Rest)
    ensures rest == [] || rest[0] != Word("WHERE") ==> ReadWhere(rest) == Some(([], rest))
  {
    hide ReadList, ReadAtom;
  }

  lemma WhereOpened(ts: Rest)
    ensures ReadWhere([Word("WHERE")] + ts) == ReadList(ReadAtom, Word("AND"), ts, [])
  {
    hide ReadList, ReadAtom;
    assert ([Word("WHERE")] + ts)[1..] == ts;
  }

  lemma NoPreds(d: Dialect, rest: Rest)
    ensures WhereToks([], d) + rest == rest && SaidByAll([], d) == []
  {
    assert WhereToks([], d) == [];
    hide *;
  }

  lemma WhereIs(preds: seq<Pred>, d: Dialect, rest: Rest)
    requires preds != [] && forall i :: 0 <= i < |preds| ==> !preds[i].Raw?
    ensures WhereToks(preds, d) + rest == [Word("WHERE")] + (JoinToks(PredsToks(preds, d), [Word("AND")]) + rest)
  {
    Regrouped([Word("WHERE")], JoinToks(PredsToks(preds, d), [Word("AND")]), rest);
    hide JoinToks, PredsToks;
  }

  lemma AtomsRead(preds: seq<Pred>, d: Dialect, rest: Rest)
    requires preds != [] && forall i :: 0 <= i < |preds| ==> !preds[i].Raw? && PredChecked(preds[i])
    requires Plain(rest) && (rest == [] || rest[0] != Word("AND"))
    ensures ReadList(ReadAtom, Word("AND"), JoinToks(PredsToks(preds, d), [Word("AND")]) + rest, [])
      == Some((SaidByAll(preds, d), rest))
  {
    var tss, xs := PredsToks(preds, d), SaidByAll(preds, d);
    assert forall i :: 0 <= i < |preds| ==> tss[i] == PredToks(preds[i], d) && xs[i] == SaidBy(preds[i], d);
    assert |tss| == |xs| == |preds| && Plain(rest) && [] + xs == xs;
    hide *;
    forall i | 0 <= i < |preds|
      ensures Reads(ReadAtom, tss[i], xs[i])
    {
      AtomReads(preds[i], d);
    }
    ListRead(ReadAtom, Word("AND"), tss, xs, rest, []);
  }

  lemma AtomReads(p: Pred, d: Dialect)
    requires !p.Raw? && PredChecked(p)
    ensures Reads(ReadAtom, PredToks(p, d), SaidBy(p, d))
  {
    hide PredToks, PredChecked, ReadAtom, SaidBy;
    forall rest | Plain(rest)
      ensures ReadAtom(PredToks(p, d) + rest) == Some((SaidBy(p, d), rest))
    {
      AtomRead(p, d, rest);
    }
    ReadsIs(ReadAtom, PredToks(p, d), SaidBy(p, d));
  }
}
