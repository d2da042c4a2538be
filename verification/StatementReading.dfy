/** Whole statements read back: what a chain of calls asks for is what its SQL says. */
module StatementReading {
  import opened Wrappers
  import opened Decimals
  import opened Sql
  import opened Identifiers
  import opened JsonPath
  import opened Builder
  import opened SqlReading
  import Selecting
  import Updates

  // ---- the reader ----

  datatype Projected = Column(name: string) | PathAs(col: string, path: Value, alias: string)
  datatype Joined = Joined(left: bool, other: string, l: string, r: string)

  datatype Statement = Statement(
    distinct: bool, columns: seq<Projected>, table: string, joins: seq<Joined>, preds: seq<Said>,
    groupBy: seq<string>, order: seq<(string, bool)>, limit: Option<int>, offset: Option<int>, lock: Option<RowLock>)

  function ReadColumn(ts: Rest): Option<(Projected, Rest)> {
    if |ts| >= 8 && ts[0] == Word("json_extract") && ts[1].Open? && ts[2].Word? && ts[3].Comma? && ts[4].Bound?
       && ts[5].Close? && ts[6] == Word("AS") && ts[7].Word? then
      Some((PathAs(ts[2].s, ts[4].v, ts[7].s), ts[8..]))
    else if |ts| >= 5 && ts[0].Word? && ts[1] == Word("#>>") && ts[2].Bound? && ts[3] == Word("AS") && ts[4].Word? then
      Some((PathAs(ts[0].s, ts[2].v, ts[4].s), ts[5..]))
    else if ts != [] && ts[0].Word? then Some((Column(ts[0].s), ts[1..]))
    else None
  }

  /** The column and whether it is descending. */
  function ReadTerm(ts: Rest): Option<((string, bool), Rest)> {
    if |ts| >= 2 && ts[0].Word? && ts[1] == Word("DESC") then Some(((ts[0].s, true), ts[2..]))
    else if |ts| >= 2 && ts[0].Word? && ts[1] == Word("ASC") then Some(((ts[0].s, false), ts[2..]))
    else None
  }

  function ReadJoins(ts: Rest, acc: seq<Joined>): (seq<Joined>, Rest)
    decreases |ts|
  {
    if |ts| >= 7 && ts[0] == Word("LEFT") && ts[1] == Word("JOIN") && ts[2].Word? && ts[3] == Word("ON") && ts[4].Word?
       && ts[5] == Word("=") && ts[6].Word? then
      ReadJoins(ts[7..], acc + [Joined(true, ts[2].s, ts[4].s, ts[6].s)])
    else if |ts| >= 6 && ts[0] == Word("JOIN") && ts[1].Word? && ts[2] == Word("ON") && ts[3].Word?
      && ts[4] == Word("=")
            && ts[5].Word? then
      ReadJoins(ts[6..], acc + [Joined(false, ts[1].s, ts[3].s, ts[5].s)])
    else (acc, ts)
  }

  /** What stands behind `GROUP BY` or `ORDER BY`, if they are there. */
  function ReadBy<T>(key: string, read: Rest -> Option<(T, Rest)>, ts: Rest): Option<(seq<T>, Rest)> {
    if |ts| >= 2 && ts[0] == Word(key)
      && ts[1] == Word("BY") then ReadList(read, Comma, ts[2..], []) else Some(([], ts))
  }

  function ReadInt(s: string): Option<int> {
    if s != "" && AllDigits(s) then Some(DigitsValue(s))
    else if |s| > 1 && s[0] == '-' && AllDigits(s[1..]) then Some(0 - DigitsValue(s[1..]))
    else None
  }

  /** The number behind `LIMIT` or `OFFSET`, if it is there. */
  function ReadNumber(key: string, ts: Rest): (Option<int>, Rest) {
    if |ts| >= 2 && ts[0] == Word(key) && ts[1].Word? && ReadInt(ts[1].s).Some? then (ReadInt(ts[1].s), ts[2..])
    else (None, ts)
  }

  /** A lock clause, and nothing behind it. */
  function ReadLock(ts: Rest): Option<Option<RowLock>> {
    if ts == [] then Some(None)
    else if |ts| < 2 || ts[0] != Word("FOR") || ts[1] !in [Word("UPDATE"), Word("SHARE")] then None
    else
      var exclusive := ts[1] == Word("UPDATE");
      if ts[2..] == [] then Some(Some(RowLock(exclusive, Blocking)))
      else if ts[2..] == [Word("SKIP"), Word("LOCKED")] then Some(Some(RowLock(exclusive, Skipping)))
      else if ts[2..] == [Word("NOWAIT")] then Some(Some(RowLock(exclusive, Failing)))
      else None
  }

  /** From the WHERE clause to the end of a SELECT. */
  function ReadRest(st: Statement, ts: Rest): Option<Statement> {
    match ReadWhere(ts)
    case None => None
    case Some((preds, grouped)) =>
      match ReadBy("GROUP", ReadName, grouped)
      case None => None
      case Some((groupBy, ordered)) =>
        match ReadBy("ORDER", ReadTerm, ordered)
        case None => None
        case Some((order, limited)) =>
          var (limit, offsets) := ReadNumber("LIMIT", limited);
          var (offset, locked) := ReadNumber("OFFSET", offsets);
          match ReadLock(locked)
          case None => None
          case Some(lock) =>
            Some(st.(preds := preds, groupBy := groupBy, order := order, limit := limit, offset := offset,
              lock := lock))
  }

  function ReadFrom(distinct: bool, columns: seq<Projected>, ts: Rest): Option<Statement> {
    if |ts| < 2 || ts[0] != Word("FROM") || !ts[1].Word? then None
    else
      var (joins, rest) := ReadJoins(ts[2..], []);
      ReadRest(Statement(distinct, columns, ts[1].s, joins, [], [], [], None, None, None), rest)
  }

  function ReadColumns(distinct: bool, ts: Rest): Option<Statement> {
    match ReadList(ReadColumn, Comma, ts, [])
    case None => None
    case Some((columns, from)) => ReadFrom(distinct, columns, from)
  }

  function ReadSelect(ts: Rest): Option<Statement> {
    if |ts| < 2 || ts[0] != Word("SELECT") then None
    else if ts[1] == Word("DISTINCT") then ReadColumns(true, ts[2..])
    else ReadColumns(false, ts[1..])
  }

  // ---- the end of a SELECT ----

  function NamesToks(names: seq<string>): seq<seq<Tok>> {
    seq(|names|, i requires 0 <= i < |names| => [Word(names[i])])
  }

  function TermsToks(order: seq<(string, bool)>): seq<seq<Tok>> {
    seq(|order|, i requires 0 <= i < |order| => [Word(order[i].0), Word(if order[i].1 then "DESC" else "ASC")])
  }

  function ByToks(key: string, tss: seq<seq<Tok>>): seq<Tok> {
    if tss == [] then [] else [Word(key), Word("BY")] + JoinToks(tss, [Comma])
  }

  function NumberToks(key: string, n: Option<int>): seq<Tok> {
    if n.None? then [] else [Word(key), Word(Signed(n.value))]
  }

  function LockToks(lock: Option<RowLock>): seq<Tok> {
    if lock.None? then []
    else
      [Word("FOR"), Word(if lock.value.exclusive then "UPDATE" else "SHARE")]
      + match lock.value.wait
        case Blocking => []
        case Skipping => [Word("SKIP"), Word("LOCKED")]
        case Failing => [Word("NOWAIT")]
  }

  lemma SameText(t: Template, u: Template, toks: seq<Tok>, any: bool)
    requires Render(t) == Render(u) && Values(t) == Values(u) && Says(t, toks, any)
    ensures Says(u, toks, any)
  {
  }

  /** Joined text says what its parts say. */
  lemma TextJoin(parts: seq<string>, tss: seq<seq<Tok>>, sep: string, st: seq<Tok>)
    requires |parts| == |tss| > 0 && TextSays(sep, st, true) && sep != "" && Ends(sep)
    requires forall i :: 0 <= i < |parts| ==> TextSays(parts[i], tss[i], false)
    ensures TextSays(Join(parts, sep), JoinToks(tss, st), false)
  {
    var ts := ColumnTemplates(parts);
    assert forall i :: 0 <= i < |parts| ==> ts[i] == [Lit(parts[i])];
    assert |ts| == |parts|;
    ColumnsShow(parts);
    JoinRender(ts, sep);
    One(Lit(Join(parts, sep)));
    hide Lex, Says, Render, Values, JoinAll, JoinToks, ColumnTemplates, Ends;
    JoinSays(ts, tss, sep, st);
    SameText(JoinAll(ts, sep), [Lit(Join(parts, sep))], JoinToks(tss, st), false);
  }

  lemma NamesSay(names: seq<string>)
    requires names != [] && AllIdent(names)
    ensures TextSays(Join(names, ", "), JoinToks(NamesToks(names), [Comma]), false)
  {
    var tss := NamesToks(names);
    assert |tss| == |names| && forall i :: 0 <= i < |names| ==> tss[i] == [Word(names[i])];
    hide Lex, Says, Join, JoinToks, ValidIdentifier, AllWord, NamesToks, TextSays;
    forall i | 0 <= i < |names|
      ensures TextSays(names[i], tss[i], false)
    {
      IdentifierIsWord(names[i]);
      WordSays(names[i]);
    }
    CommaSays();
    Signs();
    TextJoin(names, tss, ", ", [Comma]);
  }

  lemma TermSays(col: string, descending: bool)
    requires ValidIdentifier(col)
    ensures TextSays(col + " " + (if descending then "DESC" else "ASC"),
                     [Word(col), Word(if descending then "DESC" else "ASC")], false)
  {
    var way := if descending then "DESC" else "ASC";
    assert AllWord("DESC") && AllWord("ASC") && col + (" " + way) == col + " " + way;
    assert [Word(col)] + [Word(way)] == [Word(col), Word(way)];
    IdentifierIsWord(col);
    hide *;
    NextWord(way);
    BlankEnds(way);
    HeadWord(col, " " + way, [Word(way)], false);
  }

  lemma TermsSay(order: seq<(string, bool)>)
    requires order != [] && forall i :: 0 <= i < |order| ==> ValidIdentifier(order[i].0)
    ensures TextSays(Join(OrderTerms(order), ", "), JoinToks(TermsToks(order), [Comma]), false)
  {
    hide Lex, Says, Join, JoinToks, ValidIdentifier, TextSays;
    forall i | 0 <= i < |order|
      ensures TextSays(OrderTerms(order)[i], TermsToks(order)[i], false)
    {
      TermSays(order[i].0, order[i].1);
    }
    CommaSays();
    Signs();
    TextJoin(OrderTerms(order), TermsToks(order), ", ", [Comma]);
  }

  /** ` KEY BY ` and a list. */
  lemma BySays(key: string, list: string, toks: seq<Tok>)
    requires key != "" && AllWord(key) && TextSays(list, toks, false)
    ensures TextSays(" " + key + " BY " + list, [Word(key), Word("BY")] + toks, false)
    ensures Ends(" " + key + " BY " + list)
  {
    assert AllWord("BY") && " " + "BY" + " " == " BY " && (" " + key) + " BY " == " " + key + " BY ";
    assert [Word(key)] + [Word("BY")] == [Word(key), Word("BY")];
    assert " " + (key + (" BY " + list)) == " " + key + " BY " + list;
    BlankEnds(key + (" BY " + list));
    assert " " + "BY " == " BY ";
    hide *;
    NextWord(key);
    BetweenWord("BY");
    BlankEnds("BY ");
    TextCat(" " + key, [Word(key)], false, " BY ", [Word("BY")], true);
    TextCat(" " + key + " BY ", [Word(key), Word("BY")], true, list, toks, false);
  }

  lemma DigitsAreWord(s: string)
    requires AllDigits(s)
    ensures AllWord(s) && (s != "" ==> s[0] != '-')
  {
  }

  lemma SignedIsWord(i: int)
    ensures Signed(i) != "" && AllWord(Signed(i)) && ReadInt(Signed(i)) == Some(i)
  {
    var n := if i < 0 then 0 - i else i;
    var digits := Decimal(n);
    assert AllDigits(digits);
    SignedIs(i);
    ReadDigits(digits);
    DecimalBack(n);
    DigitsAreWord(digits);
    hide *;
    if i < 0 {
      MinusWord(digits);
    }
  }

  lemma SignedIs(i: int)
    ensures Signed(i) == if i < 0 then "-" + Decimal(0 - i) else Decimal(i)
  {
    hide Decimal;
  }

  lemma MinusWord(s: string)
    requires AllWord(s)
    ensures AllWord("-" + s)
  {
  }

  lemma ReadDigits(s: string)
    requires s != "" && AllDigits(s)
    ensures ReadInt(s) == Some(DigitsValue(s)) && ReadInt("-" + s) == Some(0 - DigitsValue(s))
  {
    var m := "-" + s;
    assert m[1..] == s && m[0] == '-' && !AllDigits(m);
    hide DigitsValue;
  }

  lemma NumberSays(key: string, i: int)
    requires key != "" && AllWord(key)
    ensures TextSays(" " + key + " " + Signed(i), [Word(key), Word(Signed(i))], false)
    ensures Ends(" " + key + " " + Signed(i))
  {
    assert " " + (key + (" " + Signed(i))) == " " + key + " " + Signed(i);
    BlankEnds(key + (" " + Signed(i)));
    assert [Word(key)] + [Word(Signed(i))] == [Word(key), Word(Signed(i))];
    hide *;
    SignedIsWord(i);
    BetweenWord(key);
    WordSays(Signed(i));
    TextCat(" " + key + " ", [Word(key)], true, Signed(i), [Word(Signed(i))], false);
  }

  lemma NoneSays()
    ensures TextSays("", [], false) && Ends("")
  {
    hide Lex, Says;
    NothingSays();
    Weaken([Lit("")], []);
  }

  /** Four clauses, each there or not. */
  lemma FourSay(a: string, ta: seq<Tok>, b: string, tb: seq<Tok>, c: string, tc: seq<Tok>, d: string, td: seq<Tok>)
    requires TextSays(a, ta, false) && TextSays(b, tb, false) && TextSays(c, tc, false) && TextSays(d, td, false)
    requires Ends(a) && Ends(b) && Ends(c) && Ends(d)
    ensures TextSays(a + b + c + d, ta + tb + tc + td, false) && Ends(a + b + c + d)
  {
    EndsCat(a, b);
    EndsCat(a + b, c);
    EndsCat(a + b + c, d);
    hide *;
    TextCat(a, ta, false, b, tb, false);
    TextCat(a + b, ta + tb, false, c, tc, false);
    TextCat(a + b + c, ta + tb + tc, false, d, td, false);
  }

  lemma EndsCat(a: string, b: string)
    requires Ends(a) && Ends(b)
    ensures Ends(a + b)
  {
    assert a == "" ==> a + b == b;
  }

  function TailToks(q: Query): seq<Tok> {
    ByToks("GROUP", NamesToks(q.groupBy)) + ByToks("ORDER", TermsToks(q.order)) + NumberToks("LIMIT", q.limit)
    + NumberToks("OFFSET", q.offset)
  }

  function GroupText(names: seq<string>): string {
    if names == [] then "" else " GROUP BY " + Join(names, ", ")
  }

  function OrderText(order: seq<(string, bool)>): string {
    if order == [] then "" else " ORDER BY " + Join(OrderTerms(order), ", ")
  }

  function PageText(key: string, n: Option<int>): string {
    if n.Some? then " " + key + " " + Signed(n.value) else ""
  }

  lemma TailIs(q: Query)
    ensures Tail(q) == GroupText(q.groupBy) + OrderText(q.order) + PageText("LIMIT", q.limit)
      + PageText("OFFSET", q.offset)
  {
    assert " " + "LIMIT" + " " == " LIMIT " && " " + "OFFSET" + " " == " OFFSET ";
    hide Join, OrderTerms, Signed;
  }

  lemma TailSays(q: Query)
    requires AllIdent(q.groupBy) && forall i :: 0 <= i < |q.order| ==> ValidIdentifier(q.order[i].0)
    ensures TextSays(Tail(q), TailToks(q), false) && Ends(Tail(q))
  {
    assert AllWord("LIMIT") && AllWord("OFFSET");
    assert TailToks(q) == ByToks("GROUP", NamesToks(q.groupBy)) + ByToks("ORDER", TermsToks(q.order))
      + NumberToks("LIMIT", q.limit) + NumberToks("OFFSET", q.offset);
    hide *;
    TailIs(q);
    GroupSays(q.groupBy);
    OrderSays(q.order);
    PageSays("LIMIT", q.limit);
    PageSays("OFFSET", q.offset);
    FourSay(GroupText(q.groupBy), ByToks("GROUP", NamesToks(q.groupBy)),
            OrderText(q.order), ByToks("ORDER", TermsToks(q.order)),
            PageText("LIMIT", q.limit), NumberToks("LIMIT", q.limit),
            PageText("OFFSET", q.offset), NumberToks("OFFSET", q.offset));
  }

  lemma GroupSays(names: seq<string>)
    requires AllIdent(names)
    ensures TextSays(GroupText(names), ByToks("GROUP", NamesToks(names)), false) && Ends(GroupText(names))
  {
    assert AllWord("GROUP") && " " + "GROUP" + " BY " == " GROUP BY ";
    assert names == [] <==> NamesToks(names) == [];
    hide Lex, Says, JoinToks, Join, AllWord, Ends, TextSays, NamesToks;
    NoneSays();
    if names != [] {
      NamesSay(names);
      BySays("GROUP", Join(names, ", "), JoinToks(NamesToks(names), [Comma]));
    }
  }

  lemma OrderSays(order: seq<(string, bool)>)
    requires forall i :: 0 <= i < |order| ==> ValidIdentifier(order[i].0)
    ensures TextSays(OrderText(order), ByToks("ORDER", TermsToks(order)), false) && Ends(OrderText(order))
  {
    assert AllWord("ORDER") && " " + "ORDER" + " BY " == " ORDER BY ";
    assert order == [] <==> TermsToks(order) == [];
    hide Lex, Says, JoinToks, Join, AllWord, Ends, TextSays, OrderTerms, TermsToks;
    NoneSays();
    if order != [] {
      TermsSay(order);
      BySays("ORDER", Join(OrderTerms(order), ", "), JoinToks(TermsToks(order), [Comma]));
    }
  }

  lemma PageSays(key: string, n: Option<int>)
    requires key != "" && AllWord(key)
    ensures TextSays(PageText(key, n), NumberToks(key, n), false) && Ends(PageText(key, n))
  {
    hide Lex, Says, AllWord, Ends, TextSays, Signed;
    NoneSays();
    if n.Some? { NumberSays(key, n.value); }
  }

  // ---- the lock clause ----

  /** ` FOR UPDATE` and the like: two words, and the way of waiting behind them. */
  lemma WordsSay(words: seq<string>)
    requires forall i :: 0 <= i < |words| ==> words[i] != "" && AllWord(words[i])
    ensures TextSays(Spaced(words), AsWords(words), false) && Ends(Spaced(words))
  {
    assert words != [] ==> Spaced(words) == " " + (words[0] + Spaced(words[1..]));
    if words != [] { BlankEnds(words[0] + Spaced(words[1..])); }
    Signs();
    hide Lex, AllWord, Ends, Spaced, AsWords;
    forall tail, vals | Ends(tail)
      ensures Lex(Spaced(words) + tail, vals) == AsWords(words) + Lex(tail, vals)
    {
      EndsIs(tail);
      LexSpaced(words, tail, vals);
    }
    TextIs(Spaced(words), AsWords(words), false);
  }

  lemma LockSays(lock: RowLock, caps: Selecting.Caps)
    requires Selecting.LockText(lock, caps).Some?
    ensures var text := Selecting.LockText(lock, caps).value;
      TextSays(text, LockToks(if caps.rowLocks then Some(lock) else None), false) && Ends(text)
  {
    hide Lex, Says, Ends, TextSays;
    NoneSays();
    if caps.rowLocks {
      LockPhrase(lock.exclusive);
      WaitPhrase(lock.wait);
      var head := if lock.exclusive then " FOR UPDATE" else " FOR SHARE";
      var wait := match lock.wait case Blocking => "" case Skipping => " SKIP LOCKED" case Failing => " NOWAIT";
      EndsCat(head, wait);
      TextCat(head, LockHead(lock.exclusive), false, wait, LockWaits(lock.wait), false);
    }
  }

  function LockHead(exclusive: bool): seq<Tok> {
    [Word("FOR"), Word(if exclusive then "UPDATE" else "SHARE")]
  }

  function LockWaits(wait: LockWait): seq<Tok> {
    match wait
    case Blocking => []
    case Skipping => [Word("SKIP"), Word("LOCKED")]
    case Failing => [Word("NOWAIT")]
  }

  lemma LockPhrase(exclusive: bool)
    ensures var text := if exclusive then " FOR UPDATE" else " FOR SHARE";
      TextSays(text, LockHead(exclusive), false) && Ends(text)
  {
    var w := if exclusive then "UPDATE" else "SHARE";
    assert AllWord("FOR") && AllWord("UPDATE") && AllWord("SHARE");
    assert " " + ("FOR" + (" " + w)) == if exclusive then " FOR UPDATE" else " FOR SHARE";
    hide Lex, Says, Ends, TextSays, AllWord;
    SpacedTwo("FOR", w);
    WordsTwo("FOR", w);
    WordsSay(["FOR", w]);
  }

  lemma WaitPhrase(wait: LockWait)
    ensures var text := match wait case Blocking => "" case Skipping => " SKIP LOCKED" case Failing => " NOWAIT";
      TextSays(text, LockWaits(wait), false) && Ends(text)
  {
    assert AllWord("SKIP") && AllWord("LOCKED") && AllWord("NOWAIT");
    assert " " + ("SKIP" + (" " + "LOCKED")) == " SKIP LOCKED" && " " + "NOWAIT" == " NOWAIT";
    hide Lex, Says, Ends, TextSays, AllWord;
    NoneSays();
    SpacedTwo("SKIP", "LOCKED");
    WordsTwo("SKIP", "LOCKED");
    WordsSay(["SKIP", "LOCKED"]);
    SpacedOne("NOWAIT");
    WordsOne("NOWAIT");
    WordsSay(["NOWAIT"]);
  }

  // ---- the projection, the tables ----

  function PathToks(js: JsonSelect, d: Dialect): seq<Tok> {
    if d.Sqlite? then
      [Word("json_extract"), Open, Word(js.col), Comma]
        + ([Bound(PathText(js.segs, d))] + [Close, Word("AS"), Word(js.alias)])
    else [Word(js.col), Word("#>>")] + ([Bound(PathText(js.segs, d))] + [Word("AS"), Word(js.alias)])
  }

  lemma PathSays(js: JsonSelect, d: Dialect)
    requires ValidIdentifier(js.col) && ValidIdentifier(js.alias)
    ensures Says(SelectTemplate(js, d), PathToks(js, d), false)
  {
    assert AllWord("AS") && " " + "AS" + " " == " AS " && ")" + (" AS " + js.alias) == ") AS " + js.alias;
    assert [Word("AS")] + [Word(js.alias)] == [Word("AS"), Word(js.alias)];
    assert [Close] + [Word("AS"), Word(js.alias)] == [Close, Word("AS"), Word(js.alias)];
    IdentifierIsWord(js.alias);
    hide Lex, Says, Ends, AllWord, Around, PathText, ValidIdentifier;
    BetweenWord("AS");
    WordSays(js.alias);
    TextCat(" AS ", [Word("AS")], true, js.alias, [Word(js.alias)], false);
    if d.Sqlite? {
      ExtractSays(js.col);
      Signs();
      TextCat(")", [Close], true, " AS " + js.alias, [Word("AS"), Word(js.alias)], false);
      AroundSays("json_extract(" + js.col
        + ", ", [Word("json_extract"), Open, Word(js.col), Comma], PathText(js.segs, d),
                 ") AS " + js.alias, [Close, Word("AS"), Word(js.alias)], false);
    } else {
      ArrowSays(js.col);
      AroundSays(js.col + " #>> ", [Word(js.col), Word("#>>")], PathText(js.segs, d),
                 " AS " + js.alias, [Word("AS"), Word(js.alias)], false);
    }
  }

  function Columns(q: Query): seq<string> {
    if q.columns == [] then ["*"] else q.columns
  }

  function ProjectionToks(q: Query, d: Dialect): seq<seq<Tok>> {
    NamesToks(Columns(q)) + seq(|q.jsonSelects|, i requires 0 <= i < |q.jsonSelects| => PathToks(q.jsonSelects[i], d))
  }

  ghost predicate ProjectionChecked(q: Query) {
    AllIdent(q.columns)
    && forall i :: 0 <= i < |q.jsonSelects| ==>
         ValidIdentifier(q.jsonSelects[i].col) && ValidIdentifier(q.jsonSelects[i].alias)
  }

  lemma ProjectionSays(q: Query, d: Dialect)
    requires ProjectionChecked(q)
    ensures Says(Projection(q, d), JoinToks(ProjectionToks(q, d), [Comma]), false)
  {
    hide *;
    var ts := ColumnTemplates(Columns(q)) + SelectTemplates(q.jsonSelects, d);
    ProjectionParts(q, d);
    forall i | 0 <= i < |ts|
      ensures Says(ts[i], ProjectionToks(q, d)[i], false)
    {
      if i < |Columns(q)| {
        ColumnSays(Columns(q)[i]);
      } else {
        PathSays(q.jsonSelects[i - |Columns(q)|], d);
      }
    }
    CommaSays();
    Signs();
    JoinSays(ts, ProjectionToks(q, d), ", ", [Comma]);
  }

  lemma ProjectionParts(q: Query, d: Dialect)
    requires ProjectionChecked(q)
    ensures var ts := ColumnTemplates(Columns(q)) + SelectTemplates(q.jsonSelects, d);
      && Projection(q, d) == JoinAll(ts, ", ")
      && |ts| == |ProjectionToks(q, d)| == |Columns(q)| + |q.jsonSelects| && |Columns(q)| > 0
      && (forall i :: 0 <= i < |Columns(q)| ==>
            && ts[i] == [Lit(Columns(q)[i])] && ProjectionToks(q, d)[i] == [Word(Columns(q)[i])]
            && (Columns(q)[i] == "*" || ValidIdentifier(Columns(q)[i])))
      && forall i :: |Columns(q)| <= i < |ts| ==>
           var js := q.jsonSelects[i - |Columns(q)|];
           ts[i] == SelectTemplate(js, d) && ProjectionToks(q, d)[i] == PathToks(js, d)
    ensures forall k :: 0 <= k < |q.jsonSelects| ==>
      ValidIdentifier(q.jsonSelects[k].col) && ValidIdentifier(q.jsonSelects[k].alias)
  {
    hide SelectTemplate, PathToks, JoinAll, ValidIdentifier;
  }

  lemma ColumnSays(name: string)
    requires name == "*" || ValidIdentifier(name)
    ensures Says([Lit(name)], [Word(name)], false)
  {
    assert ValidIdentifier("*");
    IdentifierIsWord(name);
    WordSays(name);
    hide Lex, Says, AllWord, ValidIdentifier;
  }

  ghost predicate JoinChecked(j: Joined) {
    ValidIdentifier(j.other) && ValidIdentifier(j.l) && ValidIdentifier(j.r)
  }

  function JoinedText(j: Joined): string {
    JoinText(j.left, j.other, j.l, j.r)
  }

  function JoinedToks(j: Joined): seq<Tok> {
    (if j.left then [Word("LEFT")] else [])
    + [Word("JOIN"), Word(j.other), Word("ON"), Word(j.l), Word("="), Word(j.r)]
  }

  function JoinedWords(j: Joined): seq<string> {
    (if j.left then ["LEFT"] else []) + ["JOIN", j.other, "ON", j.l, "=", j.r]
  }

  lemma {:induction false} SpacedCat(a: seq<string>, b: seq<string>)
    ensures Spaced(a + b) == Spaced(a) + Spaced(b) && AsWords(a + b) == AsWords(a) + AsWords(b)
    decreases |a|
  {
    SpacedParts(a, a + b);
    hide *;
    if a == [] {
      assert a + b == b && "" + Spaced(b) == Spaced(b) && [] + AsWords(b) == AsWords(b);
    } else {
      assert (a + b)[1..] == a[1..] + b;
      SpacedCat(a[1..], b);
      Regroup(" ", a[0], Spaced(a[1..]), Spaced(b));
      Regrouped([Word(a[0])], AsWords(a[1..]), AsWords(b));
    }
  }

  lemma SpacedParts(a: seq<string>, b: seq<string>)
    ensures Spaced(a) == (if a == [] then "" else " " + (a[0] + Spaced(a[1..])))
    ensures Spaced(b) == (if b == [] then "" else " " + (b[0] + Spaced(b[1..])))
    ensures AsWords(a) == (if a == [] then [] else [Word(a[0])] + AsWords(a[1..]))
    ensures AsWords(b) == (if b == [] then [] else [Word(b[0])] + AsWords(b[1..]))
  {
  }

  lemma SpacedSix(a: string, b: string, c: string, d: string, e: string, f: string)
    ensures Spaced([a, b, c, d, e, f]) == " " + a + " " + b + " " + c + " " + d + " " + e + " " + f
    ensures AsWords([a, b, c, d, e, f]) == [Word(a), Word(b), Word(c), Word(d), Word(e), Word(f)]
  {
    hide *;
    SixAre(a, b, c, d, e, f);
    SixAre(Word(a), Word(b), Word(c), Word(d), Word(e), Word(f));
    SpacedCat([a, b], [c, d] + [e, f]);
    SpacedCat([c, d], [e, f]);
    SpacedPair(a, b);
    SpacedPair(c, d);
    SpacedPair(e, f);
    WordsTwo(a, b);
    WordsTwo(c, d);
    WordsTwo(e, f);
    Flattened(" " + a + " " + b, " ", c, " ", d, " ", e, " ", f);
  }

  lemma SpacedPair(a: string, b: string)
    ensures Spaced([a, b]) == " " + a + " " + b
  {
    hide *;
    SpacedTwo(a, b);
    Regrouped(" ", a, " " + b);
    Regrouped(" " + a, " ", b);
  }

  lemma SixAre<T>(a: T, b: T, c: T, d: T, e: T, f: T)
    ensures [a, b] + ([c, d] + [e, f]) == [a, b, c, d, e, f]
  {
  }

  lemma Flattened<T>(x: seq<T>, p: seq<T>, c: seq<T>, q: seq<T>, d: seq<T>, r: seq<T>, e: seq<T>, s: seq<T>, f: seq<T>)
    ensures x + ((p + c + q + d) + (r + e + s + f)) == x + p + c + q + d + r + e + s + f
  {
    Regrouped(x, p + c + q + d, r + e + s + f);
    Regrouped(x, p + c + q, d);
    Regrouped(x, p + c, q);
    Regrouped(x, p, c);
    var y := x + p + c + q + d;
    Regrouped(y, r + e + s, f);
    Regrouped(y, r + e, s);
    Regrouped(y, r, e);
  }

  lemma JoinedIsSpaced(j: Joined)
    ensures Spaced(JoinedWords(j)) == " " + JoinedText(j) && AsWords(JoinedWords(j)) == JoinedToks(j)
  {
    hide *;
    JoinedParts(j);
    SpacedSix("JOIN", j.other, "ON", j.l, "=", j.r);
    SpacedOne("LEFT");
    WordsOne("LEFT");
    SpacedCat(["LEFT"], ["JOIN", j.other, "ON", j.l, "=", j.r]);
  }

  lemma JoinedParts(j: Joined)
    ensures var six := ["JOIN", j.other, "ON", j.l, "=", j.r];
      JoinedWords(j) == if j.left then ["LEFT"] + six else six
    ensures var text := " " + "JOIN" + " " + j.other + " " + "ON" + " " + j.l + " " + "=" + " " + j.r;
      " " + JoinedText(j) == if j.left then (" " + "LEFT") + text else text
    ensures var toks := [Word("JOIN"), Word(j.other), Word("ON"), Word(j.l), Word("="), Word(j.r)];
      JoinedToks(j) == if j.left then [Word("LEFT")] + toks else toks
  {
    JoinTextIs(j.other, j.l, j.r);
    assert JoinedText(j) == (if j.left then "LEFT JOIN " else "JOIN ") + j.other + " ON " + j.l + " = " + j.r;
    hide JoinedText;
  }

  lemma JoinTextIs(other: string, l: string, r: string)
    ensures var text := " " + "JOIN" + " " + other + " " + "ON" + " " + l + " " + "=" + " " + r;
      && text == " " + ("JOIN " + other + " ON " + l + " = " + r)
      && (" " + "LEFT") + text == " " + ("LEFT JOIN " + other + " ON " + l + " = " + r)
  {
    SixBlanks(other, l, r);
    Prefixed(" LEFT ", "JOIN ", other, " ON ", l, " = ", r);
    Prefixed(" ", "JOIN ", other, " ON ", l, " = ", r);
    Prefixed(" ", "LEFT JOIN ", other, " ON ", l, " = ", r);
    assert " LEFT" + " JOIN " == " LEFT JOIN " == " " + "LEFT JOIN " && " " + "LEFT" == " LEFT"
      && " " + "JOIN " == " JOIN ";
    Prefixed(" LEFT", " JOIN ", other, " ON ", l, " = ", r);
    hide *;
  }

  lemma SixBlanks(other: string, l: string, r: string)
    ensures " " + "JOIN" + " " + other + " " + "ON" + " " + l + " " + "=" + " " + r
      == " JOIN " + other + " ON " + l + " = " + r
  {
    assert " " + "JOIN" + " " == " JOIN ";
    Blanks(" JOIN " + other, "ON", l);
    assert " " + "ON" + " " == " ON ";
    Blanks(" JOIN " + other + " ON " + l, "=", r);
    assert " " + "=" + " " == " = ";
  }

  lemma Blanks(a: string, w: string, b: string)
    ensures a + " " + w + " " + b == a + (" " + w + " ") + b
  {
  }

  lemma Prefixed(p: string, a: string, b: string, c: string, d: string, e: string, f: string)
    ensures p + (a + b + c + d + e + f) == (p + a) + b + c + d + e + f
  {
    Regrouped(p, a + b + c + d + e, f);
    Regrouped(p, a + b + c + d, e);
    Regrouped(p, a + b + c, d);
    Regrouped(p, a + b, c);
    Regrouped(p, a, b);
  }

  lemma JoinedSays(j: Joined)
    requires JoinChecked(j)
    ensures TextSays(" " + JoinedText(j), JoinedToks(j), false) && Ends(" " + JoinedText(j))
  {
    assert AllWord("LEFT") && AllWord("JOIN") && AllWord("ON") && AllWord("=");
    IdentifierIsWord(j.other);
    IdentifierIsWord(j.l);
    IdentifierIsWord(j.r);
    hide Lex, Says, Ends, AllWord, TextSays, ValidIdentifier, Spaced, AsWords, JoinedText, JoinedToks;
    JoinedIsSpaced(j);
    WordsSay(JoinedWords(j));
  }

  function JoinsText(joins: seq<Joined>): seq<string> {
    seq(|joins|, i requires 0 <= i < |joins| => JoinedText(joins[i]))
  }

  function JoinsToks(joins: seq<Joined>): seq<Tok> {
    if joins == [] then [] else JoinedToks(joins[0]) + JoinsToks(joins[1..])
  }

  lemma {:induction false} JoinsToksMore(joins: seq<Joined>, j: Joined)
    ensures JoinsToks(joins + [j]) == JoinsToks(joins) + JoinedToks(j)
    decreases |joins|
  {
    hide JoinedToks;
    if joins == [] {
      assert [j][1..] == [] && [] + [j] == [j] && JoinedToks(j) + [] == [] + JoinedToks(j);
    } else {
      assert (joins + [j])[1..] == joins[1..] + [j];
      JoinsToksMore(joins[1..], j);
      Regrouped(JoinedToks(joins[0]), JoinsToks(joins[1..]), JoinedToks(j));
    }
  }

  lemma {:induction false} JoinsSay(joins: seq<Joined>)
    requires forall i :: 0 <= i < |joins| ==> JoinChecked(joins[i])
    ensures TextSays(Joins(JoinsText(joins)), JoinsToks(joins), false) && Ends(Joins(JoinsText(joins)))
    decreases |joins|
  {
    hide Lex, Says, TextSays, Ends, JoinChecked, JoinedText, JoinedToks;
    NoneSays();
    if joins != [] {
      var front, j := joins[..|joins| - 1], joins[|joins| - 1];
      assert joins == front + [j];
      JoinsSay(front);
      JoinedSays(j);
      JoinsToksMore(front, j);
      assert JoinsText(joins)[..|joins| - 1] == JoinsText(front);
      EndsCat(Joins(JoinsText(front)), " " + JoinedText(j));
      hide JoinsToks, JoinsText;
      TextCat(Joins(JoinsText(front)), JoinsToks(front), false, " " + JoinedText(j), JoinedToks(j), false);
    }
  }

  /** ` FROM table JOIN ...` */
  lemma FromSays(q: Query, joins: seq<Joined>)
    requires ValidIdentifier(q.table) && q.joins == JoinsText(joins)
    requires forall i :: 0 <= i < |joins| ==> JoinChecked(joins[i])
    ensures TextSays(" FROM " + From(q), [Word("FROM")] + ([Word(q.table)] + JoinsToks(joins)), false)
    ensures Ends(" FROM " + From(q))
  {
    hide *;
    FromIs(q, joins);
    IdentifierIsWord(q.table);
    JoinsSay(joins);
    BetweenWord("FROM");
    WordSays(q.table);
    TextCat(q.table, [Word(q.table)], false, Joins(JoinsText(joins)), JoinsToks(joins), false);
    TextCat(" FROM ", [Word("FROM")], true, From(q), [Word(q.table)] + JoinsToks(joins), false);
  }

  lemma FromIs(q: Query, joins: seq<Joined>)
    requires q.joins == JoinsText(joins)
    ensures From(q) == q.table + Joins(JoinsText(joins)) && Ends(" FROM " + From(q))
    ensures AllWord("FROM") && " " + "FROM" + " " == " FROM " && "FROM" != ""
  {
    hide Joins, JoinsText;
  }

  lemma HeadSays(q: Query)
    ensures TextSays(Head(q), [Word("SELECT")] + (if q.distinct then [Word("DISTINCT")] else []), true)
  {
    assert AllWord("SELECT") && AllWord("DISTINCT") && "SELECT" + " " == "SELECT " && "DISTINCT" + " " == "DISTINCT ";
    assert "SELECT " + "" == "SELECT " && [Word("SELECT")] + [] == [Word("SELECT")];
    assert [Word("DISTINCT")] + [] == [Word("DISTINCT")];
    assert Head(q) == "SELECT " + (if q.distinct then "DISTINCT " else "");
    hide *;
    Signs();
    WordSays("SELECT");
    WordSays("DISTINCT");
    TextCat("SELECT", [Word("SELECT")], false, " ", [], true);
    TextCat("DISTINCT", [Word("DISTINCT")], false, " ", [], true);
    if q.distinct {
      TextCat("SELECT ", [Word("SELECT")], true, "DISTINCT ", [Word("DISTINCT")], true);
    }
  }

  // ---- the whole SELECT as words ----

  /** Everything the builder checks before it builds, and the joins its texts were made of. */
  ghost predicate Checked(q: Query, joins: seq<Joined>) {
    && ValidIdentifier(q.table) && ProjectionChecked(q) && q.joins == JoinsText(joins)
    && (forall i :: 0 <= i < |joins| ==> JoinChecked(joins[i]))
    && (forall i :: 0 <= i < |q.preds| ==> !q.preds[i].Raw? && PredChecked(q.preds[i]))
    && AllIdent(q.groupBy)
    && forall i :: 0 <= i < |q.order| ==> ValidIdentifier(q.order[i].0)
  }

  function HeadToks(q: Query): seq<Tok> {
    [Word("SELECT")] + (if q.distinct then [Word("DISTINCT")] else [])
  }

  function FromToks(q: Query, joins: seq<Joined>): seq<Tok> {
    [Word("FROM")] + ([Word(q.table)] + JoinsToks(joins))
  }

  function QueryToks(q: Query, joins: seq<Joined>, d: Dialect): seq<Tok>
    requires forall i :: 0 <= i < |q.preds| ==> !q.preds[i].Raw?
  {
    HeadToks(q)
    + (JoinToks(ProjectionToks(q, d), [Comma]) + (FromToks(q, joins) + (WhereToks(q.preds, d) + TailToks(q))))
  }

  lemma QuerySays(q: Query, joins: seq<Joined>, d: Dialect)
    requires Checked(q, joins)
    ensures Says(QueryTemplate(q, d), QueryToks(q, joins, d), false)
  {
    QueryIs(q, joins, d);
    hide *;
    HeadSays(q);
    ProjectionSays(q, d);
    FromSays(q, joins);
    WhereSays(q.preds, d);
    TailSays(q);
    FiveSay(Head(q), HeadToks(q), Projection(q, d), JoinToks(ProjectionToks(q, d), [Comma]), " FROM " + From(q),
            FromToks(q, joins), WhereTemplate(q.preds, d), WhereToks(q.preds, d), Tail(q), TailToks(q));
  }

  lemma QueryIs(q: Query, joins: seq<Joined>, d: Dialect)
    requires Checked(q, joins)
    ensures ValidIdentifier(q.table) && ProjectionChecked(q) && q.joins == JoinsText(joins)
    ensures forall i :: 0 <= i < |joins| ==> JoinChecked(joins[i])
    ensures forall i :: 0 <= i < |q.preds| ==> !q.preds[i].Raw? && PredChecked(q.preds[i])
    ensures AllIdent(q.groupBy) && forall i :: 0 <= i < |q.order| ==> ValidIdentifier(q.order[i].0)
    ensures HeadToks(q) == [Word("SELECT")] + (if q.distinct then [Word("DISTINCT")] else [])
    ensures FromToks(q, joins) == [Word("FROM")] + ([Word(q.table)] + JoinsToks(joins))
    ensures QueryTemplate(q, d) ==
      [Lit(Head(q))] + (Projection(q, d) + ([Lit(" FROM " + From(q))] + (WhereTemplate(q.preds, d) + [Lit(Tail(q))])))
    ensures QueryToks(q, joins, d) ==
      HeadToks(q)
      + (JoinToks(ProjectionToks(q, d), [Comma]) + (FromToks(q, joins) + (WhereToks(q.preds, d) + TailToks(q))))
    ensures " FROM " + From(q) != ""
  {
    hide ValidIdentifier, PredChecked, JoinChecked, ProjectionChecked, JoinsText, Projection, From, WhereTemplate, Tail,
      JoinToks, ProjectionToks, WhereToks, TailToks, JoinsToks;
  }

  lemma FiveSay(head: string, th: seq<Tok>, proj: Template, tp: seq<Tok>, from: string, tf: seq<Tok>,
                where_: Template, tw: seq<Tok>, tail: string, tt: seq<Tok>)
    requires TextSays(head, th, true) && Says(proj, tp, false) && TextSays(from, tf, false) && Says(where_, tw, false)
    requires TextSays(tail, tt, false) && Ends(from) && from != "" && Ends(Render(where_)) && Ends(tail)
    ensures Says([Lit(head)] + (proj + ([Lit(from)] + (where_ + [Lit(tail)]))), th + (tp + (tf + (tw + tt))), false)
  {
    TextIsTemplate(head, th, true);
    TextIsTemplate(from, tf, false);
    TextIsTemplate(tail, tt, false);
    hide *;
    One(Lit(tail));
    ShownIs(tail);
    Cat(where_, tw, false, [Lit(tail)], tt, false);
    RenderCat(where_, [Lit(tail)]);
    EndsCat(Render(where_), tail);
    Cat([Lit(from)], tf, false, where_ + [Lit(tail)], tw + tt, false);
    SepEnds(from, where_ + [Lit(tail)]);
    Cat(proj, tp, false, [Lit(from)] + (where_ + [Lit(tail)]), tf + (tw + tt), false);
    Cat([Lit(head)], th, true, proj + ([Lit(from)] + (where_ + [Lit(tail)])), tp + (tf + (tw + tt)), false);
  }

  lemma TextIsTemplate(s: string, toks: seq<Tok>, any: bool)
    ensures TextSays(s, toks, any) <==> Says([Lit(s)], toks, any)
  {
    hide Says;
  }

  lemma ShownIs(s: string)
    ensures Lit(s).Shown() == s && Lit(s).Bound() == []
  {
  }

  // ---- reading it ----

  ghost predicate Begins(ts: Rest, keys: set<string>) {
    ts == [] || (ts[0].Word? && ts[0].s in keys)
  }

  lemma ByRead<T(!new)>(key: string, read: Rest -> Option<(T, Rest)>, tss: seq<seq<Tok>>, xs: seq<T>, rest: Rest,
                        keys: set<string>)
    requires |tss| == |xs| && forall i :: 0 <= i < |xs| ==> Reads(read, tss[i], xs[i])
    requires Begins(rest, keys) && key !in keys && "#>>" !in keys
    ensures ReadBy(key, read, ByToks(key, tss) + rest) == Some((xs, rest))
      && Begins(ByToks(key, tss) + rest, keys + {key})
  {
    hide JoinToks, ReadList, Reads;
    if xs == [] {
      assert ByToks(key, tss) + rest == rest;
    } else {
      var list := JoinToks(tss, [Comma]);
      assert (ByToks(key, tss) + rest)[2..] == list + rest;
      assert Plain(rest) && [] + xs == xs;
      ListRead(read, Comma, tss, xs, rest, []);
    }
  }

  lemma NumberRead(key: string, n: Option<int>, rest: Rest, keys: set<string>)
    requires Begins(rest, keys) && key !in keys
    ensures ReadNumber(key, NumberToks(key, n) + rest) == (n, rest) && Begins(NumberToks(key, n) + rest, keys + {key})
  {
    hide Signed, ReadInt;
    if n.None? {
      assert NumberToks(key, n) + rest == rest;
    } else {
      SignedIsWord(n.value);
      assert (NumberToks(key, n) + rest)[2..] == rest;
    }
  }

  lemma LockRead(lock: Option<RowLock>)
    ensures ReadLock(LockToks(lock)) == Some(lock) && Begins(LockToks(lock), {"FOR"})
  {
    if lock.Some? {
      assert LockToks(lock)[2..] == LockWaits(lock.value.wait);
    }
  }

  lemma TermReads(order: seq<(string, bool)>)
    ensures |TermsToks(order)| == |order|
    ensures forall i :: 0 <= i < |order| ==> Reads(ReadTerm, TermsToks(order)[i], order[i])
  {
    forall i | 0 <= i < |order|
      ensures Reads(ReadTerm, TermsToks(order)[i], order[i])
    {
      var toks := TermsToks(order)[i];
      forall rest | Plain(rest)
        ensures ReadTerm(toks + rest) == Some((order[i], rest))
      {
        assert (toks + rest)[2..] == rest && order[i] == (order[i].0, order[i].1);
      }
      ReadsIs(ReadTerm, toks, order[i]);
    }
  }

  lemma NameReads(names: seq<string>)
    ensures |NamesToks(names)| == |names|
    ensures forall i :: 0 <= i < |names| ==> Reads(ReadName, NamesToks(names)[i], names[i])
  {
    forall i | 0 <= i < |names|
      ensures Reads(ReadName, NamesToks(names)[i], names[i])
    {
      ReadsIs(ReadName, NamesToks(names)[i], names[i]);
    }
  }

  lemma RestRead(st: Statement, q: Query, joins: seq<Joined>, d: Dialect, lock: Option<RowLock>)
    requires Checked(q, joins)
    ensures ReadRest(st, WhereToks(q.preds, d) + (TailToks(q) + LockToks(lock)))
      == Some(st.(preds := SaidByAll(q.preds, d), groupBy := q.groupBy, order := q.order, limit := q.limit,
                  offset := q.offset, lock := lock))
    ensures Begins(WhereToks(q.preds, d) + (TailToks(q) + LockToks(lock)),
                   {"WHERE", "GROUP", "ORDER", "LIMIT", "OFFSET", "FOR"})
  {
    TailParts(q, lock);
    Keys();
    hide *;
    QueryIs(q, joins, d);
    var g, o := ByToks("GROUP", NamesToks(q.groupBy)), ByToks("ORDER", TermsToks(q.order));
    var l, f, k := NumberToks("LIMIT", q.limit), NumberToks("OFFSET", q.offset), LockToks(lock);
    LockRead(lock);
    NumberRead("OFFSET", q.offset, k, {"FOR"});
    NumberRead("LIMIT", q.limit, f + k, {"FOR"} + {"OFFSET"});
    TermReads(q.order);
    ByRead("ORDER", ReadTerm, TermsToks(q.order), q.order, l + (f + k), {"FOR"} + {"OFFSET"} + {"LIMIT"});
    NameReads(q.groupBy);
    ByRead("GROUP", ReadName, NamesToks(q.groupBy), q.groupBy, o + (l + (f + k)),
           {"FOR"} + {"OFFSET"} + {"LIMIT"} + {"ORDER"});
    var tail := g + (o + (l + (f + k)));
    BeginsPlain(tail, {"FOR"} + {"OFFSET"} + {"LIMIT"} + {"ORDER"} + {"GROUP"});
    WhereRead(q.preds, d, tail);
    WhereBegins(q.preds, d, tail, {"FOR"} + {"OFFSET"} + {"LIMIT"} + {"ORDER"} + {"GROUP"});
    RestOpened(st, WhereToks(q.preds, d) + tail, SaidByAll(q.preds, d), tail, q, o + (l + (f + k)), l + (f + k), f
      + k, k,
               lock);
  }

  lemma TailParts(q: Query, lock: Option<RowLock>)
    ensures TailToks(q) + LockToks(lock)
      == ByToks("GROUP", NamesToks(q.groupBy))
         + (ByToks("ORDER", TermsToks(q.order))
            + (NumberToks("LIMIT", q.limit) + (NumberToks("OFFSET", q.offset) + LockToks(lock))))
  {
    TailGroups(ByToks("GROUP", NamesToks(q.groupBy)), ByToks("ORDER", TermsToks(q.order)), NumberToks("LIMIT", q.limit),
               NumberToks("OFFSET", q.offset), LockToks(lock));
    hide ByToks, NumberToks, LockToks;
  }

  lemma Keys()
    ensures "#>>" !in {"FOR"} + {"OFFSET"} + {"LIMIT"} + {"ORDER"} + {"GROUP"}
    ensures "AND" !in {"FOR"} + {"OFFSET"} + {"LIMIT"} + {"ORDER"} + {"GROUP"}
    ensures "WHERE" !in {"FOR"} + {"OFFSET"} + {"LIMIT"} + {"ORDER"} + {"GROUP"}
    ensures "GROUP" !in {"FOR"} + {"OFFSET"} + {"LIMIT"} + {"ORDER"} && "ORDER" !in {"FOR"} + {"OFFSET"} + {"LIMIT"}
    ensures "LIMIT" !in {"FOR"} + {"OFFSET"} && "OFFSET" !in {"FOR"}
    ensures {"WHERE"} + ({"FOR"} + {"OFFSET"} + {"LIMIT"} + {"ORDER"} + {"GROUP"})
      == {"WHERE", "GROUP", "ORDER", "LIMIT", "OFFSET", "FOR"}
  {
  }

  lemma RestOpened(st: Statement, ts: Rest, preds: seq<Said>, grouped: Rest, q: Query, ordered: Rest, limited: Rest,
                   offsets: Rest, locked: Rest, lock: Option<RowLock>)
    requires ReadWhere(ts) == Some((preds, grouped)) && ReadBy("GROUP", ReadName, grouped) == Some((q.groupBy, ordered))
    requires ReadBy("ORDER", ReadTerm, ordered) == Some((q.order, limited))
    requires ReadNumber("LIMIT", limited) == (q.limit, offsets) && ReadNumber("OFFSET", offsets) == (q.offset, locked)
    requires ReadLock(locked) == Some(lock)
    ensures ReadRest(st, ts) == Some(st.(preds := preds, groupBy := q.groupBy, order := q.order, limit := q.limit,
                                         offset := q.offset, lock := lock))
  {
    hide ReadWhere, ReadBy, ReadNumber, ReadLock;
  }

  lemma TailGroups<T>(g: seq<T>, o: seq<T>, l: seq<T>, f: seq<T>, k: seq<T>)
    ensures (g + o + l + f) + k == g + (o + (l + (f + k)))
  {
  }

  lemma WhereBegins(preds: seq<Pred>, d: Dialect, rest: Rest, keys: set<string>)
    requires forall i :: 0 <= i < |preds| ==> !preds[i].Raw?
    requires Begins(rest, keys)
    ensures Begins(WhereToks(preds, d) + rest, {"WHERE"} + keys)
  {
    hide JoinToks;
    if preds == [] { assert WhereToks(preds, d) + rest == rest; }
  }

  lemma JoinRead(j: Joined, rest: Rest, acc: seq<Joined>)
    ensures ReadJoins(JoinedToks(j) + rest, acc) == ReadJoins(rest, acc + [j])
  {
    var toks := JoinedToks(j);
    assert (toks + rest)[|toks|..] == rest && forall i :: 0 <= i < |toks| ==> (toks + rest)[i] == toks[i];
    assert j == Joined(j.left, j.other, j.l, j.r);
  }

  lemma {:induction false} JoinsRead(joins: seq<Joined>, rest: Rest, acc: seq<Joined>)
    requires Begins(rest, {"WHERE", "GROUP", "ORDER", "LIMIT", "OFFSET", "FOR"})
    ensures ReadJoins(JoinsToks(joins) + rest, acc) == (acc + joins, rest)
    decreases |joins|
  {
    hide *;
    JoinsParts(joins);
    if joins == [] {
      NoJoinRead(rest, acc);
      assert [] + rest == rest && acc + joins == acc;
    } else {
      Regrouped(JoinedToks(joins[0]), JoinsToks(joins[1..]), rest);
      JoinRead(joins[0], JoinsToks(joins[1..]) + rest, acc);
      JoinsRead(joins[1..], rest, acc + [joins[0]]);
      assert (acc + [joins[0]]) + joins[1..] == acc + joins;
    }
  }

  lemma JoinsParts(joins: seq<Joined>)
    ensures JoinsToks(joins) == if joins == [] then [] else JoinedToks(joins[0]) + JoinsToks(joins[1..])
  {
    hide JoinedToks;
  }

  lemma NoJoinRead(rest: Rest, acc: seq<Joined>)
    requires Begins(rest, {"WHERE", "GROUP", "ORDER", "LIMIT", "OFFSET", "FOR"})
    ensures ReadJoins(rest, acc) == (acc, rest)
  {
  }

  /** The columns asked for, every column if none is named, and then the document paths. */
  function ProjectedBy(q: Query, d: Dialect): seq<Projected> {
    seq(|Columns(q)|, i requires 0 <= i < |Columns(q)| => Column(Columns(q)[i]))
    + seq(|q.jsonSelects|, i requires 0 <= i < |q.jsonSelects| =>
        PathAs(q.jsonSelects[i].col, Text(if d.Sqlite? then SqlitePath(q.jsonSelects[i].segs)
          else PgPath(q.jsonSelects[i].segs)),
               q.jsonSelects[i].alias))
  }

  lemma ColumnReads(name: string)
    ensures Reads(ReadColumn, [Word(name)], Column(name))
  {
  }

  lemma PathReads(js: JsonSelect, d: Dialect)
    requires ValidIdentifier(js.col)
    ensures Reads(ReadColumn, PathToks(js, d),
                  PathAs(js.col, Text(if d.Sqlite? then SqlitePath(js.segs) else PgPath(js.segs)), js.alias))
  {
    var toks := PathToks(js, d);
    var x := PathAs(js.col, PathText(js.segs, d), js.alias);
    hide SqlitePath, PgPath;
    forall rest | Plain(rest)
      ensures ReadColumn(toks + rest) == Some((x, rest))
    {
      assert (toks + rest)[|toks|..] == rest && forall i :: 0 <= i < |toks| ==> (toks + rest)[i] == toks[i];
    }
    ReadsIs(ReadColumn, toks, x);
  }

  lemma ProjectionReads(q: Query, d: Dialect)
    requires ProjectionChecked(q)
    ensures |ProjectionToks(q, d)| == |ProjectedBy(q, d)| > 0 && ProjectionToks(q, d)[0] == [Word(Columns(q)[0])]
    ensures forall i :: 0 <= i < |ProjectedBy(q, d)| ==>
      Reads(ReadColumn, ProjectionToks(q, d)[i], ProjectedBy(q, d)[i])
  {
    hide *;
    ProjectionParts(q, d);
    ProjectedParts(q, d);
    var tss, xs := ProjectionToks(q, d), ProjectedBy(q, d);
    forall i | 0 <= i < |xs|
      ensures Reads(ReadColumn, tss[i], xs[i])
    {
      if i < |Columns(q)| {
        ColumnReads(Columns(q)[i]);
      } else {
        PathReads(q.jsonSelects[i - |Columns(q)|], d);
      }
    }
  }

  lemma ProjectedParts(q: Query, d: Dialect)
    ensures |ProjectedBy(q, d)| == |Columns(q)| + |q.jsonSelects|
    ensures forall i :: 0 <= i < |Columns(q)| ==> ProjectedBy(q, d)[i] == Column(Columns(q)[i])
    ensures forall i :: |Columns(q)| <= i < |ProjectedBy(q, d)| ==>
      var js := q.jsonSelects[i - |Columns(q)|];
      ProjectedBy(q, d)[i]
      == PathAs(js.col, Text(if d.Sqlite? then SqlitePath(js.segs) else PgPath(js.segs)), js.alias)
  {
    hide SqlitePath, PgPath;
  }

  /** What the query asks for. */
  function StatementOf(q: Query, joins: seq<Joined>, d: Dialect, lock: Option<RowLock>): Statement
    requires forall i :: 0 <= i < |q.preds| ==> !q.preds[i].Raw?
  {
    Statement(q.distinct, ProjectedBy(q, d), q.table, joins, SaidByAll(q.preds, d),
              q.groupBy, q.order, q.limit, q.offset, lock)
  }

  lemma SelectOpened(distinct: bool, list: Rest)
    requires list != [] && (!distinct ==> list[0] != Word("DISTINCT"))
    ensures ReadSelect([Word("SELECT")] + (if distinct then [Word("DISTINCT")] else []) + list)
      == ReadColumns(distinct, list)
  {
    var ts := [Word("SELECT")] + (if distinct then [Word("DISTINCT")] else []) + list;
    assert |ts| >= 2 && ts[0] == Word("SELECT") && (ts[1] == Word("DISTINCT") <==> distinct);
    assert (if distinct then ts[2..] else ts[1..]) == list;
    hide ReadColumns;
  }

  lemma FromRead(q: Query, joins: seq<Joined>, d: Dialect, lock: Option<RowLock>)
    requires Checked(q, joins)
    ensures var rest := WhereToks(q.preds, d) + (TailToks(q) + LockToks(lock));
      ReadFrom(q.distinct, ProjectedBy(q, d), [Word("FROM"), Word(q.table)] + (JoinsToks(joins) + rest))
      == Some(StatementOf(q, joins, d, lock))
  {
    var rest := WhereToks(q.preds, d) + (TailToks(q) + LockToks(lock));
    hide ReadRest, ReadJoins, JoinsToks, ProjectedBy, SaidByAll, WhereToks, TailToks, LockToks, Checked;
    var columns := ProjectedBy(q, d);
    RestRead(Statement(q.distinct, columns, q.table, joins, [], [], [], None, None, None), q, joins, d, lock);
    JoinsRead(joins, rest, []);
    FromOpened(q.distinct, columns, q.table, JoinsToks(joins) + rest);
    assert [] + joins == joins;
  }

  lemma FromOpened(distinct: bool, columns: seq<Projected>, table: string, ts: Rest)
    ensures var (joins, rest) := ReadJoins(ts, []);
      ReadFrom(distinct, columns, [Word("FROM"), Word(table)] + ts)
      == ReadRest(Statement(distinct, columns, table, joins, [], [], [], None, None, None), rest)
  {
    assert ([Word("FROM"), Word(table)] + ts)[2..] == ts;
    hide ReadRest, ReadJoins;
  }

  lemma SelectRead(q: Query, joins: seq<Joined>, d: Dialect, lock: Option<RowLock>)
    requires Checked(q, joins) && (q.distinct || q.columns == [] || q.columns[0] != "DISTINCT")
    ensures ReadSelect(QueryToks(q, joins, d) + LockToks(lock)) == Some(StatementOf(q, joins, d, lock))
  {
    FirstColumn(q);
    hide *;
    QueryIs(q, joins, d);
    ProjectionReads(q, d);
    var list := JoinToks(ProjectionToks(q, d), [Comma]);
    var rest := WhereToks(q.preds, d) + (TailToks(q) + LockToks(lock));
    var from := [Word("FROM"), Word(q.table)] + (JoinsToks(joins) + rest);
    SelectToks(q, joins, d, lock);
    FromRead(q, joins, d, lock);
    ColumnsRead(q, d, from);
    ListHead(ProjectionToks(q, d), [Comma]);
    SelectOpened(q.distinct, list + from);
  }

  lemma SelectToks(q: Query, joins: seq<Joined>, d: Dialect, lock: Option<RowLock>)
    requires Checked(q, joins)
    ensures var rest := WhereToks(q.preds, d) + (TailToks(q) + LockToks(lock));
      QueryToks(q, joins, d) + LockToks(lock)
      == [Word("SELECT")] + (if q.distinct then [Word("DISTINCT")] else [])
         + (JoinToks(ProjectionToks(q, d), [Comma]) + ([Word("FROM"), Word(q.table)] + (JoinsToks(joins) + rest)))
  {
    hide *;
    QueryIs(q, joins, d);
    QueryGroups(HeadToks(q), JoinToks(ProjectionToks(q, d), [Comma]), [Word("FROM")], [Word(q.table)], JoinsToks(joins),
                WhereToks(q.preds, d), TailToks(q), LockToks(lock));
    assert [Word("FROM")] + [Word(q.table)] == [Word("FROM"), Word(q.table)];
  }

  lemma FirstColumn(q: Query)
    requires q.distinct || q.columns == [] || q.columns[0] != "DISTINCT"
    ensures |Columns(q)| > 0 && (!q.distinct ==> Word(Columns(q)[0]) != Word("DISTINCT"))
  {
  }

  lemma QueryGroups<T>(h: seq<T>, l: seq<T>, f: seq<T>, t: seq<T>, j: seq<T>, w: seq<T>, e: seq<T>, k: seq<T>)
    ensures (h + (l + ((f + (t + j)) + (w + e)))) + k == h + (l + ((f + t) + (j + (w + (e + k)))))
  {
    Regrouped(f, t, j);
    Regrouped(f + t, j, w + e);
    Regrouped(h, l + ((f + (t + j)) + (w + e)), k);
    Regrouped(l, (f + (t + j)) + (w + e), k);
    Regrouped(f + t, j + (w + e), k);
    Regrouped(j, w + e, k);
    Regrouped(w, e, k);
  }

  lemma ColumnsRead(q: Query, d: Dialect, from: Rest)
    requires ProjectionChecked(q) && from != [] && from[0] == Word("FROM")
    ensures ReadColumns(q.distinct, JoinToks(ProjectionToks(q, d), [Comma]) + from)
      == ReadFrom(q.distinct, ProjectedBy(q, d), from)
  {
    hide ReadFrom, ReadList, ReadColumn, JoinToks, ProjectionToks, ProjectedBy, ProjectionChecked, Reads;
    ProjectionReads(q, d);
    ListRead(ReadColumn, Comma, ProjectionToks(q, d), ProjectedBy(q, d), from, []);
    assert [] + ProjectedBy(q, d) == ProjectedBy(q, d);
  }

  lemma ListHead(tss: seq<seq<Tok>>, sep: seq<Tok>)
    requires tss != [] && tss[0] != []
    ensures JoinToks(tss, sep) != [] && JoinToks(tss, sep)[0] == tss[0][0]
  {
    hide JoinToks;
    assert JoinToks(tss, sep) == if |tss| == 1 then tss[0]
      else tss[0] + (sep + JoinToks(tss[1..], sep)) by { JoinIs(tss, sep); }
  }

  lemma JoinIs(tss: seq<seq<Tok>>, sep: seq<Tok>)
    requires tss != []
    ensures JoinToks(tss, sep) == if |tss| == 1 then tss[0] else tss[0] + (sep + JoinToks(tss[1..], sep))
  {
  }

  lemma LexNothing()
    ensures Lex("", []) == []
  {
  }

  lemma WholeText(t: Template, toks: seq<Tok>)
    requires Says(t, toks, false)
    ensures Lex(Render(t), Values(t)) == toks
  {
    Signs();
    LexNothing();
    hide *;
    Use(t, toks, false, "", []);
    assert Render(t) + "" == Render(t) && Values(t) + [] == Values(t) && toks + [] == toks;
  }

  lemma QueryLexed(q: Query, joins: seq<Joined>, d: Dialect, caps: Selecting.Caps)
    requires Checked(q, joins) && Selecting.LockClause(q, caps).Some?
    ensures var t := Selecting.SelectTemplate(q, d, Selecting.LockClause(q, caps).value);
      Lex(Render(t), Values(t)) == QueryToks(q, joins, d) + LockToks(if caps.rowLocks then q.lock else None)
  {
    var text := Selecting.LockClause(q, caps).value;
    var lock := if caps.rowLocks then q.lock else None;
    ClauseSays(q, caps);
    assert Selecting.SelectTemplate(q, d, text) == QueryTemplate(q, d) + [Lit(text)];
    hide *;
    QuerySays(q, joins, d);
    TextIsTemplate(text, LockToks(lock), false);
    One(Lit(text));
    ShownIs(text);
    Cat(QueryTemplate(q, d), QueryToks(q, joins, d), false, [Lit(text)], LockToks(lock), false);
    WholeText(QueryTemplate(q, d) + [Lit(text)], QueryToks(q, joins, d) + LockToks(lock));
  }

  lemma RestKeeps(st: Statement, ts: Rest)
    ensures ReadRest(st, ts).Some? ==> ReadRest(st, ts).value.distinct == st.distinct
  {
    hide ReadWhere, ReadBy, ReadNumber, ReadLock;
  }

  lemma ColumnsKeep(distinct: bool, ts: Rest)
    ensures ReadColumns(distinct, ts).Some? ==> ReadColumns(distinct, ts).value.distinct == distinct
  {
    hide ReadList, ReadColumn, ReadJoins, ReadRest;
    match ReadList(ReadColumn, Comma, ts, [])
    case None =>
    case Some((columns, from)) =>
      if |from| >= 2 && from[1].Word? {
        var (joins, rest) := ReadJoins(from[2..], []);
        RestKeeps(Statement(distinct, columns, from[1].s, joins, [], [], [], None, None, None), rest);
      }
  }

  lemma KeywordRead(list: Rest)
    requires list != [] && list[0] == Word("DISTINCT")
    ensures var r := ReadSelect([Word("SELECT")] + [] + list); r.Some? ==> r.value.distinct
  {
    var ts := [Word("SELECT")] + [] + list;
    assert ts[1] == list[0];
    hide ReadColumns;
    ColumnsKeep(true, ts[2..]);
  }

  lemma KeywordFirst(q: Query, joins: seq<Joined>, d: Dialect, lock: Option<RowLock>)
    requires Checked(q, joins) && !q.distinct && q.columns != [] && q.columns[0] == "DISTINCT"
    ensures var r := ReadSelect(QueryToks(q, joins, d) + LockToks(lock)); r.Some? ==> r.value.distinct
  {
    assert Columns(q) == q.columns;
    hide *;
    QueryIs(q, joins, d);
    ProjectionReads(q, d);
    var list := JoinToks(ProjectionToks(q, d), [Comma]);
    var rest := WhereToks(q.preds, d) + (TailToks(q) + LockToks(lock));
    var from := [Word("FROM"), Word(q.table)] + (JoinsToks(joins) + rest);
    SelectToks(q, joins, d, lock);
    ListHead(ProjectionToks(q, d), [Comma]);
    KeywordRead(list + from);
  }

  /** The SQL of a query whose identifiers are checked reads back as the query: nothing is
      lost, nothing added, and each value is where it is meant. Only a first column named
      `DISTINCT` reads as the keyword. */
  lemma QueryReads(q: Query, joins: seq<Joined>, d: Dialect, caps: Selecting.Caps)
    requires Checked(q, joins) && Selecting.LockClause(q, caps).Some?
    ensures var t := Selecting.SelectTemplate(q, d, Selecting.LockClause(q, caps).value);
      ReadSelect(Lex(Render(t), Values(t))) == Some(StatementOf(q, joins, d, if caps.rowLocks then q.lock else None))
      <==> q.distinct || q.columns == [] || q.columns[0] != "DISTINCT"
  {
    var lock := if caps.rowLocks then q.lock else None;
    assert StatementOf(q, joins, d, lock).distinct == q.distinct;
    hide *;
    QueryLexed(q, joins, d, caps);
    if q.distinct || q.columns == [] || q.columns[0] != "DISTINCT" {
      SelectRead(q, joins, d, lock);
    } else {
      KeywordFirst(q, joins, d, lock);
    }
  }

  lemma ClauseSays(q: Query, caps: Selecting.Caps)
    requires Selecting.LockClause(q, caps).Some?
    ensures var text := Selecting.LockClause(q, caps).value;
      TextSays(text, LockToks(if caps.rowLocks then q.lock else None), false) && Ends(text)
  {
    NoneSays();
    if q.lock.Some? { LockSays(q.lock.value, caps); }
    hide Lex, Says, TextSays, Ends, Selecting.LockText;
  }

  // ---- what a chain of calls asks for ----

  predicate IsDistinct(calls: seq<Call>) {
    exists i :: 0 <= i < |calls| && calls[i].Distinct?
  }

  /** The columns of the last call that names any. */
  function Named(calls: seq<Call>): seq<string> {
    if calls == [] then []
    else
      var c := calls[|calls| - 1];
      if c.Select? then c.cols else Named(calls[..|calls| - 1])
  }

  function Grouped(calls: seq<Call>): seq<string> {
    if calls == [] then []
    else
      var c := calls[|calls| - 1];
      if c.GroupBy? then c.cols else Grouped(calls[..|calls| - 1])
  }

  function Limited(calls: seq<Call>): Option<int> {
    if calls == [] then None
    else
      var c := calls[|calls| - 1];
      if c.Limit? then Some(c.n) else Limited(calls[..|calls| - 1])
  }

  function Skipped(calls: seq<Call>): Option<int> {
    if calls == [] then None
    else
      var c := calls[|calls| - 1];
      if c.Offset? then Some(c.n) else Skipped(calls[..|calls| - 1])
  }

  /** Every ordering, join, predicate and document path asked for, in the order of the calls. */
  function Ordered(calls: seq<Call>): seq<(string, bool)> {
    if calls == [] then []
    else
      var c := calls[|calls| - 1];
      Ordered(calls[..|calls| - 1]) + (if c.OrderBy? then [(c.col, c.descending)] else [])
  }

  function JoinedBy(calls: seq<Call>): seq<Joined> {
    if calls == [] then []
    else
      var c := calls[|calls| - 1];
      JoinedBy(calls[..|calls| - 1]) + (if c.AddJoin? then [Joined(c.left, c.other, c.l, c.r)] else [])
  }

  function Wanted(calls: seq<Call>): seq<Pred> {
    if calls == [] then []
    else
      var c := calls[|calls| - 1];
      Wanted(calls[..|calls| - 1])
      + (if c.Where? then [c.p]
         else if c.WhereJson? && ParsePath(c.path).Some? then [JsonCmp(c.c, ParsePath(c.path).value)] else [])
  }

  function Extracted(calls: seq<Call>): seq<JsonSelect> {
    if calls == [] then []
    else
      var c := calls[|calls| - 1];
      Extracted(calls[..|calls| - 1])
      + (if c.SelectJson? && ParsePath(c.path).Some? then [JsonSelect(c.col, ParsePath(c.path).value, c.alias)] else [])
  }

  function AskedLock(calls: seq<Call>): Option<RowLock> {
    if Selecting.LastStrength(calls).None? then None
    else Some(RowLock(Selecting.LastStrength(calls).value, Selecting.LastWait(calls)))
  }

  /** No setter's check failed and no raw fragment was given. */
  ghost predicate Plainly(calls: seq<Call>) {
    forall i :: 0 <= i < |calls| ==> !(calls[i].Where? && calls[i].p.Raw?)
  }

  lemma StepIs(q: Query, c: Call)
    requires !Apply(q, c).bad
    ensures var r := Apply(q, c);
      && !q.bad && r.table == q.table && r.distinct == (q.distinct || c.Distinct?)
      && r.columns == (if c.Select? then c.cols else q.columns)
      && r.joins == q.joins + (if c.AddJoin? then [JoinText(c.left, c.other, c.l, c.r)] else [])
      && r.preds == q.preds
         + (if c.Where? then [c.p]
            else if c.WhereJson? && ParsePath(c.path).Some? then [JsonCmp(c.c, ParsePath(c.path).value)] else [])
      && r.groupBy == (if c.GroupBy? then c.cols else q.groupBy)
      && r.order == q.order + (if c.OrderBy? then [(c.col, c.descending)] else [])
      && r.limit == (if c.Limit? then Some(c.n) else q.limit)
      && r.offset == (if c.Offset? then Some(c.n) else q.offset)
      && r.jsonSelects == q.jsonSelects
         + (if c.SelectJson? && ParsePath(c.path).Some? then [JsonSelect(c.col, ParsePath(c.path).value, c.alias)]
           else [])
  {
    hide ParsePath, JoinText, AllIdent, PredChecked, CondChecked, ValidIdentifier;
  }

  /** A chain that builds holds exactly what its calls ask for. */
  lemma {:induction false} ChainAsks(table: string, calls: seq<Call>)
    requires !Chain(table, calls).bad
    ensures var q := Chain(table, calls);
      && q.table == table && q.distinct == IsDistinct(calls) && q.columns == Named(calls)
      && q.joins == JoinsText(JoinedBy(calls)) && q.preds == Wanted(calls) && q.groupBy == Grouped(calls)
      && q.order == Ordered(calls) && q.limit == Limited(calls) && q.offset == Skipped(calls)
      && q.jsonSelects == Extracted(calls)
    decreases |calls|
  {
    if calls == [] {
      assert JoinsText([]) == [];
    } else {
      var front, c := calls[..|calls| - 1], calls[|calls| - 1];
      ChainStep(table, calls);
      AsksStep(calls);
      hide *;
      StepIs(Chain(table, front), c);
      ChainAsks(table, front);
      if c.AddJoin? { JoinedIs(c.left, c.other, c.l, c.r); }
      JoinsMore(JoinedBy(front), if c.AddJoin? then [Joined(c.left, c.other, c.l, c.r)] else []);
    }
  }

  lemma ChainStep(table: string, calls: seq<Call>)
    requires calls != []
    ensures Chain(table, calls) == Apply(Chain(table, calls[..|calls| - 1]), calls[|calls| - 1])
  {
    hide Apply;
  }

  /** What one more call adds to what is asked. */
  lemma AsksStep(calls: seq<Call>)
    requires calls != []
    ensures var front, c := calls[..|calls| - 1], calls[|calls| - 1];
      && (IsDistinct(calls) <==> IsDistinct(front) || c.Distinct?)
      && Named(calls) == (if c.Select? then c.cols else Named(front))
      && JoinedBy(calls) == JoinedBy(front) + (if c.AddJoin? then [Joined(c.left, c.other, c.l, c.r)] else [])
      && Wanted(calls) == Wanted(front)
         + (if c.Where? then [c.p]
            else if c.WhereJson? && ParsePath(c.path).Some? then [JsonCmp(c.c, ParsePath(c.path).value)] else [])
      && Grouped(calls) == (if c.GroupBy? then c.cols else Grouped(front))
      && Ordered(calls) == Ordered(front) + (if c.OrderBy? then [(c.col, c.descending)] else [])
      && Limited(calls) == (if c.Limit? then Some(c.n) else Limited(front))
      && Skipped(calls) == (if c.Offset? then Some(c.n) else Skipped(front))
      && Extracted(calls) == Extracted(front)
         + (if c.SelectJson? && ParsePath(c.path).Some? then [JsonSelect(c.col, ParsePath(c.path).value, c.alias)]
           else [])
  {
    DistinctMore(calls[..|calls| - 1], calls[|calls| - 1]);
    assert calls == calls[..|calls| - 1] + [calls[|calls| - 1]];
    hide ParsePath, IsDistinct;
  }

  lemma JoinedIs(left: bool, other: string, l: string, r: string)
    ensures JoinedText(Joined(left, other, l, r)) == JoinText(left, other, l, r)
  {
    hide JoinText;
  }

  lemma JoinsMore(a: seq<Joined>, b: seq<Joined>)
    ensures JoinsText(a + b) == JoinsText(a) + JoinsText(b)
    ensures |b| == 1 ==> JoinsText(b) == [JoinedText(b[0])]
    ensures b == [] ==> JoinsText(b) == []
  {
    hide JoinedText;
  }

  lemma DistinctMore(calls: seq<Call>, c: Call)
    ensures IsDistinct(calls + [c]) <==> IsDistinct(calls) || c.Distinct?
  {
    if i :| 0 <= i < |calls| && calls[i].Distinct? {
      assert (calls + [c])[i].Distinct?;
    }
    assert (calls + [c])[|calls|] == c;
  }

  // ---- what it was checked for ----

  /** The identifiers a call checks. */
  ghost predicate CallChecked(c: Call) {
    match c
    case Select(cols) => AllIdent(cols)
    case Where(p) => PredChecked(p)
    case AddJoin(left, other, l, r) => JoinChecked(Joined(left, other, l, r))
    case GroupBy(cols) => AllIdent(cols)
    case OrderBy(col, _) => ValidIdentifier(col)
    case WhereJson(cond, _) => CondChecked(cond)
    case SelectJson(col, _, alias) => ValidIdentifier(col) && ValidIdentifier(alias)
    case _ => true
  }

  lemma CallIsChecked(q: Query, c: Call)
    requires !Apply(q, c).bad
    ensures CallChecked(c)
  {
    match c
    case AddJoin(left, other, l, r) =>
      assert ValidIdentifier([other, l, r][0]) && ValidIdentifier([other, l, r][1])
        && ValidIdentifier([other, l, r][2]);
    case SelectJson(col, _, alias) =>
      assert ValidIdentifier([col, alias][0]) && ValidIdentifier([col, alias][1]);
    case _ =>
    hide ParsePath, ValidIdentifier, CondChecked, PredChecked, JoinText;
  }

  lemma StepChecked(q: Query, c: Call, joins: seq<Joined>)
    requires Checked(q, joins) && !Apply(q, c).bad && !(c.Where? && c.p.Raw?)
    ensures Checked(Apply(q, c), joins + (if c.AddJoin? then [Joined(c.left, c.other, c.l, c.r)] else []))
  {
    StepIs(q, c);
    CallIsChecked(q, c);
    var extra := if c.AddJoin? then [Joined(c.left, c.other, c.l, c.r)] else [];
    var r := Apply(q, c);
    hide Apply, ParsePath, ValidIdentifier, CondChecked, JoinsText, JoinText, JoinedText, JoinChecked;
    JoinsMore(joins, extra);
    if c.AddJoin? { JoinedIs(c.left, c.other, c.l, c.r); }
    PredsChecked(q, c, r.preds);
    assert ProjectionChecked(r);
    hide ProjectionChecked, PredChecked, AllIdent;
  }

  lemma PredsChecked(q: Query, c: Call, preds: seq<Pred>)
    requires forall i :: 0 <= i < |q.preds| ==> !q.preds[i].Raw? && PredChecked(q.preds[i])
    requires CallChecked(c) && !(c.Where? && c.p.Raw?)
    requires preds == q.preds
      + (if c.Where? then [c.p]
         else if c.WhereJson? && ParsePath(c.path).Some? then [JsonCmp(c.c, ParsePath(c.path).value)] else [])
    ensures forall i :: 0 <= i < |preds| ==> !preds[i].Raw? && PredChecked(preds[i])
  {
    hide ParsePath, ValidIdentifier, CondChecked;
  }

  lemma {:induction false} ChainChecked(table: string, calls: seq<Call>)
    requires !Chain(table, calls).bad && Plainly(calls)
    ensures Checked(Chain(table, calls), JoinedBy(calls))
    decreases |calls|
  {
    if calls == [] {
      assert JoinsText([]) == [];
    } else {
      var front, c := calls[..|calls| - 1], calls[|calls| - 1];
      assert Chain(table, calls) == Apply(Chain(table, front), c);
      StepIs(Chain(table, front), c);
      ChainChecked(table, front);
      StepChecked(Chain(table, front), c, JoinedBy(front));
      hide Apply, Chain, Checked;
    }
  }

  /** What the calls ask of the engine. */
  ghost function Asked(table: string, calls: seq<Call>, d: Dialect, caps: Selecting.Caps): Statement
    requires Plainly(calls)
  {
    WantedPlain(calls);
    Statement(
      IsDistinct(calls), AskedColumns(Named(calls), Extracted(calls), d), table, JoinedBy(calls),
      SaidByAll(Wanted(calls), d), Grouped(calls), Ordered(calls), Limited(calls), Skipped(calls),
      if caps.rowLocks then AskedLock(calls) else None)
  }

  function AskedColumns(names: seq<string>, paths: seq<JsonSelect>, d: Dialect): seq<Projected> {
    var all := if names == [] then ["*"] else names;
    seq(|all|, i requires 0 <= i < |all| => Column(all[i]))
    + seq(|paths|, i requires 0 <= i < |paths| =>
        PathAs(paths[i].col, Text(if d.Sqlite? then SqlitePath(paths[i].segs) else PgPath(paths[i].segs)),
          paths[i].alias))
  }

  lemma {:induction false} WantedPlain(calls: seq<Call>)
    requires Plainly(calls)
    ensures forall i :: 0 <= i < |Wanted(calls)| ==> !Wanted(calls)[i].Raw?
    decreases |calls|
  {
    if calls != [] {
      WantedPlain(calls[..|calls| - 1]);
      assert !(calls[|calls| - 1].Where? && calls[|calls| - 1].p.Raw?);
    }
    hide ParsePath;
  }

  /** The SQL and the values sent for a chain of calls say exactly what the calls asked for:
      read back word by word, each placeholder taking the next value, they give the columns,
      the tables, the predicates, the grouping, the order, the page and the lock. Only a
      first column named `DISTINCT`, which is accepted, reads as the keyword. */
  lemma SelectReadsBack(table: string, calls: seq<Call>, d: Dialect, caps: Selecting.Caps)
    requires !Chain(table, calls).bad && Plainly(calls) && Selecting.LockClause(Chain(table, calls), caps).Some?
    ensures var q := Chain(table, calls);
      var t := Selecting.SelectTemplate(q, d, Selecting.LockClause(q, caps).value);
      ReadSelect(Lex(Render(t), Values(t))) == Some(Asked(table, calls, d, caps))
      <==> IsDistinct(calls) || Named(calls) == [] || Named(calls)[0] != "DISTINCT"
  {
    hide *;
    var q := Chain(table, calls);
    ChainAsks(table, calls);
    ChainChecked(table, calls);
    Selecting.ChainLock(table, calls);
    QueryReads(q, JoinedBy(calls), d, caps);
    WantedPlain(calls);
    AskedIs(table, calls, d, caps, q);
  }

  lemma AskedIs(table: string, calls: seq<Call>, d: Dialect, caps: Selecting.Caps, q: Query)
    requires Plainly(calls) && q.table == table && q.distinct == IsDistinct(calls) && q.columns == Named(calls)
    requires q.preds == Wanted(calls) && q.groupBy == Grouped(calls) && q.order == Ordered(calls)
    requires q.limit == Limited(calls) && q.offset == Skipped(calls) && q.jsonSelects == Extracted(calls)
    requires q.lock == match Selecting.LastStrength(calls)
                       case None => None
                       case Some(exclusive) => Some(RowLock(exclusive, Selecting.LastWait(calls)))
    ensures forall i :: 0 <= i < |q.preds| ==> !q.preds[i].Raw?
    ensures StatementOf(q, JoinedBy(calls), d, if caps.rowLocks then q.lock else None) == Asked(table, calls, d, caps)
  {
    WantedPlain(calls);
    assert ProjectedBy(q, d) == AskedColumns(Named(calls), Extracted(calls), d) by { ColumnsAsked(q, d); }
    hide Plainly, IsDistinct, Named, Wanted, Grouped, Ordered, Limited, Skipped, Extracted, JoinedBy, SaidByAll,
      ProjectedBy,
      AskedColumns, Selecting.LastStrength, Selecting.LastWait;
  }

  lemma ColumnsAsked(q: Query, d: Dialect)
    ensures ProjectedBy(q, d) == AskedColumns(q.columns, q.jsonSelects, d)
  {
    hide SqlitePath, PgPath;
  }

  // ---- the count ----

  const COUNTING: seq<Tok> :=
    [Word("SELECT"), Word("COUNT"), Open, Word("*"), Close, Word("AS"), Word("count")]

  /** The table, the joins and the predicates counted over. */
  function ReadCount(ts: Rest): Option<(string, seq<Joined>, seq<Said>)> {
    if |ts| < 9 || ts[..7] != COUNTING || ts[7] != Word("FROM") || !ts[8].Word? then None
    else
      var (joins, rest) := ReadJoins(ts[9..], []);
      match ReadWhere(rest)
      case None => None
      case Some((preds, end)) => if end == [] then Some((ts[8].s, joins, preds)) else None
  }

  lemma CountingWords()
    ensures AllWord("SELECT") && AllWord("COUNT") && AllWord("*") && AllWord("AS") && AllWord("count")
    ensures Ends(" count") && Ends(") AS count") && Ends("(*) AS count")
  {
  }

  lemma CountingText()
    ensures " " + "AS" == " AS" && " " + "count" == " count" && " AS" + " count" == " AS count"
    ensures ")" + " AS count" == ") AS count" && "*" + ") AS count" == "*) AS count"
    ensures "(" + "*) AS count" == "(*) AS count"
  {
  }

  lemma CountingHead()
    ensures "COUNT" + "(*) AS count" == "COUNT(*) AS count" && "SELECT" + " " == "SELECT "
    ensures "SELECT " + "COUNT(*) AS count" == "SELECT COUNT(*) AS count"
  {
  }

  lemma CountingToks()
    ensures ([Word("SELECT")] + []) + ([Word("COUNT")]
      + ([Open] + ([Word("*")] + ([Close] + ([Word("AS")] + [Word("count")]))))) == COUNTING
  {
  }

  lemma CountingSays()
    ensures TextSays("SELECT COUNT(*) AS count", COUNTING, false)
  {
    hide *;
    CountingWords();
    CountingText();
    CountingHead();
    CountingToks();
    Signs();
    WordSays("SELECT");
    NextWord("AS");
    NextWord("count");
    var end := [Word("AS")] + [Word("count")];
    TextCat(" AS", [Word("AS")], false, " count", [Word("count")], false);
    TextCat(")", [Close], true, " AS count", end, false);
    HeadWord("*", ") AS count", [Close] + end, false);
    TextCat("(", [Open], true, "*) AS count", [Word("*")] + ([Close] + end), false);
    HeadWord("COUNT", "(*) AS count", [Open] + ([Word("*")] + ([Close] + end)), false);
    TextCat("SELECT", [Word("SELECT")], false, " ", [], true);
    TextCat("SELECT ", [Word("SELECT")] + [], true, "COUNT(*) AS count",
            [Word("COUNT")] + ([Open] + ([Word("*")] + ([Close] + end))), false);
  }

  lemma CountHeadIs(q: Query, d: Dialect)
    ensures CountTemplate(q, d) == [Lit(CountHead(q))] + WhereTemplate(q.preds, d)
    ensures CountHead(q) == "SELECT COUNT(*) AS count" + (" FROM " + From(q))
  {
    hide WhereTemplate, From;
  }

  lemma CountSays(q: Query, joins: seq<Joined>, d: Dialect)
    requires Checked(q, joins)
    ensures Says(CountTemplate(q, d), (COUNTING + FromToks(q, joins)) + WhereToks(q.preds, d), false)
  {
    hide *;
    QueryIs(q, joins, d);
    CountHeadIs(q, d);
    CountingSays();
    FromSays(q, joins);
    TextCat("SELECT COUNT(*) AS count", COUNTING, false, " FROM " + From(q), FromToks(q, joins), false);
    TextIsTemplate(CountHead(q), COUNTING + FromToks(q, joins), false);
    WhereSays(q.preds, d);
    Cat([Lit(CountHead(q))], COUNTING
      + FromToks(q, joins), false, WhereTemplate(q.preds, d), WhereToks(q.preds, d), false);
  }

  lemma CountRead(q: Query, joins: seq<Joined>, d: Dialect)
    requires Checked(q, joins)
    ensures ReadCount((COUNTING + FromToks(q, joins)) + WhereToks(q.preds, d))
      == Some((q.table, joins, SaidByAll(q.preds, d)))
  {
    hide *;
    QueryIs(q, joins, d);
    var wheres := WhereToks(q.preds, d);
    SameKeys();
    WhereRead(q.preds, d, []);
    WhereBegins(q.preds, d, [], {"GROUP", "ORDER", "LIMIT", "OFFSET", "FOR"});
    assert wheres + [] == wheres && [] + joins == joins;
    JoinsRead(joins, wheres, []);
    CountOpened(q.table, JoinsToks(joins) + wheres, joins, wheres, SaidByAll(q.preds, d));
    Regrouped(COUNTING, [Word("FROM")] + ([Word(q.table)] + JoinsToks(joins)), wheres);
    Regrouped([Word("FROM")], [Word(q.table)] + JoinsToks(joins), wheres);
    Regrouped([Word(q.table)], JoinsToks(joins), wheres);
    Regrouped([Word("FROM")], [Word(q.table)], JoinsToks(joins) + wheres);
    assert [Word("FROM")] + [Word(q.table)] == [Word("FROM"), Word(q.table)];
  }

  lemma SameKeys()
    ensures {"WHERE"} + {"GROUP", "ORDER", "LIMIT", "OFFSET", "FOR"}
      == {"WHERE", "GROUP", "ORDER", "LIMIT", "OFFSET", "FOR"}
    ensures forall keys :: Begins([], keys)
    ensures Plain([])
  {
  }

  lemma CountOpened(table: string, ts: Rest, joins: seq<Joined>, rest: Rest, preds: seq<Said>)
    requires ReadJoins(ts, []) == (joins, rest) && ReadWhere(rest) == Some((preds, []))
    ensures ReadCount(COUNTING + ([Word("FROM"), Word(table)] + ts)) == Some((table, joins, preds))
  {
    var all := COUNTING + ([Word("FROM"), Word(table)] + ts);
    assert all[..7] == COUNTING && all[9..] == ts && all[7] == Word("FROM") && all[8] == Word(table);
    hide ReadJoins, ReadWhere;
  }

  /** The count of a chain is over the same tables and predicates. */
  lemma CountReadsBack(table: string, calls: seq<Call>, d: Dialect)
    requires !Chain(table, calls).bad && Plainly(calls)
    ensures var t := CountTemplate(Chain(table, calls), d);
      && (forall i :: 0 <= i < |Wanted(calls)| ==> !Wanted(calls)[i].Raw?)
      && ReadCount(Lex(Render(t), Values(t))) == Some((table, JoinedBy(calls), SaidByAll(Wanted(calls), d)))
  {
    hide *;
    var q, joins := Chain(table, calls), JoinedBy(calls);
    WantedPlain(calls);
    ChainAsks(table, calls);
    ChainChecked(table, calls);
    QueryIs(q, joins, d);
    CountSays(q, joins, d);
    CountRead(q, joins, d);
    WholeText(CountTemplate(q, d), (COUNTING + FromToks(q, joins)) + WhereToks(q.preds, d));
  }

  // ---- UPDATE ----

  datatype Change = Change(table: string, sets: seq<Updates.Assignment>, preds: seq<Said>, returning: seq<string>)

  function ReadSet(ts: Rest): Option<(Updates.Assignment, Rest)> {
    if |ts| >= 3 && ts[0].Word? && ts[1] == Word("=") && ts[2].Bound? then
      Some((Updates.Assignment(ts[0].s, ts[2].v), ts[3..]))
    else None
  }

  function ReadSets(ts: Rest): Option<(seq<Updates.Assignment>, Rest)> {
    if ReadSet(ts).None? then Some(([], ts)) else ReadList(ReadSet, Comma, ts, [])
  }

  function ReadReturning(ts: Rest): Option<(seq<string>, Rest)> {
    if ts != [] && ts[0] == Word("RETURNING") then ReadList(ReadName, Comma, ts[1..], []) else Some(([], ts))
  }

  function ReadUpdate(ts: Rest): Option<Change> {
    if |ts| < 3 || ts[0] != Word("UPDATE") || !ts[1].Word? || ts[2] != Word("SET") then None
    else
      match ReadSets(ts[3..])
      case None => None
      case Some((sets, wheres)) =>
        match ReadWhere(wheres)
        case None => None
        case Some((preds, behind)) =>
          match ReadReturning(behind)
          case None => None
          case Some((returning, end)) => if end == [] then Some(Change(ts[1].s, sets, preds, returning)) else None
  }

  /** Every assignment and predicate, in order, and the last list of columns to return. */
  function Assigned(calls: seq<Updates.Call>): seq<Updates.Assignment> {
    if calls == [] then []
    else
      var c := calls[|calls| - 1];
      Assigned(calls[..|calls| - 1]) + (if c.Set? then [c.a] else [])
  }

  function Restricted(calls: seq<Updates.Call>): seq<Pred> {
    if calls == [] then []
    else
      var c := calls[|calls| - 1];
      Restricted(calls[..|calls| - 1]) + (if c.Where? then [c.p] else [])
  }

  function Returns(calls: seq<Updates.Call>): seq<string> {
    if calls == [] then []
    else
      var c := calls[|calls| - 1];
      if c.Returning? then c.cols else Returns(calls[..|calls| - 1])
  }

  ghost predicate NoRaw(preds: seq<Pred>) {
    forall i :: 0 <= i < |preds| ==> !preds[i].Raw?
  }

  lemma {:induction false} UpdateAsks(table: string, calls: seq<Updates.Call>)
    requires !Updates.Chain(table, calls).bad
    ensures Updates.Chain(table, calls)
      == Updates.Update(table, Assigned(calls), Restricted(calls), Returns(calls), false)
    ensures ValidIdentifier(table) && AllIdent(Returns(calls))
    ensures forall i :: 0 <= i < |Assigned(calls)| ==> ValidIdentifier(Assigned(calls)[i].col)
    ensures forall i :: 0 <= i < |Restricted(calls)| ==> PredChecked(Restricted(calls)[i])
    decreases |calls|
  {
    if calls != [] {
      UpdateAsks(table, calls[..|calls| - 1]);
    }
    hide ValidIdentifier, PredChecked;
  }

  function SetsToks(sets: seq<Updates.Assignment>): seq<seq<Tok>> {
    seq(|sets|, i requires 0 <= i < |sets| => [Word(sets[i].col), Word("="), Bound(sets[i].v)])
  }

  lemma SetSays(a: Updates.Assignment)
    requires ValidIdentifier(a.col)
    ensures Says(Around(a.col + " = ", a.v, ""), [Word(a.col), Word("="), Bound(a.v)], false)
  {
    assert AllWord("=") && " " + "=" + " " == " = " && " " + "= " == " = ";
    assert ([Word(a.col)] + [Word("=")]) + ([Bound(a.v)] + []) == [Word(a.col), Word("="), Bound(a.v)];
    IdentifierIsWord(a.col);
    hide *;
    BetweenWord("=");
    BlankEnds("= ");
    HeadWord(a.col, " = ", [Word("=")], true);
    NothingSays();
    AroundSays(a.col + " = ", [Word(a.col)] + [Word("=")], a.v, "", [], true);
    Weaken(Around(a.col + " = ", a.v, ""), [Word(a.col), Word("="), Bound(a.v)]);
  }

  lemma SetsSay(sets: seq<Updates.Assignment>)
    requires forall i :: 0 <= i < |sets| ==> ValidIdentifier(sets[i].col)
    ensures Says(JoinAll(Updates.SetTemplates(sets), ", "), JoinToks(SetsToks(sets), [Comma]), false)
  {
    hide Lex, Says, Around, JoinAll, JoinToks, ValidIdentifier;
    if sets == [] {
      NothingSays();
      Weaken([], []);
      NoSets(sets);
    } else {
      forall i | 0 <= i < |sets|
        ensures Says(Updates.SetTemplates(sets)[i], SetsToks(sets)[i], false)
      {
        SetSays(sets[i]);
      }
      CommaSays();
      Signs();
      JoinSays(Updates.SetTemplates(sets), SetsToks(sets), ", ", [Comma]);
    }
  }

  lemma NoSets(sets: seq<Updates.Assignment>)
    requires sets == []
    ensures JoinAll(Updates.SetTemplates(sets), ", ") == [] && JoinToks(SetsToks(sets), [Comma]) == []
  {
  }

  function ReturningToks(cols: seq<string>): seq<Tok> {
    if cols == [] then [] else [Word("RETURNING")] + JoinToks(NamesToks(cols), [Comma])
  }

  lemma ReturningSays(cols: seq<string>)
    requires AllIdent(cols)
    ensures TextSays(Updates.Returned(cols), ReturningToks(cols), false) && Ends(Updates.Returned(cols))
  {
    assert AllWord("RETURNING") && " " + "RETURNING" + " " == " RETURNING ";
    assert " " + ("RETURNING " + Join(cols, ", ")) == " RETURNING " + Join(cols, ", ");
    hide Lex, Says, TextSays, Ends, AllWord, Join, JoinToks, AllIdent, NamesToks;
    NoneSays();
    if cols != [] {
      NamesSay(cols);
      BetweenWord("RETURNING");
      BlankEnds("RETURNING " + Join(cols, ", "));
      TextCat(" RETURNING ", [Word("RETURNING")], true, Join(cols, ", "), JoinToks(NamesToks(cols), [Comma]), false);
    }
  }

  /** `UPDATE table SET ` */
  lemma UpdateHeadSays(table: string)
    requires ValidIdentifier(table)
    ensures TextSays("UPDATE " + table + " SET ", [Word("UPDATE"), Word(table), Word("SET")], true)
  {
    assert AllWord("UPDATE") && AllWord("SET") && "UPDATE" + " " == "UPDATE " && " " + "SET" + " " == " SET ";
    assert "UPDATE " + (table + " SET ") == "UPDATE " + table + " SET " && " " + "SET " == " SET ";
    assert [Word("UPDATE")] + ([Word(table)] + [Word("SET")]) == [Word("UPDATE"), Word(table), Word("SET")];
    assert [Word("UPDATE")] + [] == [Word("UPDATE")];
    IdentifierIsWord(table);
    hide *;
    Signs();
    WordSays("UPDATE");
    TextCat("UPDATE", [Word("UPDATE")], false, " ", [], true);
    BetweenWord("SET");
    BlankEnds("SET ");
    HeadWord(table, " SET ", [Word("SET")], true);
    TextCat("UPDATE ", [Word("UPDATE")], true, table + " SET ", [Word(table)] + [Word("SET")], true);
  }

  ghost predicate UpdateChecked(u: Updates.Update) {
    && ValidIdentifier(u.table) && AllIdent(u.returning)
    && (forall i :: 0 <= i < |u.sets| ==> ValidIdentifier(u.sets[i].col))
    && forall i :: 0 <= i < |u.preds| ==> !u.preds[i].Raw? && PredChecked(u.preds[i])
  }

  function UpdateToks(u: Updates.Update): seq<Tok>
    requires forall i :: 0 <= i < |u.preds| ==> !u.preds[i].Raw?
  {
    [Word("UPDATE"), Word(u.table), Word("SET")]
    + (JoinToks(SetsToks(u.sets), [Comma]) + ([] + (WhereToks(u.preds, Sqlite) + ReturningToks(u.returning))))
  }

  lemma UpdateSays(u: Updates.Update)
    requires UpdateChecked(u)
    ensures Says(Updates.UpdateTemplate(u), UpdateToks(u), false)
  {
    UpdateIs(u);
    hide *;
    UpdateHeadSays(u.table);
    SetsSay(u.sets);
    WhereSays(u.preds, Sqlite);
    ReturningSays(u.returning);
    var toks, wheres := JoinToks(SetsToks(u.sets), [Comma]), WhereToks(u.preds, Sqlite);
    var ws := WhereTemplate(u.preds, Sqlite);
    var tail := [Lit(Updates.Returned(u.returning))];
    TextIsTemplate(Updates.Returned(u.returning), ReturningToks(u.returning), false);
    One(Lit(Updates.Returned(u.returning)));
    ShownIs(Updates.Returned(u.returning));
    Cat(ws, wheres, false, tail, ReturningToks(u.returning), false);
    RenderCat(ws, tail);
    EndsCat(Render(ws), Updates.Returned(u.returning));
    NoneSays();
    TextIsTemplate("", [], false);
    One(Lit(""));
    ShownIs("");
    Cat([Lit("")], [], false, ws + tail, wheres + ReturningToks(u.returning), false);
    RenderCat([Lit("")], ws + tail);
    assert "" + Render(ws + tail) == Render(ws + tail);
    Cat(JoinAll(Updates.SetTemplates(u.sets), ", "), toks, false, [Lit("")] + (ws + tail),
        [] + (wheres + ReturningToks(u.returning)), false);
    TextIsTemplate(Updates.Head(u), [Word("UPDATE"), Word(u.table), Word("SET")], true);
    Cat([Lit(Updates.Head(u))], [Word("UPDATE"), Word(u.table), Word("SET")], true,
        JoinAll(Updates.SetTemplates(u.sets), ", ") + ([Lit("")] + (ws + tail)),
        toks + ([] + (wheres + ReturningToks(u.returning))), false);
  }

  lemma UpdateIs(u: Updates.Update)
    requires UpdateChecked(u)
    ensures ValidIdentifier(u.table) && AllIdent(u.returning)
    ensures forall i :: 0 <= i < |u.sets| ==> ValidIdentifier(u.sets[i].col)
    ensures forall i :: 0 <= i < |u.preds| ==> !u.preds[i].Raw? && PredChecked(u.preds[i])
    ensures Updates.Head(u) == "UPDATE " + u.table + " SET "
    ensures Updates.UpdateTemplate(u) ==
      [Lit(Updates.Head(u))] + (JoinAll(Updates.SetTemplates(u.sets), ", ")
        + ([Lit("")] + (WhereTemplate(u.preds, Sqlite) + [Lit(Updates.Returned(u.returning))])))
    ensures UpdateToks(u) ==
      [Word("UPDATE"), Word(u.table), Word("SET")]
      + (JoinToks(SetsToks(u.sets), [Comma]) + ([] + (WhereToks(u.preds, Sqlite) + ReturningToks(u.returning))))
  {
    hide ValidIdentifier, PredChecked, JoinAll, JoinToks, WhereTemplate, WhereToks, Updates.Returned, ReturningToks,
      Updates.SetTemplates, SetsToks;
  }

  lemma SetReads(sets: seq<Updates.Assignment>)
    ensures |SetsToks(sets)| == |sets|
    ensures forall i :: 0 <= i < |sets| ==> Reads(ReadSet, SetsToks(sets)[i], sets[i])
  {
    forall i | 0 <= i < |sets|
      ensures Reads(ReadSet, SetsToks(sets)[i], sets[i])
    {
      var toks := SetsToks(sets)[i];
      forall rest | Plain(rest)
        ensures ReadSet(toks + rest) == Some((sets[i], rest))
      {
        assert (toks + rest)[3..] == rest && sets[i] == Updates.Assignment(sets[i].col, sets[i].v);
      }
      ReadsIs(ReadSet, toks, sets[i]);
    }
  }

  /** No clause but a list of assignments has a sign of equality in second place. */
  lemma SetsRead(sets: seq<Updates.Assignment>, rest: Rest)
    requires Plain(rest) && (rest == [] || rest[0] != Comma) && (|rest| >= 2 ==> rest[1] != Word("="))
    ensures ReadSets(JoinToks(SetsToks(sets), [Comma]) + rest) == Some((sets, rest))
  {
    hide JoinToks, ReadList;
    SetReads(sets);
    if sets == [] {
      NoSets(sets);
      assert JoinToks(SetsToks(sets), [Comma]) + rest == rest;
    } else {
      ListRead(ReadSet, Comma, SetsToks(sets), sets, rest, []);
      assert [] + sets == sets;
      FirstSet(sets, rest);
    }
  }

  lemma FirstSet(sets: seq<Updates.Assignment>, rest: Rest)
    requires sets != []
    ensures ReadSet(JoinToks(SetsToks(sets), [Comma]) + rest).Some?
  {
    JoinIs(SetsToks(sets), [Comma]);
    assert SetsToks(sets)[0] == [Word(sets[0].col), Word("="), Bound(sets[0].v)];
    hide JoinToks;
  }

  lemma ReturningRead(cols: seq<string>)
    ensures ReadReturning(ReturningToks(cols)) == Some((cols, [])) && Begins(ReturningToks(cols), {"RETURNING"})
  {
    hide JoinToks, ReadList, Reads;
    if cols != [] {
      NameReads(cols);
      ListRead(ReadName, Comma, NamesToks(cols), cols, [], []);
      assert ReturningToks(cols)[1..] == JoinToks(NamesToks(cols), [Comma]) + [] && [] + cols == cols;
    }
  }

  /** The second word or sign of a WHERE clause is a column, a bracket, a zero or a function. */
  lemma SecondIs(p: Pred, d: Dialect)
    requires !p.Raw? && PredChecked(p)
    ensures PredToks(p, d) != [] && PredToks(p, d)[0] != Word("=")
  {
    match p
    case Cmp(c) => NotEquals(c.col);
    case In(col, _) => NotEquals(col);
    case IsNull(col, _) => NotEquals(col);
    case Or(_) =>
    case JsonCmp(c, _) => NotEquals(c.col);
    case JsonContains(col, _) => NotEquals(col);
    hide ValidIdentifier, ValidOperator, JoinToks, OpToks;
  }

  lemma NotEquals(col: string)
    requires ValidIdentifier(col)
    ensures col != "="
  {
    IdentifierIs(col);
  }

  lemma WhereSecond(preds: seq<Pred>, cols: seq<string>)
    requires forall i :: 0 <= i < |preds| ==> !preds[i].Raw? && PredChecked(preds[i])
    requires AllIdent(cols)
    ensures var rest := WhereToks(preds, Sqlite) + ReturningToks(cols); |rest| >= 2 ==> rest[1] != Word("=")
  {
    if preds == [] {
      assert WhereToks(preds, Sqlite) + ReturningToks(cols) == ReturningToks(cols);
      if cols != [] {
        NotEquals(cols[0]);
        ListHead(NamesToks(cols), [Comma]);
      }
    } else {
      SecondIs(preds[0], Sqlite);
      ListHead(PredsToks(preds, Sqlite), [Word("AND")]);
    }
    hide JoinToks, PredToks, ValidIdentifier, PredChecked;
  }

  lemma ChangeRead(u: Updates.Update)
    requires UpdateChecked(u)
    ensures ReadUpdate(UpdateToks(u)) == Some(Change(u.table, u.sets, SaidByAll(u.preds, Sqlite), u.returning))
  {
    hide *;
    UpdateIs(u);
    var sets, ret := JoinToks(SetsToks(u.sets), [Comma]), ReturningToks(u.returning);
    var rest := WhereToks(u.preds, Sqlite) + ret;
    ReturningRead(u.returning);
    BeginsPlain(ret, {"RETURNING"});
    WhereRead(u.preds, Sqlite, ret);
    WhereBegins(u.preds, Sqlite, ret, {"RETURNING"});
    BeginsPlain(rest, {"WHERE"} + {"RETURNING"});
    WhereSecond(u.preds, u.returning);
    SetsRead(u.sets, rest);
    UpdateOpened(u.table, u.sets, sets + rest, rest, SaidByAll(u.preds, Sqlite), ret, u.returning);
    assert [] + rest == rest;
  }

  lemma BeginsPlain(ts: Rest, keys: set<string>)
    requires Begins(ts, keys) && "#>>" !in keys && "AND" !in keys
    ensures Plain(ts) && (ts == [] || (ts[0] != Comma && ts[0] != Word("AND")))
    ensures "WHERE" !in keys ==> ts == [] || ts[0] != Word("WHERE")
  {
  }

  lemma UpdateOpened(table: string, sets: seq<Updates.Assignment>, all: Rest, rest: Rest, preds: seq<Said>, ret: Rest,
                     cols: seq<string>)
    requires ReadSets(all) == Some((sets, rest)) && ReadWhere(rest) == Some((preds, ret))
    requires ReadReturning(ret) == Some((cols, []))
    ensures ReadUpdate([Word("UPDATE"), Word(table), Word("SET")] + all) == Some(Change(table, sets, preds, cols))
  {
    assert ([Word("UPDATE"), Word(table), Word("SET")] + all)[3..] == all;
    hide ReadSets, ReadWhere, ReadReturning;
  }

  /** An UPDATE says exactly what its calls asked for: every assignment, the rows, and what
      to return. */
  lemma UpdateReadsBack(table: string, calls: seq<Updates.Call>)
    requires !Updates.Chain(table, calls).bad && NoRaw(Restricted(calls))
    ensures var t := Updates.UpdateTemplate(Updates.Chain(table, calls));
      ReadUpdate(Lex(Render(t), Values(t)))
      == Some(Change(table, Assigned(calls), SaidByAll(Restricted(calls), Sqlite), Returns(calls)))
  {
    var u := Updates.Chain(table, calls);
    UpdateAsks(table, calls);
    assert UpdateChecked(u);
    hide *;
    UpdateSays(u);
    ChangeRead(u);
    WholeText(Updates.UpdateTemplate(u), UpdateToks(u));
  }
}
