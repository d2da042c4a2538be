/** The query builders: fluent calls that check identifiers as they come, and the SQL and
    bound values they build. */
module Builder {
  import opened Wrappers
  import opened Decimals
  import opened Sql
  import opened Identifiers
  import opened JsonPath

  // ---- predicates ----

  datatype Dialect = Sqlite | Postgres
  datatype Cond = Cond(col: string, op: string, v: Value)

  datatype Pred =
    | Cmp(c: Cond)
    | In(col: string, values: seq<Value>)
    | IsNull(col: string, isNull: bool)
    | Or(group: seq<Cond>)
    | Raw(frag: string, ps: seq<Value>)
    | JsonCmp(c: Cond, segs: seq<Seg>)
    | JsonContains(col: string, v: Value)

  function PathText(segs: seq<Seg>, d: Dialect): Value {
    Text(if d.Sqlite? then SqlitePath(segs) else PgPath(segs))
  }

  /** The cast a json text needs to compare with a value of this type. */
  function Casts(v: Value): (string, string) {
    match v
    case Int(_) => ("(", ")::numeric")
    case Real(_) => ("(", ")::numeric")
    case Bool(_) => ("(", ")::boolean")
    case _ => ("", "")
  }

  /** The text before the path and between path and value. */
  function JsonText(c: Cond, d: Dialect): (string, string) {
    if d.Sqlite? then ("json_extract(" + c.col + ", ", ") " + c.op + " ")
    else (Casts(c.v).0 + c.col + " #>> ", Casts(c.v).1 + " " + c.op + " ")
  }

  function CondTemplate(c: Cond): Template {
    Around(c.col + " " + c.op + " ", c.v, "")
  }

  function CondTemplates(group: seq<Cond>): seq<Template> {
    seq(|group|, i requires 0 <= i < |group| => CondTemplate(group[i]))
  }

  function MarkTemplates(values: seq<Value>): seq<Template> {
    seq(|values|, i requires 0 <= i < |values| => [Mark(values[i])])
  }

  function Bracketed(before: string, t: Template): Template {
    [Lit(before)] + (t + [Lit(")")])
  }

  /** What each predicate says, each value standing where it is compared. */
  function PredTemplate(p: Pred, d: Dialect): Template {
    match p
    case Cmp(c) => CondTemplate(c)
    case In(col, values) =>
      if values == [] then [Lit("0 = 1")] else Bracketed(col + " IN (", JoinAll(MarkTemplates(values), ", "))
    case IsNull(col, isNull) => [Lit(col + " IS " + (if isNull then "" else "NOT ") + "NULL")]
    case Or(group) => if group == [] then [Lit("0 = 1")] else Bracketed("(", JoinAll(CondTemplates(group), " OR "))
    case Raw(frag, ps) => Bracketed("(", Fill(frag, ps, false))
    case JsonCmp(c, segs) =>
      Around(JsonText(c, d).0, PathText(segs, d), "") + Around(JsonText(c, d).1, c.v, "")
    case JsonContains(col, v) => Around(col + " @> ", v, "::jsonb")
  }

  function PredTemplates(preds: seq<Pred>, d: Dialect): seq<Template> {
    seq(|preds|, i requires 0 <= i < |preds| => PredTemplate(preds[i], d))
  }

  function WhereTemplate(preds: seq<Pred>, d: Dialect): Template {
    if preds == [] then [] else [Lit(" WHERE ")] + JoinAll(PredTemplates(preds, d), " AND ")
  }

  predicate CondValid(c: Cond) {
    Clean(c.col) && Clean(c.op)
  }

  predicate PredValid(p: Pred) {
    match p
    case Cmp(c) => CondValid(c)
    case In(col, _) => Clean(col)
    case IsNull(col, _) => Clean(col)
    case Or(group) => forall i :: 0 <= i < |group| ==> CondValid(group[i])
    case Raw(_, _) => true
    case JsonCmp(c, _) => CondValid(c)
    case JsonContains(col, _) => Clean(col)
  }

  /** What a raw fragment owes its caller's values: as many placeholders outside literals,
      and every literal closed. */
  predicate RawFits(p: Pred) {
    p.Raw? ==> Marks(p.frag, false) == |p.ps| && !InStr(p.frag, false)
  }

  lemma BracketClosed(before: string, t: Template)
    requires Clean(before) && Closed(t)
    ensures Closed(Bracketed(before, t))
  {
    LitClosed(before);
    LitClosed(")");
    ClosedCat(t, [Lit(")")]);
    ClosedCat([Lit(before)], t + [Lit(")")]);
    hide Closed;
  }

  lemma CondClosed(c: Cond)
    requires CondValid(c)
    ensures Closed(CondTemplate(c))
  {
    AroundClosed(c.col + " " + c.op + " ", c.v, "");
    hide Closed;
  }

  lemma MarksClosed(values: seq<Value>)
    ensures Closed(JoinAll(MarkTemplates(values), ", "))
  {
    forall i | 0 <= i < |values|
      ensures Closed([Mark(values[i])])
    {
      MarkClosed(values[i]);
    }
    hide Closed;
    JoinClosed(MarkTemplates(values), ", ");
  }

  lemma OrClosed(group: seq<Cond>)
    requires forall i :: 0 <= i < |group| ==> CondValid(group[i])
    ensures Closed(JoinAll(CondTemplates(group), " OR "))
  {
    forall i | 0 <= i < |group|
      ensures Closed(CondTemplate(group[i]))
    {
      CondClosed(group[i]);
    }
    hide Closed, CondTemplate;
    JoinClosed(CondTemplates(group), " OR ");
  }

  lemma RawClosed(frag: string, ps: seq<Value>)
    requires RawFits(Raw(frag, ps))
    ensures Closed(Fill(frag, ps, false))
  {
    FillPlaced(frag, ps, false);
  }

  lemma JsonClosed(c: Cond, segs: seq<Seg>, d: Dialect)
    requires CondValid(c)
    ensures Closed(PredTemplate(JsonCmp(c, segs), d))
  {
    JsonTextClean(c, d);
    TwoClosed(JsonText(c, d).0, PathText(segs, d), JsonText(c, d).1, c.v);
    hide Closed, Around, PathText, JsonText;
  }

  lemma JsonTextClean(c: Cond, d: Dialect)
    requires CondValid(c)
    ensures Clean(JsonText(c, d).0) && Clean(JsonText(c, d).1)
  {
    CastsClean(c.v);
  }

  lemma CastsClean(v: Value)
    ensures Clean(Casts(v).0) && Clean(Casts(v).1)
  {
  }

  lemma TwoClosed(a: string, v: Value, b: string, w: Value)
    requires Clean(a) && Clean(b)
    ensures Closed(Around(a, v, "") + Around(b, w, ""))
  {
    AroundClosed(a, v, "");
    AroundClosed(b, w, "");
    ClosedCat(Around(a, v, ""), Around(b, w, ""));
    hide Closed, Around;
  }

  lemma InClean(col: string)
    requires Clean(col)
    ensures Clean(col + " IN (")
  {
  }

  lemma InClosed(col: string, values: seq<Value>, d: Dialect)
    requires Clean(col)
    ensures Closed(PredTemplate(In(col, values), d))
  {
    LitClosed("0 = 1");
    MarksClosed(values);
    InClean(col);
    hide Clean, Closed, JoinAll, Bracketed, MarkTemplates;
    BracketClosed(col + " IN (", JoinAll(MarkTemplates(values), ", "));
  }

  lemma NullClosed(col: string, isNull: bool, d: Dialect)
    requires Clean(col)
    ensures Closed(PredTemplate(IsNull(col, isNull), d))
  {
    LitClosed(col + " IS " + (if isNull then "" else "NOT ") + "NULL");
    hide Closed;
  }

  lemma GroupClosed(group: seq<Cond>, d: Dialect)
    requires forall i :: 0 <= i < |group| ==> CondValid(group[i])
    ensures Closed(PredTemplate(Or(group), d))
  {
    LitClosed("0 = 1");
    assert Clean("(");
    OrClosed(group);
    hide Clean, Closed, JoinAll, Bracketed, CondTemplates;
    BracketClosed("(", JoinAll(CondTemplates(group), " OR "));
  }

  lemma FragmentClosed(frag: string, ps: seq<Value>, d: Dialect)
    requires RawFits(Raw(frag, ps))
    ensures Closed(PredTemplate(Raw(frag, ps), d))
  {
    assert Clean("(");
    hide Clean, Closed, Fill, Bracketed;
    RawClosed(frag, ps);
    BracketClosed("(", Fill(frag, ps, false));
  }

  lemma ContainsClosed(col: string, v: Value, d: Dialect)
    requires Clean(col)
    ensures Closed(PredTemplate(JsonContains(col, v), d))
  {
    AroundClosed(col + " @> ", v, "::jsonb");
    hide Closed, Around;
  }

  lemma PredClosed(p: Pred, d: Dialect)
    requires PredValid(p) && RawFits(p)
    ensures Closed(PredTemplate(p, d))
  {
    match p
    case Cmp(c) =>
      CondClosed(c);
      assert PredTemplate(p, d) == CondTemplate(c);
    case In(col, values) => InClosed(col, values, d);
    case IsNull(col, isNull) => NullClosed(col, isNull, d);
    case Or(group) => GroupClosed(group, d);
    case Raw(frag, ps) => FragmentClosed(frag, ps, d);
    case JsonCmp(c, segs) => JsonClosed(c, segs, d);
    case JsonContains(col, v) => ContainsClosed(col, v, d);
    hide Closed, PredTemplate;
  }

  lemma WhereClosed(preds: seq<Pred>, d: Dialect)
    requires forall i :: 0 <= i < |preds| ==> PredValid(preds[i]) && RawFits(preds[i])
    ensures Closed(WhereTemplate(preds, d))
  {
    forall i | 0 <= i < |preds|
      ensures Closed(PredTemplate(preds[i], d))
    {
      PredClosed(preds[i], d);
    }
    assert Closed([]);
    hide Closed, PredTemplate, PredValid, RawFits;
    JoinClosed(PredTemplates(preds, d), " AND ");
    LitClosed(" WHERE ");
    ClosedCat([Lit(" WHERE ")], JoinAll(PredTemplates(preds, d), " AND "));
  }

  // ---- rendering them ----

  lemma AroundShows(before: string, v: Value, after: string)
    ensures Render(Around(before, v, after)) == before + "?" + after && Values(Around(before, v, after)) == [v]
  {
    One(Lit(before));
    One(Mark(v));
    One(Lit(after));
    assert Around(before, v, after) == [Lit(before)] + ([Mark(v)] + [Lit(after)]);
    hide Render, Values, Around;
    RenderCat([Lit(before)], [Mark(v)] + [Lit(after)]);
    RenderCat([Mark(v)], [Lit(after)]);
    assert before + ("?" + after) == before + "?" + after;
  }

  lemma One(p: Piece)
    ensures Render([p]) == p.Shown() && Values([p]) == p.Bound()
  {
    assert [p][1..] == [];
  }

  lemma BracketShows(before: string, t: Template)
    ensures Render(Bracketed(before, t)) == before + Render(t) + ")" && Values(Bracketed(before, t)) == Values(t)
  {
    RenderCat([Lit(before)], t + [Lit(")")]);
    RenderCat(t, [Lit(")")]);
    One(Lit(before));
    One(Lit(")"));
    hide Render, Values;
  }

  function Repeat(s: string, n: nat): seq<string> {
    seq(n, _ => s)
  }

  lemma {:induction false} MarksShow(values: seq<Value>)
    ensures RenderAll(MarkTemplates(values)) == Repeat("?", |values|) && ValuesAll(MarkTemplates(values)) == values
    decreases |values|
  {
    if values != [] {
      MarksShow(values[1..]);
      One(Mark(values[0]));
      assert MarkTemplates(values)[1..] == MarkTemplates(values[1..]);
      assert Repeat("?", |values|) == ["?"] + Repeat("?", |values| - 1);
      RenderAllTail(MarkTemplates(values));
      assert RenderAll(MarkTemplates(values))
        == [RenderAll(MarkTemplates(values))[0]] + RenderAll(MarkTemplates(values))[1..];
      hide RenderAll, Render, Values, Repeat;
    }
  }

  lemma InShows(col: string, values: seq<Value>, d: Dialect)
    requires values != []
    ensures Render(PredTemplate(In(col, values), d)) == col + " IN (" + Join(Repeat("?", |values|), ", ") + ")"
    ensures Values(PredTemplate(In(col, values), d)) == values
  {
    MarksShow(values);
    JoinRender(MarkTemplates(values), ", ");
    BracketShows(col + " IN (", JoinAll(MarkTemplates(values), ", "));
    hide Render, Values, JoinAll, Bracketed, Join;
  }

  lemma JsonShows(c: Cond, segs: seq<Seg>, d: Dialect)
    ensures Render(PredTemplate(JsonCmp(c, segs), d)) == JsonText(c, d).0 + "?" + (JsonText(c, d).1 + "?")
    ensures Values(PredTemplate(JsonCmp(c, segs), d)) == [PathText(segs, d), c.v]
  {
    AroundShows(JsonText(c, d).0, PathText(segs, d), "");
    AroundShows(JsonText(c, d).1, c.v, "");
    RenderCat(Around(JsonText(c, d).0, PathText(segs, d), ""), Around(JsonText(c, d).1, c.v, ""));
    hide Render, Values, Around, JsonText, PathText;
  }

  /** One `OR` group's conditions, their values pushed as they are written. */
  method RenderOr(group: seq<Cond>) returns (parts: seq<string>, params: seq<Value>)
    ensures parts == RenderAll(CondTemplates(group)) && params == ValuesAll(CondTemplates(group))
  {
    parts, params := [], [];
    var i := 0;
    while i < |group|
      invariant 0 <= i <= |group|
      invariant parts == RenderAll(CondTemplates(group[..i])) && params == ValuesAll(CondTemplates(group[..i]))
    {
      var c := group[i];
      AroundShows(c.col + " " + c.op + " ", c.v, "");
      CondTemplatesMore(group, i);
      AllMore(CondTemplates(group[..i]), CondTemplate(c));
      hide RenderAll, ValuesAll, CondTemplates, Render, Values;
      params := params + [c.v];
      parts := parts + [c.col + " " + c.op + " ?"];
      assert c.col + " " + c.op + " ?" == c.col + " " + c.op + " " + "?" + "";
      i := i + 1;
    }
    assert group[..i] == group;
  }

  lemma CondTemplatesMore(group: seq<Cond>, i: nat)
    requires i < |group|
    ensures CondTemplates(group[..i + 1]) == CondTemplates(group[..i]) + [CondTemplate(group[i])]
  {
    hide CondTemplate;
  }

  lemma AllMore(ts: seq<Template>, t: Template)
    ensures RenderAll(ts + [t]) == RenderAll(ts) + [Render(t)] && ValuesAll(ts + [t]) == ValuesAll(ts) + Values(t)
  {
    ValuesMore(ts, t);
    hide Render, ValuesAll, Values;
  }

  lemma {:induction false} ValuesMore(ts: seq<Template>, t: Template)
    ensures ValuesAll(ts + [t]) == ValuesAll(ts) + Values(t)
    decreases |ts|
  {
    hide Values;
    if ts == [] {
      assert [t][1..] == [] && ts + [t] == [t];
      assert Values(t) + [] == Values(t) && [] + Values(t) == Values(t);
    } else {
      ValuesMore(ts[1..], t);
      assert (ts + [t])[1..] == ts[1..] + [t];
      assert (Values(ts[0]) + ValuesAll(ts[1..])) + Values(t) == Values(ts[0]) + (ValuesAll(ts[1..]) + Values(t));
    }
  }

  /** One predicate; None where the dialect cannot express it. */
  method RenderPred(p: Pred, d: Dialect) returns (r: Option<(string, seq<Value>)>)
    ensures r.None? <==> p.JsonContains? && d.Sqlite?
    ensures r.Some? ==> r.value == (Render(PredTemplate(p, d)), Values(PredTemplate(p, d)))
  {
    hide Render, Values, Around, JoinAll, Fill, Join;
    match p
    case JsonCmp(c, segs) =>
      JsonShows(c, segs, d);
      var (before, between) := JsonText(c, d);
      r := Some((before + "?" + (between + "?"), [PathText(segs, d), c.v]));
    case JsonContains(col, v) =>
      AroundShows(col + " @> ", v, "::jsonb");
      if d.Sqlite? { return None; }
      r := Some((col + " @> " + "?" + "::jsonb", [v]));
    case Cmp(c) =>
      AroundShows(c.col + " " + c.op + " ", c.v, "");
      assert c.col + " " + c.op + " " + "?" + "" == c.col + " " + c.op + " " + "?";
      r := Some((c.col + " " + c.op + " " + "?", [c.v]));
    case In(col, values) =>
      if values == [] {
        One(Lit("0 = 1"));
        r := Some(("0 = 1", []));
      } else {
        InShows(col, values, d);
        r := Some((col + " IN (" + Join(Repeat("?", |values|), ", ") + ")", values));
      }
    case IsNull(col, isNull) =>
      var text := col + " IS " + (if isNull then "" else "NOT ") + "NULL";
      One(Lit(text));
      r := Some((text, []));
    case Or(group) =>
      if group == [] {
        One(Lit("0 = 1"));
        r := Some(("0 = 1", []));
      } else {
        var parts, params := RenderOr(group);
        JoinRender(CondTemplates(group), " OR ");
        BracketShows("(", JoinAll(CondTemplates(group), " OR "));
        r := Some(("(" + Join(parts, " OR ") + ")", params));
      }
    case Raw(frag, ps) =>
      FillText(frag, ps, false);
      BracketShows("(", Fill(frag, ps, false));
      r := Some(("(" + frag + ")", ps));
  }

  /** The clauses of all predicates, in order. */
  method RenderClauses(preds: seq<Pred>, d: Dialect) returns (ok: bool, clauses: seq<string>, params: seq<Value>)
    ensures !ok <==> d.Sqlite? && exists i :: 0 <= i < |preds| && preds[i].JsonContains?
    ensures ok ==> clauses == RenderAll(PredTemplates(preds, d)) && params == ValuesAll(PredTemplates(preds, d))
  {
    hide Render, Values, PredTemplate;
    ok, clauses, params := true, [], [];
    var i := 0;
    while i < |preds|
      invariant 0 <= i <= |preds| && ok
      invariant clauses == RenderAll(PredTemplates(preds[..i], d)) && params == ValuesAll(PredTemplates(preds[..i], d))
      invariant forall j :: 0 <= j < i ==> !(preds[j].JsonContains? && d.Sqlite?)
    {
      hide RenderAll, ValuesAll, PredTemplates;
      var one := RenderPred(preds[i], d);
      if one.None? {
        ok := false;
        return;
      }
      PredTemplatesMore(preds, i, d);
      AllMore(PredTemplates(preds[..i], d), PredTemplate(preds[i], d));
      clauses := clauses + [one.value.0];
      params := params + one.value.1;
      i := i + 1;
    }
    assert preds[..i] == preds;
  }

  /** `render_predicates` */
  method RenderPredicates(preds: seq<Pred>, d: Dialect) returns (r: Option<(string, seq<Value>)>)
    ensures r.None? <==> d.Sqlite? && exists i :: 0 <= i < |preds| && preds[i].JsonContains?
    ensures r.Some? ==> r.value == (Render(WhereTemplate(preds, d)), Values(WhereTemplate(preds, d)))
  {
    hide RenderAll, ValuesAll, PredTemplates, Render, Values, WhereTemplate, Join;
    if preds == [] {
      NoWhere(d);
      return Some(("", []));
    }
    var ok, clauses, params := RenderClauses(preds, d);
    if !ok {
      return None;
    }
    WhereShows(preds, d);
    r := Some((" WHERE " + Join(clauses, " AND "), params));
  }

  lemma NoWhere(d: Dialect)
    ensures Render(WhereTemplate([], d)) == "" && Values(WhereTemplate([], d)) == []
  {
  }

  lemma PredTemplatesMore(preds: seq<Pred>, i: nat, d: Dialect)
    requires i < |preds|
    ensures PredTemplates(preds[..i + 1], d) == PredTemplates(preds[..i], d) + [PredTemplate(preds[i], d)]
  {
    hide PredTemplate;
  }

  lemma WhereShows(preds: seq<Pred>, d: Dialect)
    requires preds != []
    ensures Render(WhereTemplate(preds, d)) == " WHERE " + Join(RenderAll(PredTemplates(preds, d)), " AND ")
    ensures Values(WhereTemplate(preds, d)) == ValuesAll(PredTemplates(preds, d))
  {
    var t := JoinAll(PredTemplates(preds, d), " AND ");
    JoinRender(PredTemplates(preds, d), " AND ");
    RenderCat([Lit(" WHERE ")], t);
    One(Lit(" WHERE "));
    hide Render, Values, JoinAll, RenderAll, ValuesAll, PredTemplates, Join;
  }

  // ---- the SELECT builder ----

  datatype JsonSelect = JsonSelect(col: string, segs: seq<Seg>, alias: string)

  /** What a locking read does when it meets a locked row. */
  datatype LockWait = Blocking | Skipping | Failing
  datatype RowLock = RowLock(exclusive: bool, wait: LockWait)

  /** `bad`: some setter was given an identifier, operator or path that fails its check, or
      was told how to wait before being told to lock. */
  datatype Query = Query(table: string, distinct: bool, columns: seq<string>, joins: seq<string>, preds: seq<Pred>,
                         groupBy: seq<string>, order: seq<(string, bool)>, limit: Option<int>, offset: Option<int>,
                         jsonSelects: seq<JsonSelect>, lock: Option<RowLock>, bad: bool)

  datatype Call =
    | Select(cols: seq<string>)
    | Distinct
    | Where(p: Pred)
    | AddJoin(left: bool, other: string, l: string, r: string)
    | GroupBy(cols: seq<string>)
    | OrderBy(col: string, descending: bool)
    | Limit(n: int)
    | Offset(n: int)
    | WhereJson(c: Cond, path: string)
    | SelectJson(col: string, path: string, alias: string)
    | Lock(exclusive: bool)
    | Wait(wait: LockWait)

  predicate AllIdent(cols: seq<string>) {
    forall i :: 0 <= i < |cols| ==> ValidIdentifier(cols[i])
  }

  predicate CondChecked(c: Cond) {
    ValidIdentifier(c.col) && ValidOperator(c.op)
  }

  /** The identifiers and operators the predicate setters check; a raw fragment has none. */
  predicate PredChecked(p: Pred) {
    match p
    case Cmp(c) => CondChecked(c)
    case In(col, _) => ValidIdentifier(col)
    case IsNull(col, _) => ValidIdentifier(col)
    case Or(group) => forall i :: 0 <= i < |group| ==> CondChecked(group[i])
    case Raw(_, _) => true
    case JsonCmp(c, _) => CondChecked(c)
    case JsonContains(col, _) => ValidIdentifier(col)
  }

  function Table(table: string): Query {
    Query(table, false, [], [], [], [], [], None, None, [], None, !ValidIdentifier(table))
  }

  function JoinText(left: bool, other: string, l: string, r: string): string {
    (if left then "LEFT JOIN " else "JOIN ") + other + " ON " + l + " = " + r
  }

  /** One setter. A failed check is remembered and the rest goes on. */
  function Apply(q: Query, c: Call): Query {
    match c
    case Select(cols) => q.(columns := cols, bad := q.bad || !AllIdent(cols))
    case Distinct => q.(distinct := true)
    case Where(p) => q.(preds := q.preds + [p], bad := q.bad || !PredChecked(p))
    case AddJoin(left, other, l, r) =>
      q.(joins := q.joins + [JoinText(left, other, l, r)], bad := q.bad || !AllIdent([other, l, r]))
    case GroupBy(cols) => q.(groupBy := cols, bad := q.bad || !AllIdent(cols))
    case OrderBy(col, descending) => q.(order := q.order + [(col, descending)], bad := q.bad || !ValidIdentifier(col))
    case Limit(n) => q.(limit := Some(n))
    case Offset(n) => q.(offset := Some(n))
    case WhereJson(c, path) =>
      (match ParsePath(path)
       case None => q.(bad := true)
       case Some(segs) => q.(preds := q.preds + [JsonCmp(c, segs)], bad := q.bad || !CondChecked(c)))
    case SelectJson(col, path, alias) =>
      (match ParsePath(path)
       case None => q.(bad := true)
       case Some(segs) =>
         q.(jsonSelects := q.jsonSelects + [JsonSelect(col, segs, alias)], bad := q.bad || !AllIdent([col, alias])))
    case Lock(exclusive) => q.(lock := Some(RowLock(exclusive, if q.lock.Some? then q.lock.value.wait else Blocking)))
    case Wait(wait) => if q.lock.Some? then q.(lock := Some(q.lock.value.(wait := wait))) else q.(bad := true)
  }

  function Chain(table: string, calls: seq<Call>): Query {
    if calls == [] then Table(table) else Apply(Chain(table, calls[..|calls| - 1]), calls[|calls| - 1])
  }

  // ---- what it builds ----

  function SelectTemplate(js: JsonSelect, d: Dialect): Template {
    if d.Sqlite? then Around("json_extract(" + js.col + ", ", PathText(js.segs, d), ") AS " + js.alias)
    else Around(js.col + " #>> ", PathText(js.segs, d), " AS " + js.alias)
  }

  function ColumnTemplates(columns: seq<string>): seq<Template> {
    seq(|columns|, i requires 0 <= i < |columns| => [Lit(columns[i])])
  }

  function SelectTemplates(jss: seq<JsonSelect>, d: Dialect): seq<Template> {
    seq(|jss|, i requires 0 <= i < |jss| => SelectTemplate(jss[i], d))
  }

  /** Named columns, or `*`, then the json projections. */
  function Projection(q: Query, d: Dialect): Template {
    JoinAll(ColumnTemplates(if q.columns == [] then ["*"] else q.columns) + SelectTemplates(q.jsonSelects, d), ", ")
  }

  function From(q: Query): string {
    q.table + Joins(q.joins)
  }

  function Joins(joins: seq<string>): string {
    if joins == [] then "" else Joins(joins[..|joins| - 1]) + (" " + joins[|joins| - 1])
  }

  function OrderTerms(order: seq<(string, bool)>): seq<string> {
    seq(|order|, i requires 0 <= i < |order| => order[i].0 + " " + (if order[i].1 then "DESC" else "ASC"))
  }

  /** Grouping, ordering and paging: no value is bound there. */
  function Tail(q: Query): string {
    (if q.groupBy == [] then "" else " GROUP BY " + Join(q.groupBy, ", "))
    + (if q.order == [] then "" else " ORDER BY " + Join(OrderTerms(q.order), ", "))
    + (if q.limit.Some? then " LIMIT " + Signed(q.limit.value) else "")
    + (if q.offset.Some? then " OFFSET " + Signed(q.offset.value) else "")
  }

  function Head(q: Query): string {
    "SELECT " + (if q.distinct then "DISTINCT " else "")
  }

  function QueryTemplate(q: Query, d: Dialect): Template {
    [Lit(Head(q))] + (Projection(q, d) + ([Lit(" FROM " + From(q))] + (WhereTemplate(q.preds, d) + [Lit(Tail(q))])))
  }

  // ---- every chain of calls ----

  ghost predicate AllClean(parts: seq<string>) {
    forall i :: 0 <= i < |parts| ==> Clean(parts[i])
  }

  /** No text the builder interpolates holds a quote or a question mark. */
  ghost predicate Sanitized(q: Query) {
    && Clean(q.table) && AllClean(q.columns) && AllClean(q.joins) && AllClean(q.groupBy)
    && (forall i :: 0 <= i < |q.preds| ==> PredValid(q.preds[i]))
    && (forall i :: 0 <= i < |q.order| ==> Clean(q.order[i].0))
    && forall i :: 0 <= i < |q.jsonSelects| ==> Clean(q.jsonSelects[i].col) && Clean(q.jsonSelects[i].alias)
  }

  lemma CondSanitized(c: Cond)
    requires CondChecked(c)
    ensures CondValid(c)
  {
    IdentifierClean(c.col);
    OperatorClean(c.op);
  }

  lemma PredSanitized(p: Pred)
    requires PredChecked(p)
    ensures PredValid(p)
  {
    match p
    case Cmp(c) => CondSanitized(c);
    case In(col, _) => IdentifierClean(col);
    case IsNull(col, _) => IdentifierClean(col);
    case Or(group) =>
      forall i | 0 <= i < |group|
        ensures CondValid(group[i])
      {
        CondSanitized(group[i]);
      }
    case Raw(_, _) =>
    case JsonCmp(c, _) => CondSanitized(c);
    case JsonContains(col, _) => IdentifierClean(col);
  }

  lemma ColumnsClean(cols: seq<string>)
    requires AllIdent(cols)
    ensures AllClean(cols)
  {
    forall i | 0 <= i < |cols|
      ensures Clean(cols[i])
    {
      IdentifierClean(cols[i]);
    }
  }

  lemma CatClean(a: string, b: string)
    requires Clean(a) && Clean(b)
    ensures Clean(a + b)
  {
  }

  lemma JoinTextClean(left: bool, other: string, l: string, r: string)
    requires AllIdent([other, l, r])
    ensures Clean(JoinText(left, other, l, r))
  {
    assert ValidIdentifier([other, l, r][0]) && ValidIdentifier([other, l, r][1]) && ValidIdentifier([other, l, r][2]);
    IdentifierClean(other);
    IdentifierClean(l);
    IdentifierClean(r);
    var head := if left then "LEFT JOIN " else "JOIN ";
    assert Clean(head) && Clean(" ON ") && Clean(" = ");
    hide Clean, ValidIdentifier;
    CatClean(head, other);
    CatClean(head + other, " ON ");
    CatClean(head + other + " ON ", l);
    CatClean(head + other + " ON " + l, " = ");
    CatClean(head + other + " ON " + l + " = ", r);
  }

  lemma ApplySanitized(q: Query, c: Call)
    requires Sanitized(q) && !Apply(q, c).bad
    ensures Sanitized(Apply(q, c))
  {
    match c
    case Select(cols) => ColumnsClean(cols);
    case Where(p) => PredSanitized(p);
    case AddJoin(left, other, l, r) => JoinTextClean(left, other, l, r);
    case GroupBy(cols) => ColumnsClean(cols);
    case OrderBy(col, _) => IdentifierClean(col);
    case WhereJson(cond, _) => CondSanitized(cond);
    case SelectJson(col, _, alias) =>
      assert ValidIdentifier([col, alias][0]) && ValidIdentifier([col, alias][1]);
      IdentifierClean(col);
      IdentifierClean(alias);
    case Distinct =>
    case Limit(_) =>
    case Offset(_) =>
    case Lock(_) =>
    case Wait(_) =>
    hide Clean, ValidIdentifier, AllIdent, PredChecked, CondChecked, PredValid, JoinText, ParsePath;
  }

  lemma {:induction false} ChainSanitized(table: string, calls: seq<Call>)
    requires !Chain(table, calls).bad
    ensures Sanitized(Chain(table, calls))
    decreases |calls|
  {
    if calls == [] {
      IdentifierClean(table);
    } else {
      var front := Chain(table, calls[..|calls| - 1]);
      assert !front.bad;
      ChainSanitized(table, calls[..|calls| - 1]);
      ApplySanitized(front, calls[|calls| - 1]);
      hide Apply, Sanitized;
    }
  }

  // ---- the template is closed ----

  lemma {:induction false} JoinClean(parts: seq<string>, sep: string)
    requires AllClean(parts) && Clean(sep)
    ensures Clean(Join(parts, sep))
    decreases |parts|
  {
    if |parts| > 1 {
      JoinClean(parts[1..], sep);
      CatClean(sep, Join(parts[1..], sep));
      CatClean(parts[0], sep + Join(parts[1..], sep));
    }
    hide Clean;
  }

  lemma {:induction false} JoinsClean(joins: seq<string>)
    requires AllClean(joins)
    ensures Clean(Joins(joins))
    decreases |joins|
  {
    if joins != [] {
      JoinsClean(joins[..|joins| - 1]);
      assert Clean(" ");
      CatClean(" ", joins[|joins| - 1]);
      CatClean(Joins(joins[..|joins| - 1]), " " + joins[|joins| - 1]);
    }
    hide Clean;
  }

  lemma OrderClean(order: seq<(string, bool)>)
    requires forall i :: 0 <= i < |order| ==> Clean(order[i].0)
    ensures AllClean(OrderTerms(order))
  {
    assert Clean(" ") && Clean("DESC") && Clean("ASC");
    forall i | 0 <= i < |order|
      ensures Clean(OrderTerms(order)[i])
    {
      CatClean(order[i].0, " ");
      CatClean(order[i].0 + " ", if order[i].1 then "DESC" else "ASC");
      hide Clean;
    }
  }

  lemma SignedClean(i: int)
    ensures Clean(Signed(i))
  {
    var digits := Decimal(if i < 0 then 0 - i else i);
    assert forall k :: 0 <= k < |digits| ==> '0' <= digits[k] <= '9';
    hide Decimal;
  }

  lemma TailClean(q: Query)
    requires Sanitized(q)
    ensures Clean(Tail(q))
  {
    OrderClean(q.order);
    assert Clean(", ") && Clean("") && Clean(" GROUP BY ") && Clean(" ORDER BY ") && Clean(" LIMIT ")
      && Clean(" OFFSET ");
    JoinClean(q.groupBy, ", ");
    JoinClean(OrderTerms(q.order), ", ");
    if q.limit.Some? { SignedClean(q.limit.value); }
    if q.offset.Some? { SignedClean(q.offset.value); }
    hide Clean, Join, OrderTerms, Signed, Sanitized;
    CatClean(" GROUP BY ", Join(q.groupBy, ", "));
    CatClean(" ORDER BY ", Join(OrderTerms(q.order), ", "));
    if q.limit.Some? { CatClean(" LIMIT ", Signed(q.limit.value)); }
    if q.offset.Some? { CatClean(" OFFSET ", Signed(q.offset.value)); }
    var a := if q.groupBy == [] then "" else " GROUP BY " + Join(q.groupBy, ", ");
    var b := if q.order == [] then "" else " ORDER BY " + Join(OrderTerms(q.order), ", ");
    var c := if q.limit.Some? then " LIMIT " + Signed(q.limit.value) else "";
    CatClean(a, b);
    CatClean(a + b, c);
    CatClean(a + b + c, if q.offset.Some? then " OFFSET " + Signed(q.offset.value) else "");
  }

  lemma SelectClosed(js: JsonSelect, d: Dialect)
    requires Clean(js.col) && Clean(js.alias)
    ensures Closed(SelectTemplate(js, d))
  {
    assert Clean("json_extract(") && Clean(", ") && Clean(") AS ") && Clean(" #>> ") && Clean(" AS ");
    hide Clean, PathText, Closed, Around;
    CatClean("json_extract(", js.col);
    CatClean("json_extract(" + js.col, ", ");
    CatClean(") AS ", js.alias);
    CatClean(js.col, " #>> ");
    CatClean(" AS ", js.alias);
    AroundClosed("json_extract(" + js.col + ", ", PathText(js.segs, d), ") AS " + js.alias);
    AroundClosed(js.col + " #>> ", PathText(js.segs, d), " AS " + js.alias);
  }

  lemma ColumnsClosed(columns: seq<string>, i: nat)
    requires AllClean(columns) && i < |columns|
    ensures Closed(ColumnTemplates(columns)[i])
  {
    LitClosed(columns[i]);
  }

  lemma ProjectionClosed(q: Query, d: Dialect)
    requires Sanitized(q)
    ensures Closed(Projection(q, d))
  {
    var columns := if q.columns == [] then ["*"] else q.columns;
    assert AllClean(columns) && Clean(", ");
    var a, b := ColumnTemplates(columns), SelectTemplates(q.jsonSelects, d);
    forall i | 0 <= i < |b|
      ensures Closed(b[i])
    {
      SelectClosed(q.jsonSelects[i], d);
    }
    hide Clean, Closed, SelectTemplate, Sanitized, AllClean;
    forall i | 0 <= i < |a|
      ensures Closed(a[i])
    {
      ColumnsClosed(columns, i);
    }
    assert forall i :: 0 <= i < |a + b| ==> (a + b)[i] == if i < |a| then a[i] else b[i - |a|];
    hide ColumnTemplates, SelectTemplates, JoinAll;
    JoinClosed(a + b, ", ");
  }

  ghost predicate AllFit(preds: seq<Pred>) {
    forall i :: 0 <= i < |preds| ==> RawFits(preds[i])
  }

  /** Every chain of calls that builds, with raw fragments that fit their values, makes a
      template whose places are all outside literals. */
  lemma BuildsClosed(table: string, calls: seq<Call>, d: Dialect)
    requires !Chain(table, calls).bad && AllFit(Chain(table, calls).preds)
    ensures Closed(QueryTemplate(Chain(table, calls), d))
  {
    hide *;
    ChainSanitized(table, calls);
    SanitizedClosed(Chain(table, calls), d);
  }

  lemma SanitizedClosed(q: Query, d: Dialect)
    requires Sanitized(q) && AllFit(q.preds)
    ensures Closed(QueryTemplate(q, d))
  {
    assert QueryTemplate(q, d) ==
      [Lit(Head(q))] + (Projection(q, d) + ([Lit(" FROM " + From(q))] + (WhereTemplate(q.preds, d) + [Lit(Tail(q))])));
    hide *;
    ProjectionClosed(q, d);
    WhereOfClosed(q, d);
    HeadClean(q);
    FromClean(q);
    TailClean(q);
    CatClean(" FROM ", From(q));
    FiveClosed(Head(q), Projection(q, d), " FROM " + From(q), WhereTemplate(q.preds, d), Tail(q));
  }

  lemma WhereOfClosed(q: Query, d: Dialect)
    requires Sanitized(q) && AllFit(q.preds)
    ensures Closed(WhereTemplate(q.preds, d))
  {
    hide Closed, WhereTemplate, Clean, PredValid, RawFits;
    WhereClosed(q.preds, d);
  }

  lemma HeadClean(q: Query)
    ensures Clean(Head(q)) && Clean(" FROM ")
  {
  }

  lemma FromClean(q: Query)
    requires Sanitized(q)
    ensures Clean(From(q))
  {
    JoinsClean(q.joins);
    hide Clean, Joins;
    CatClean(q.table, Joins(q.joins));
  }

  lemma FiveClosed(head: string, proj: Template, from: string, where_: Template, tail: string)
    requires Clean(head) && Closed(proj) && Clean(from) && Closed(where_) && Clean(tail)
    ensures Closed([Lit(head)] + (proj + ([Lit(from)] + (where_ + [Lit(tail)]))))
  {
    LitClosed(head);
    LitClosed(from);
    LitClosed(tail);
    hide Clean, Closed;
    ClosedCat(where_, [Lit(tail)]);
    ClosedCat([Lit(from)], where_ + [Lit(tail)]);
    ClosedCat(proj, [Lit(from)] + (where_ + [Lit(tail)]));
    ClosedCat([Lit(head)], proj + ([Lit(from)] + (where_ + [Lit(tail)])));
  }

  /** So the SQL has one placeholder per value, in order, and the translation numbers them
      and changes nothing else. */
  lemma BuiltTranslates(table: string, calls: seq<Call>, d: Dialect)
    requires !Chain(table, calls).bad && AllFit(Chain(table, calls).preds)
    ensures var t := QueryTemplate(Chain(table, calls), d);
      && Marks(Render(t), false) == |Values(t)|
      && Translate(Render(t), 0, false) == Numbered(t, 0)
  {
    BuildsClosed(table, calls, d);
    var t := QueryTemplate(Chain(table, calls), d);
    MarksAreValues(t, false);
    TranslateTemplate(t, 0, false);
    hide QueryTemplate, Chain, Render, Values, Translate, Numbered, Marks;
  }

  // ---- building it ----

  lemma {:induction false} ColumnsShow(columns: seq<string>)
    ensures RenderAll(ColumnTemplates(columns)) == columns && ValuesAll(ColumnTemplates(columns)) == []
    decreases |columns|
  {
    if columns != [] {
      ColumnsShow(columns[1..]);
      One(Lit(columns[0]));
      assert ColumnTemplates(columns)[1..] == ColumnTemplates(columns[1..]);
      RenderAllTail(ColumnTemplates(columns));
      assert RenderAll(ColumnTemplates(columns))
        == [RenderAll(ColumnTemplates(columns))[0]] + RenderAll(ColumnTemplates(columns))[1..];
      hide RenderAll, Render, Values;
    }
  }

  /** The projection list; the paths are the first parameters. */
  method RenderProjection(q: Query, d: Dialect) returns (cols: string, params: seq<Value>)
    ensures cols == Render(Projection(q, d)) && params == Values(Projection(q, d))
  {
    var parts := if q.columns == [] then ["*"] else q.columns;
    ghost var head := ColumnTemplates(parts);
    ColumnsShow(parts);
    params := [];
    var i := 0;
    assert head + SelectTemplates(q.jsonSelects[..0], d) == head;
    while i < |q.jsonSelects|
      invariant 0 <= i <= |q.jsonSelects|
      invariant parts == RenderAll(head + SelectTemplates(q.jsonSelects[..i], d))
      invariant params == ValuesAll(head + SelectTemplates(q.jsonSelects[..i], d))
    {
      var js := q.jsonSelects[i];
      SelectShows(js, d);
      SelectsMore(head, q.jsonSelects, i, d);
      AllMore(head + SelectTemplates(q.jsonSelects[..i], d), SelectTemplate(js, d));
      hide RenderAll, ValuesAll, SelectTemplates, SelectTemplate, Render, Values;
      params := params + [PathText(js.segs, d)];
      parts := parts
        + [if d.Sqlite? then "json_extract(" + js.col + ", ?) AS " + js.alias else js.col + " #>> ? AS " + js.alias];
      i := i + 1;
    }
    assert q.jsonSelects[..i] == q.jsonSelects;
    JoinRender(head + SelectTemplates(q.jsonSelects, d), ", ");
    cols := Join(parts, ", ");
    hide RenderAll, ValuesAll, SelectTemplates, Render, Values, Join, JoinAll;
  }

  lemma SelectsMore(head: seq<Template>, jss: seq<JsonSelect>, i: nat, d: Dialect)
    requires i < |jss|
    ensures head + SelectTemplates(jss[..i + 1], d) == head + SelectTemplates(jss[..i], d) + [SelectTemplate(jss[i], d)]
  {
    hide SelectTemplate;
  }

  lemma SelectShows(js: JsonSelect, d: Dialect)
    ensures Render(SelectTemplate(js, d)) ==
      (if d.Sqlite? then "json_extract(" + js.col + ", ?) AS " + js.alias else js.col + " #>> ? AS " + js.alias)
    ensures Values(SelectTemplate(js, d)) == [PathText(js.segs, d)]
  {
    AroundShows("json_extract(" + js.col + ", ", PathText(js.segs, d), ") AS " + js.alias);
    AroundShows(js.col + " #>> ", PathText(js.segs, d), " AS " + js.alias);
    hide Render, Values, Around, PathText;
    assert "json_extract(" + js.col + ", " + "?" + (") AS " + js.alias)
      == "json_extract(" + js.col + ", ?) AS " + js.alias;
    assert js.col + " #>> " + "?" + (" AS " + js.alias) == js.col + " #>> ? AS " + js.alias;
  }

  method RenderFrom(q: Query) returns (s: string)
    ensures s == From(q)
  {
    s := q.table;
    var i := 0;
    assert q.table + "" == q.table;
    while i < |q.joins|
      invariant 0 <= i <= |q.joins| && s == q.table + Joins(q.joins[..i])
    {
      assert q.joins[..i + 1][..i] == q.joins[..i];
      Append(q.table, Joins(q.joins[..i]), " " + q.joins[i]);
      s := s + (" " + q.joins[i]);
      i := i + 1;
    }
    assert q.joins[..i] == q.joins;
  }

  method RenderTail(q: Query) returns (s: string)
    ensures s == Tail(q)
  {
    hide Join, OrderTerms, Signed;
    ghost var grouped := if q.groupBy == [] then "" else " GROUP BY " + Join(q.groupBy, ", ");
    ghost var ordered := if q.order == [] then "" else " ORDER BY " + Join(OrderTerms(q.order), ", ");
    ghost var limited := if q.limit.Some? then " LIMIT " + Signed(q.limit.value) else "";
    s := "";
    if q.groupBy != [] {
      s := s + (" GROUP BY " + Join(q.groupBy, ", "));
    }
    assert s == grouped;
    if q.order != [] {
      s := s + (" ORDER BY " + Join(OrderTerms(q.order), ", "));
    }
    assert s == grouped + ordered;
    if q.limit.Some? {
      s := s + (" LIMIT " + Signed(q.limit.value));
    }
    assert s == grouped + ordered + limited;
    if q.offset.Some? {
      s := s + (" OFFSET " + Signed(q.offset.value));
    }
  }

  lemma FivePieces(head: string, proj: Template, from: string, where_: Template, tail: string)
    ensures var t := [Lit(head)] + (proj + ([Lit(from)] + (where_ + [Lit(tail)])));
      && Render(t) == head + (Render(proj) + (from + (Render(where_) + tail)))
      && Values(t) == Values(proj) + Values(where_)
  {
    var a, b := where_ + [Lit(tail)], [Lit(from)] + (where_ + [Lit(tail)]);
    RenderCat(where_, [Lit(tail)]);
    RenderCat([Lit(from)], a);
    RenderCat(proj, b);
    RenderCat([Lit(head)], proj + b);
    One(Lit(tail));
    One(Lit(from));
    One(Lit(head));
    hide Render, Values;
    assert Values(a) == Values(where_) && Values(b) == Values(where_);
  }

  /** `build_for`: an error if a setter failed its check or the dialect cannot say it;
      otherwise the template's text and its values. */
  method BuildFor(q: Query, d: Dialect) returns (r: Option<(string, seq<Value>)>)
    ensures r.None? <==> q.bad || (d.Sqlite? && exists i :: 0 <= i < |q.preds| && q.preds[i].JsonContains?)
    ensures r.Some? ==> r.value == (Render(QueryTemplate(q, d)), Values(QueryTemplate(q, d)))
  {
    if q.bad {
      return None;
    }
    hide Render, Values, Projection, WhereTemplate, Tail, From;
    var cols, params := RenderProjection(q, d);
    var where_ := RenderPredicates(q.preds, d);
    if where_.None? {
      return None;
    }
    params := params + where_.value.1;
    var from := RenderFrom(q);
    var tail := RenderTail(q);
    FivePieces(Head(q), Projection(q, d), " FROM " + From(q), WhereTemplate(q.preds, d), Tail(q));
    r := Some((Head(q) + (cols + (" FROM " + from + (where_.value.0 + tail))), params));
  }

  // ---- counting ----

  function CountHead(q: Query): string {
    "SELECT COUNT(*) AS count FROM " + From(q)
  }

  /** The same tables and filters; columns, order and paging do not matter. */
  function CountTemplate(q: Query, d: Dialect): Template {
    [Lit(CountHead(q))] + WhereTemplate(q.preds, d)
  }

  /** A count that builds has one placeholder per value, in order, too. */
  lemma CountTranslates(table: string, calls: seq<Call>, d: Dialect)
    requires !Chain(table, calls).bad && AllFit(Chain(table, calls).preds)
    ensures var t := CountTemplate(Chain(table, calls), d);
      && Marks(Render(t), false) == |Values(t)| && Values(t) == Values(WhereTemplate(Chain(table, calls).preds, d))
      && Translate(Render(t), 0, false) == Numbered(t, 0)
  {
    var q := Chain(table, calls);
    var t := CountTemplate(q, d);
    hide Chain, CountTemplate, Render, Values, Marks, Translate, Numbered, Placed;
    ChainSanitized(table, calls);
    CountClosed(q, d);
    CountShows(q, d);
    MarksAreValues(t, false);
    TranslateTemplate(t, 0, false);
  }

  lemma CountClosed(q: Query, d: Dialect)
    requires Sanitized(q) && AllFit(q.preds)
    ensures Closed(CountTemplate(q, d))
  {
    assert CountTemplate(q, d) == [Lit(CountHead(q))] + WhereTemplate(q.preds, d);
    hide *;
    CountHeadClean(q);
    WhereOfClosed(q, d);
    LitClosed(CountHead(q));
    ClosedCat([Lit(CountHead(q))], WhereTemplate(q.preds, d));
  }

  lemma CountHeadClean(q: Query)
    requires Sanitized(q)
    ensures Clean(CountHead(q))
  {
    FromClean(q);
    assert Clean("SELECT COUNT(*)") && Clean(" AS count FROM ");
    CatClean("SELECT COUNT(*)", " AS count FROM ");
    assert "SELECT COUNT(*)" + " AS count FROM " == "SELECT COUNT(*) AS count FROM ";
    hide Clean, From;
    CatClean("SELECT COUNT(*) AS count FROM ", From(q));
  }

  lemma CountShows(q: Query, d: Dialect)
    ensures Render(CountTemplate(q, d)) == CountHead(q) + Render(WhereTemplate(q.preds, d))
    ensures Values(CountTemplate(q, d)) == Values(WhereTemplate(q.preds, d))
  {
    RenderCat([Lit(CountHead(q))], WhereTemplate(q.preds, d));
    One(Lit(CountHead(q)));
    hide Render, Values, WhereTemplate, CountHead;
    assert [] + Values(WhereTemplate(q.preds, d)) == Values(WhereTemplate(q.preds, d));
  }

  /** `build_count_for` */
  method BuildCountFor(q: Query, d: Dialect) returns (r: Option<(string, seq<Value>)>)
    ensures r.None? <==> q.bad || (d.Sqlite? && exists i :: 0 <= i < |q.preds| && q.preds[i].JsonContains?)
    ensures r.Some? ==> r.value == (Render(CountTemplate(q, d)), Values(CountTemplate(q, d)))
  {
    if q.bad {
      return None;
    }
    hide Render, Values, WhereTemplate, From;
    var where_ := RenderPredicates(q.preds, d);
    if where_.None? {
      return None;
    }
    var from := RenderFrom(q);
    CountShows(q, d);
    hide CountTemplate;
    r := Some(("SELECT COUNT(*) AS count FROM " + from + where_.value.0, where_.value.1));
  }
}
