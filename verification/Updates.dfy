/** The UPDATE builder: SET values first, then WHERE values, in both text and order. */
module Updates {
  import opened Wrappers
  import opened Sql
  import opened Identifiers
  import opened Builder

  datatype Assignment = Assignment(col: string, v: Value)
  datatype Update = Update(table: string, sets: seq<Assignment>, preds: seq<Pred>, returning: seq<string>, bad: bool)
  datatype Call = Set(a: Assignment) | Where(p: Pred) | Returning(cols: seq<string>)

  function Table(table: string): Update {
    Update(table, [], [], [], !ValidIdentifier(table))
  }

  function Apply(u: Update, c: Call): Update {
    match c
    case Set(a) => u.(sets := u.sets + [a], bad := u.bad || !ValidIdentifier(a.col))
    case Where(p) => u.(preds := u.preds + [p], bad := u.bad || !PredChecked(p))
    case Returning(cols) => u.(returning := cols, bad := u.bad || !AllIdent(cols))
  }

  function Chain(table: string, calls: seq<Call>): Update {
    if calls == [] then Table(table) else Apply(Chain(table, calls[..|calls| - 1]), calls[|calls| - 1])
  }

  function SetTemplates(sets: seq<Assignment>): seq<Template> {
    seq(|sets|, i requires 0 <= i < |sets| => Around(sets[i].col + " = ", sets[i].v, ""))
  }

  function Returned(cols: seq<string>): string {
    if cols == [] then "" else " RETURNING " + Join(cols, ", ")
  }

  function Head(u: Update): string {
    "UPDATE " + u.table + " SET "
  }

  /** The same five pieces as a SELECT, the third of them empty. */
  function UpdateTemplate(u: Update): Template {
    [Lit(Head(u))] + (JoinAll(SetTemplates(u.sets), ", ")
      + ([Lit("")] + (WhereTemplate(u.preds, Sqlite) + [Lit(Returned(u.returning))])))
  }

  ghost predicate Sanitized(u: Update) {
    && Clean(u.table) && AllClean(u.returning)
    && (forall i :: 0 <= i < |u.sets| ==> Clean(u.sets[i].col))
    && forall i :: 0 <= i < |u.preds| ==> PredValid(u.preds[i])
  }

  lemma {:induction false} ChainSanitized(table: string, calls: seq<Call>)
    requires !Chain(table, calls).bad
    ensures Sanitized(Chain(table, calls))
    decreases |calls|
  {
    if calls == [] {
      IdentifierClean(table);
    } else {
      var front := Chain(table, calls[..|calls| - 1]);
      assert !front.bad;
      ChainSanitized(table, calls[..|calls| - 1]);
      hide Clean, ValidIdentifier, PredChecked, PredValid, AllIdent;
      match calls[|calls| - 1]
      case Set(a) => IdentifierClean(a.col);
      case Where(p) => PredSanitized(p);
      case Returning(cols) => ColumnsClean(cols);
    }
  }

  lemma SetsClosed(sets: seq<Assignment>)
    requires forall i :: 0 <= i < |sets| ==> Clean(sets[i].col)
    ensures Closed(JoinAll(SetTemplates(sets), ", "))
  {
    assert Clean(" = ") && Clean("") && Clean(", ");
    hide Clean, Closed, Around;
    forall i | 0 <= i < |sets|
      ensures Closed(Around(sets[i].col + " = ", sets[i].v, ""))
    {
      CatClean(sets[i].col, " = ");
      AroundClosed(sets[i].col + " = ", sets[i].v, "");
    }
    JoinClosed(SetTemplates(sets), ", ");
  }

  lemma TextClean(u: Update)
    requires Sanitized(u)
    ensures Clean(Head(u)) && Clean(Returned(u.returning)) && Clean("")
  {
    assert Clean("UPDATE ") && Clean(" SET ") && Clean(" RETURNING ") && Clean(", ");
    JoinClean(u.returning, ", ");
    assert Clean("") && (u.returning == [] ==> Clean(Returned(u.returning)));
    hide Clean, Join;
    CatClean("UPDATE ", u.table);
    CatClean("UPDATE " + u.table, " SET ");
    CatClean(" RETURNING ", Join(u.returning, ", "));
  }

  /** An update that builds has one placeholder per value, in order, and the translation
      numbers them and changes nothing else. */
  lemma UpdateTranslates(table: string, calls: seq<Call>)
    requires !Chain(table, calls).bad && AllFit(Chain(table, calls).preds)
    ensures var t := UpdateTemplate(Chain(table, calls));
      && Marks(Render(t), false) == |Values(t)|
      && Translate(Render(t), 0, false) == Numbered(t, 0)
  {
    ChainSanitized(table, calls);
    var u := Chain(table, calls);
    UpdateClosed(u);
    var t := UpdateTemplate(u);
    MarksAreValues(t, false);
    TranslateTemplate(t, 0, false);
    hide UpdateTemplate, Chain, Render, Values, Translate, Numbered, Marks;
  }

  lemma UpdateClosed(u: Update)
    requires Sanitized(u) && AllFit(u.preds)
    ensures Closed(UpdateTemplate(u))
  {
    hide Clean, Closed, WhereTemplate, JoinAll, SetTemplates, Head, Returned, PredValid, RawFits;
    SetsClosed(u.sets);
    WhereClosed(u.preds, Sqlite);
    TextClean(u);
    FiveClosed(Head(u), JoinAll(SetTemplates(u.sets), ", "), "", WhereTemplate(u.preds, Sqlite), Returned(u.returning));
  }

  lemma SetsMore(sets: seq<Assignment>, i: nat)
    requires i < |sets|
    ensures SetTemplates(sets[..i + 1]) == SetTemplates(sets[..i]) + [Around(sets[i].col + " = ", sets[i].v, "")]
  {
    hide Around;
  }

  lemma SetShows(a: Assignment)
    ensures Render(Around(a.col + " = ", a.v, "")) == a.col + " = ?" && Values(Around(a.col + " = ", a.v, "")) == [a.v]
  {
    hide Render, Values, Around;
    AroundShows(a.col + " = ", a.v, "");
    assert a.col + " = ?" == a.col + " = " + "?" + "";
  }

  method RenderSets(sets: seq<Assignment>) returns (parts: seq<string>, params: seq<Value>)
    ensures parts == RenderAll(SetTemplates(sets)) && params == ValuesAll(SetTemplates(sets))
  {
    parts, params := [], [];
    var i := 0;
    while i < |sets|
      invariant 0 <= i <= |sets|
      invariant parts == RenderAll(SetTemplates(sets[..i])) && params == ValuesAll(SetTemplates(sets[..i]))
    {
      var a := sets[i];
      hide RenderAll, ValuesAll, SetTemplates, Render, Values, Around;
      SetShows(a);
      SetsMore(sets, i);
      AllMore(SetTemplates(sets[..i]), Around(a.col + " = ", a.v, ""));
      params := params + [a.v];
      parts := parts + [a.col + " = ?"];
      i := i + 1;
    }
    assert sets[..i] == sets;
  }

  /** `UpdateBuilder::build` */
  method Build(u: Update) returns (r: Option<(string, seq<Value>)>)
    ensures r.None? <==> u.bad || exists i :: 0 <= i < |u.preds| && u.preds[i].JsonContains?
    ensures r.Some? ==> r.value == (Render(UpdateTemplate(u)), Values(UpdateTemplate(u)))
  {
    if u.bad {
      return None;
    }
    hide Render, Values, WhereTemplate, JoinAll, SetTemplates, RenderAll, ValuesAll, Join;
    var parts, params := RenderSets(u.sets);
    JoinRender(SetTemplates(u.sets), ", ");
    var where_ := RenderPredicates(u.preds, Sqlite);
    if where_.None? {
      return None;
    }
    params := params + where_.value.1;
    FivePieces(Head(u), JoinAll(SetTemplates(u.sets), ", "), "", WhereTemplate(u.preds, Sqlite), Returned(u.returning));
    r := Some((Head(u) + (Join(parts, ", ") + (where_.value.0 + Returned(u.returning))), params));
    assert "" + (where_.value.0 + Returned(u.returning)) == where_.value.0 + Returned(u.returning);
  }
}
