/** SQL text with `?` placeholders, the translation to `$1..$n`, and templates: text with
    a place for each bound value, from which both are rendered. */
module Sql {
  import opened Wrappers
  import opened Decimals

  /** A bound value. A real, a document and a vector are known by the text they print as. */
  datatype Value =
    | Null
    | Int(i: int)
    | Real(shown: string)
    | Text(s: string)
    | Bool(b: bool)
    | Doc(json: string)
    | Vector(listed: string)

  // ---- the translation ----

  /** What is left of `sql` translated, after `n` placeholders, inside a literal or not. */
  function Translate(sql: string, n: nat, inStr: bool): string
    decreases |sql|
  {
    if sql == "" then ""
    else if sql[0] == '\'' then [sql[0]] + Translate(sql[1..], n, !inStr)
    else if sql[0] == '?' && !inStr then "$" + Decimal(n + 1) + Translate(sql[1..], n + 1, inStr)
    else [sql[0]] + Translate(sql[1..], n, inStr)
  }

  /** `to_pg_placeholders` */
  method ToPgPlaceholders(sql: string) returns (out: string)
    ensures out == Translate(sql, 0, false)
  {
    hide Decimal;
    out := "";
    var n, inStr, i := 0, false, 0;
    assert sql[0..] == sql;
    while i < |sql|
      invariant 0 <= i <= |sql|
      invariant out + Translate(sql[i..], n, inStr) == Translate(sql, 0, false)
    {
      var c := sql[i];
      ghost var rest := sql[i + 1..];
      assert sql[i..][0] == c && sql[i..][1..] == rest;
      if c == '\'' {
        inStr := !inStr;
        Append(out, [c], Translate(rest, n, inStr));
        out := out + [c];
      } else if c == '?' && !inStr {
        n := n + 1;
        Append(out, "$" + Decimal(n), Translate(rest, n, inStr));
        out := out + ("$" + Decimal(n));
      } else {
        Append(out, [c], Translate(rest, n, inStr));
        out := out + [c];
      }
      i := i + 1;
    }
    assert sql[i..] == "" && out + "" == out;
  }

  lemma Append(a: string, b: string, c: string)
    ensures a + (b + c) == (a + b) + c
  {
  }

  // ---- scanning ----

  /** Whether a scan that enters `s` inside a literal or not leaves it inside one. */
  function InStr(s: string, inStr: bool): bool {
    if s == "" then inStr else InStr(s[1..], if s[0] == '\'' then !inStr else inStr)
  }

  /** The placeholders of `s`. */
  function Marks(s: string, inStr: bool): nat {
    if s == "" then 0
    else (if s[0] == '?' && !inStr then 1 else 0) + Marks(s[1..], if s[0] == '\'' then !inStr else inStr)
  }

  /** Neither a quote nor a question mark. */
  predicate Clean(s: string) {
    forall i :: 0 <= i < |s| ==> s[i] != '\'' && s[i] != '?'
  }

  lemma {:induction false} CleanScan(s: string, inStr: bool)
    requires Clean(s)
    ensures InStr(s, inStr) == inStr && Marks(s, inStr) == 0
    decreases |s|
  {
    if s != "" { CleanScan(s[1..], inStr); }
  }

  // ---- templates ----

  /** Text, the place of a value, or a value without a place. */
  datatype Piece = Lit(s: string) | Mark(v: Value) | Extra(v: Value) {
    function Shown(): string {
      match this case Lit(s) => s case Mark(_) => "?" case Extra(_) => ""
    }

    function Bound(): seq<Value> {
      if this.Lit? then [] else [v]
    }
  }
  type Template = seq<Piece>

  function Render(t: Template): string {
    if t == [] then "" else t[0].Shown() + Render(t[1..])
  }

  /** The same text, the `k`-th place after the first `n` numbered `n + k`. */
  function Numbered(t: Template, n: nat): string
    decreases |t|
  {
    if t == [] then ""
    else
      match t[0]
      case Lit(s) => s + Numbered(t[1..], n)
      case Mark(_) => ("$" + Decimal(n + 1)) + Numbered(t[1..], n + 1)
      case Extra(_) => Numbered(t[1..], n)
  }

  function Values(t: Template): seq<Value> {
    if t == [] then [] else t[0].Bound() + Values(t[1..])
  }

  /** Whether a scan of the template's text leaves it inside a literal. */
  function After(t: Template, inStr: bool): bool {
    if t == [] then inStr else After(t[1..], if t[0].Lit? then InStr(t[0].s, inStr) else inStr)
  }

  /** No text holds a placeholder, and no place stands inside a literal. */
  predicate Placed(t: Template, inStr: bool) {
    if t == [] then true
    else
      match t[0]
      case Lit(s) => Marks(s, inStr) == 0 && Placed(t[1..], InStr(s, inStr))
      case Mark(_) => !inStr && Placed(t[1..], inStr)
      case Extra(_) => false
  }

  /** A template that can be joined to others. */
  predicate Closed(t: Template) {
    Placed(t, false) && !After(t, false)
  }

  lemma {:induction false} TranslateLit(s: string, rest: string, n: nat, inStr: bool)
    requires Marks(s, inStr) == 0
    ensures Translate(s + rest, n, inStr) == s + Translate(rest, n, InStr(s, inStr))
    decreases |s|
  {
    if s == "" {
      assert s + rest == rest && "" + Translate(rest, n, inStr) == Translate(rest, n, inStr);
    } else {
      var flip := if s[0] == '\'' then !inStr else inStr;
      assert (s + rest)[1..] == s[1..] + rest;
      TranslateLit(s[1..], rest, n, flip);
      Append([s[0]], s[1..], Translate(rest, n, InStr(s, inStr)));
      assert [s[0]] + s[1..] == s;
      hide Decimal;
    }
  }

  /** The translation numbers the places in order and changes nothing else. */
  lemma {:induction false} TranslateTemplate(t: Template, n: nat, inStr: bool)
    requires Placed(t, inStr)
    ensures Translate(Render(t), n, inStr) == Numbered(t, n)
    decreases |t|
  {
    if t != [] {
      var rest := Render(t[1..]);
      match t[0] {
        case Lit(s) =>
          TranslateLit(s, rest, n, inStr);
          TranslateTemplate(t[1..], n, InStr(s, inStr));
        case Mark(_) =>
          TranslateTemplate(t[1..], n + 1, inStr);
          assert ("?" + rest)[1..] == rest;
          hide Decimal;
        case Extra(_) =>
      }
    }
  }

  lemma {:induction false} MarksCat(a: string, b: string, inStr: bool)
    ensures Marks(a + b, inStr) == Marks(a, inStr) + Marks(b, InStr(a, inStr))
    ensures InStr(a + b, inStr) == InStr(b, InStr(a, inStr))
    decreases |a|
  {
    if a == "" {
      assert a + b == b;
    } else {
      assert (a + b)[1..] == a[1..] + b;
      MarksCat(a[1..], b, if a[0] == '\'' then !inStr else inStr);
    }
  }

  /** As many placeholders as values. */
  lemma {:induction false} MarksAreValues(t: Template, inStr: bool)
    requires Placed(t, inStr)
    ensures Marks(Render(t), inStr) == |Values(t)| && InStr(Render(t), inStr) == After(t, inStr)
    decreases |t|
  {
    if t != [] {
      var s := t[0].Shown();
      MarksCat(s, Render(t[1..]), inStr);
      MarksAreValues(t[1..], InStr(s, inStr));
      assert t[0].Mark? ==> s[1..] == "";
    }
  }

  lemma {:induction false} RenderCat(a: Template, b: Template)
    ensures Render(a + b) == Render(a) + Render(b) && Values(a + b) == Values(a) + Values(b)
    decreases |a|
  {
    if a == [] {
      assert a + b == b;
    } else {
      assert (a + b)[1..] == a[1..] + b;
      RenderCat(a[1..], b);
      var s, v := a[0].Shown(), a[0].Bound();
      Append(s, Render(a[1..]), Render(b));
      assert v + (Values(a[1..]) + Values(b)) == (v + Values(a[1..])) + Values(b);
    }
  }

  lemma {:induction false} PlacedCat(a: Template, b: Template, inStr: bool)
    ensures Placed(a + b, inStr) <==> Placed(a, inStr) && Placed(b, After(a, inStr))
    ensures After(a + b, inStr) == After(b, After(a, inStr))
    decreases |a|
  {
    if a == [] {
      assert a + b == b;
    } else {
      assert (a + b)[1..] == a[1..] + b;
      PlacedCat(a[1..], b, if a[0].Lit? then InStr(a[0].s, inStr) else inStr);
    }
  }

  lemma ClosedCat(a: Template, b: Template)
    requires Closed(a) && Closed(b)
    ensures Closed(a + b)
  {
    PlacedCat(a, b, false);
  }

  /** Text around one value. */
  function Around(before: string, v: Value, after: string): Template {
    [Lit(before), Mark(v), Lit(after)]
  }

  lemma LitClosed(s: string)
    requires Clean(s)
    ensures Closed([Lit(s)]) && Render([Lit(s)]) == s && Values([Lit(s)]) == []
  {
    CleanScan(s, false);
    assert [Lit(s)][1..] == [];
  }

  lemma MarkClosed(v: Value)
    ensures Closed([Mark(v)]) && Render([Mark(v)]) == "?" && Values([Mark(v)]) == [v]
  {
    assert [Mark(v)][1..] == [];
  }

  lemma Both(a: Template, b: Template)
    requires Closed(a) && Closed(b)
    ensures Closed(a + b) && Render(a + b) == Render(a) + Render(b) && Values(a + b) == Values(a) + Values(b)
  {
    ClosedCat(a, b);
    RenderCat(a, b);
  }

  lemma AroundClosed(before: string, v: Value, after: string)
    requires Clean(before) && Clean(after)
    ensures Closed(Around(before, v, after))
    ensures Render(Around(before, v, after)) == before + "?" + after && Values(Around(before, v, after)) == [v]
  {
    LitClosed(before);
    MarkClosed(v);
    LitClosed(after);
    Both([Lit(before)], [Mark(v)]);
    Both([Lit(before)] + [Mark(v)], [Lit(after)]);
    assert Around(before, v, after) == [Lit(before)] + [Mark(v)] + [Lit(after)];
    hide *;
  }

  // ---- joining ----

  function JoinAll(ts: seq<Template>, sep: string): Template {
    if ts == [] then [] else if |ts| == 1 then ts[0] else ts[0] + ([Lit(sep)] + JoinAll(ts[1..], sep))
  }

  function RenderAll(ts: seq<Template>): seq<string> {
    seq(|ts|, i requires 0 <= i < |ts| => Render(ts[i]))
  }

  function ValuesAll(ts: seq<Template>): seq<Value> {
    if ts == [] then [] else Values(ts[0]) + ValuesAll(ts[1..])
  }

  lemma {:induction false} JoinRender(ts: seq<Template>, sep: string)
    ensures Render(JoinAll(ts, sep)) == Join(RenderAll(ts), sep) && Values(JoinAll(ts, sep)) == ValuesAll(ts)
    decreases |ts|
  {
    if |ts| == 1 {
      assert ts[1..] == [];
      assert Values(ts[0]) + [] == Values(ts[0]);
      hide Render, Values;
    } else if ts != [] {
      JoinRender(ts[1..], sep);
      JoinStep(ts, sep);
      hide Render, Values, JoinAll;
      RenderAllTail(ts);
      hide RenderAll;
    }
  }

  lemma RenderAllTail(ts: seq<Template>)
    requires ts != []
    ensures RenderAll(ts)[0] == Render(ts[0]) && RenderAll(ts)[1..] == RenderAll(ts[1..]) && |RenderAll(ts)| == |ts|
  {
    hide Render;
  }

  lemma JoinStep(ts: seq<Template>, sep: string)
    requires |ts| > 1
    ensures Render(JoinAll(ts, sep)) == Render(ts[0]) + (sep + Render(JoinAll(ts[1..], sep)))
    ensures Values(JoinAll(ts, sep)) == Values(ts[0]) + Values(JoinAll(ts[1..], sep))
  {
    var rest := JoinAll(ts[1..], sep);
    assert JoinAll(ts, sep) == ts[0] + ([Lit(sep)] + rest);
    hide JoinAll;
    RenderCat(ts[0], [Lit(sep)] + rest);
    assert ([Lit(sep)] + rest)[1..] == rest;
    assert Render([Lit(sep)] + rest) == sep + Render(rest);
    assert Values([Lit(sep)] + rest) == [] + Values(rest);
    hide *;
  }

  lemma {:induction false} JoinClosed(ts: seq<Template>, sep: string)
    requires Clean(sep) && forall i :: 0 <= i < |ts| ==> Closed(ts[i])
    ensures Closed(JoinAll(ts, sep))
    decreases |ts|
  {
    if |ts| > 1 {
      JoinClosed(ts[1..], sep);
      LitClosed(sep);
      ClosedCat([Lit(sep)], JoinAll(ts[1..], sep));
      ClosedCat(ts[0], [Lit(sep)] + JoinAll(ts[1..], sep));
    }
    hide Closed;
  }

  // ---- raw fragments ----

  function Extras(ps: seq<Value>): Template {
    if ps == [] then [] else [Extra(ps[0])] + Extras(ps[1..])
  }

  /** A fragment with its placeholders given the values in order. A placeholder too many
      stays text; a value too many has no place. */
  function Fill(s: string, ps: seq<Value>, inStr: bool): Template
    decreases |s|
  {
    if s == "" then Extras(ps)
    else if s[0] == '?' && !inStr && ps != [] then [Mark(ps[0])] + Fill(s[1..], ps[1..], inStr)
    else [Lit([s[0]])] + Fill(s[1..], ps, if s[0] == '\'' then !inStr else inStr)
  }

  lemma {:induction false} ExtrasAre(ps: seq<Value>, inStr: bool)
    ensures Render(Extras(ps)) == "" && Values(Extras(ps)) == ps
    ensures (Placed(Extras(ps), inStr) <==> ps == []) && After(Extras(ps), inStr) == inStr
    decreases |ps|
  {
    if ps != [] {
      ExtrasAre(ps[1..], inStr);
      assert ([Extra(ps[0])] + Extras(ps[1..]))[1..] == Extras(ps[1..]);
      assert ps == [ps[0]] + ps[1..];
    }
  }

  lemma FillStep(s: string, ps: seq<Value>, inStr: bool)
    requires s != ""
    ensures var mark := s[0] == '?' && !inStr && ps != [];
      var head := if mark then Mark(ps[0]) else Lit([s[0]]);
      var t := Fill(s[1..], if mark then ps[1..] else ps, if s[0] == '\'' then !inStr else inStr);
      && Fill(s, ps, inStr) == [head] + t && ([head] + t)[1..] == t
      && s == [s[0]] + s[1..] && (ps != [] ==> ps == [ps[0]] + ps[1..])
  {
  }

  /** The fragment and its values are unchanged. */
  lemma {:induction false} FillText(s: string, ps: seq<Value>, inStr: bool)
    ensures Render(Fill(s, ps, inStr)) == s && Values(Fill(s, ps, inStr)) == ps
    decreases |s|
  {
    if s == "" {
      ExtrasAre(ps, inStr);
    } else {
      var mark := s[0] == '?' && !inStr && ps != [];
      FillText(s[1..], if mark then ps[1..] else ps, if s[0] == '\'' then !inStr else inStr);
      FillStep(s, ps, inStr);
      hide Fill;
    }
  }

  /** Every value has its place exactly when there are as many placeholders as values. */
  lemma {:induction false} FillPlaced(s: string, ps: seq<Value>, inStr: bool)
    ensures After(Fill(s, ps, inStr), inStr) == InStr(s, inStr)
    ensures Placed(Fill(s, ps, inStr), inStr) <==> Marks(s, inStr) == |ps|
    decreases |s|
  {
    if s == "" {
      ExtrasAre(ps, inStr);
    } else {
      var mark := s[0] == '?' && !inStr && ps != [];
      var flip := if s[0] == '\'' then !inStr else inStr;
      FillPlaced(s[1..], if mark then ps[1..] else ps, flip);
      FillStep(s, ps, inStr);
      OneChar(s[0], inStr);
      assert Marks(s, inStr) == Marks([s[0]], inStr) + Marks(s[1..], flip) && InStr(s, inStr) == InStr(s[1..], flip);
      hide Fill, InStr, Marks;
    }
  }

  lemma OneChar(c: char, inStr: bool)
    ensures InStr([c], inStr) == (if c == '\'' then !inStr else inStr)
    ensures Marks([c], inStr) == (if c == '?' && !inStr then 1 else 0)
  {
    assert [c][1..] == "";
  }
}
