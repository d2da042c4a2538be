/** What the builders accept as an identifier or an operator, and that neither can open a
    literal or add a placeholder. */
module Identifiers {
  import opened Sql

  predicate IsLetter(c: char) {
    'a' <= c <= 'z' || 'A' <= c <= 'Z' || c == '_'
  }

  predicate IsIdent(c: char) {
    IsLetter(c) || '0' <= c <= '9'
  }

  predicate PlainIdent(s: string) {
    s != "" && IsLetter(s[0]) && forall i :: 0 < i < |s| ==> IsIdent(s[i])
  }

  function FirstDot(s: string): (n: nat)
    ensures n <= |s| && (n < |s| ==> s[n] == '.')
  {
    if s == "" || s[0] == '.' then 0 else 1 + FirstDot(s[1..])
  }

  predicate ValidIdentifier(s: string) {
    var dot := FirstDot(s);
    || s == "*"
    || (dot < |s| && PlainIdent(s[..dot])
      && (s[dot + 1..] == "*" || ('.' !in s[dot + 1..] && PlainIdent(s[dot + 1..]))))
    || (dot == |s| && PlainIdent(s))
  }

  const OPERATORS: seq<string> := ["=", "!=", "<>", "<", "<=", ">", ">=", "LIKE", "NOT LIKE", "ILIKE", "NOT ILIKE"]

  function Upper(c: char): char {
    if 'a' <= c <= 'z' then (c as int - 32) as char else c
  }

  predicate SameIgnoringCase(a: string, b: string) {
    |a| == |b| && forall i :: 0 <= i < |a| ==> Upper(a[i]) == Upper(b[i])
  }

  predicate ValidOperator(op: string) {
    exists i :: 0 <= i < |OPERATORS| && SameIgnoringCase(op, OPERATORS[i])
  }

  lemma PlainClean(s: string)
    requires PlainIdent(s)
    ensures Clean(s)
  {
    assert IsLetter(s[0]);
  }

  lemma IdentifierClean(s: string)
    requires ValidIdentifier(s)
    ensures Clean(s)
  {
    var dot := FirstDot(s);
    if s != "*" {
      if dot < |s| {
        PlainClean(s[..dot]);
        if s[dot + 1..] != "*" { PlainClean(s[dot + 1..]); }
        hide PlainIdent;
        forall i | 0 <= i < |s|
          ensures s[i] != '\'' && s[i] != '?'
        {
          assert i < dot ==> s[i] == s[..dot][i];
          assert i > dot ==> s[i] == s[dot + 1..][i - dot - 1];
        }
      } else {
        PlainClean(s);
      }
    }
  }

  lemma OperatorClean(op: string)
    requires ValidOperator(op)
    ensures Clean(op)
  {
    var k :| 0 <= k < |OPERATORS| && SameIgnoringCase(op, OPERATORS[k]);
    assert Clean(OPERATORS[k]);
    forall i | 0 <= i < |op|
      ensures op[i] != '\'' && op[i] != '?'
    {
      assert Upper(op[i]) == Upper(OPERATORS[k][i]);
    }
  }

  // ---- exactly what is accepted ----

  /** A letter or underscore, then letters, digits and underscores, all ASCII. */
  ghost predicate Name(s: string) {
    && s != "" && ('a' <= s[0] <= 'z' || 'A' <= s[0] <= 'Z' || s[0] == '_')
    && forall i :: 0 < i < |s| ==> 'a' <= s[i] <= 'z' || 'A' <= s[i] <= 'Z' || '0' <= s[i] <= '9' || s[i] == '_'
  }

  /** An identifier is a name, a star, or a name with a name or a star behind one dot. */
  lemma IdentifierIs(s: string)
    ensures ValidIdentifier(s) <==>
      || s == "*" || Name(s)
      || exists k :: 0 <= k < |s| && s[k] == '.' && Name(s[..k]) && (s[k + 1..] == "*" || Name(s[k + 1..]))
  {
    var dot := FirstDot(s);
    DotFirst(s);
    NameIsPlain(s);
    if dot < |s| {
      NameIsPlain(s[..dot]);
      NameIsPlain(s[dot + 1..]);
      NoDotInName(s[dot + 1..]);
      NoDotInName(s);
    }
    hide PlainIdent;
    if k :| 0 <= k < |s| && s[k] == '.' && Name(s[..k]) && (s[k + 1..] == "*" || Name(s[k + 1..])) {
      NoDotInName(s[..k]);
      assert dot <= k;
      assert forall i :: 0 <= i < k ==> s[i] == s[..k][i];
    }
    hide Name;
  }

  lemma NameIsPlain(s: string)
    ensures PlainIdent(s) <==> Name(s)
  {
  }

  lemma NoDotInName(s: string)
    ensures Name(s) ==> '.' !in s
  {
  }

  lemma {:induction false} DotFirst(s: string)
    ensures forall i :: 0 <= i < FirstDot(s) ==> s[i] != '.'
    decreases |s|
  {
    if s != "" && s[0] != '.' {
      DotFirst(s[1..]);
    }
  }

  /** The operators, in upper case. */
  const ACCEPTED: set<string> :=
    {"=", "!=", "<>", "<", "<=", ">", ">=", "LIKE", "NOT LIKE", "ILIKE", "NOT ILIKE"}

  /** The text of an operator, its ASCII letters in either case. */
  ghost predicate InEitherCase(s: string, o: string) {
    |o| == |s| && forall i :: 0 <= i < |s| ==> s[i] == o[i] || ('A' <= o[i] <= 'Z' && s[i] as int == o[i] as int + 32)
  }

  lemma OperatorIs(op: string)
    ensures ValidOperator(op) <==> exists o :: o in ACCEPTED && InEitherCase(op, o)
  {
    forall o | o in ACCEPTED
      ensures o in OPERATORS && (SameIgnoringCase(op, o) <==> InEitherCase(op, o))
    {
      OperatorListed(o);
      EitherCase(op, o);
    }
    forall i | 0 <= i < |OPERATORS|
      ensures OPERATORS[i] in ACCEPTED
    {
    }
    hide SameIgnoringCase, InEitherCase;
  }

  predicate NoLower(o: string) {
    forall i :: 0 <= i < |o| ==> !('a' <= o[i] <= 'z')
  }

  lemma OperatorListed(o: string)
    requires o in ACCEPTED
    ensures o in OPERATORS && NoLower(o)
  {
    assert OPERATORS[0] == "=" && OPERATORS[1] == "!=" && OPERATORS[2] == "<>" && OPERATORS[3] == "<";
    assert OPERATORS[4] == "<=" && OPERATORS[5] == ">" && OPERATORS[6] == ">=" && OPERATORS[7] == "LIKE";
    assert OPERATORS[8] == "NOT LIKE" && OPERATORS[9] == "ILIKE" && OPERATORS[10] == "NOT ILIKE";
  }

  lemma EitherCase(a: string, o: string)
    requires NoLower(o)
    ensures SameIgnoringCase(a, o) <==> InEitherCase(a, o)
  {
  }
}
