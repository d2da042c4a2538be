/** What a backend sends for a SELECT: the builder's text and values, and the row-lock
    clause at its end if the engine has one. */
module Selecting {
  import opened Wrappers
  import opened Sql
  import opened Builder

  /** What the engine can do. */
  datatype Caps = Caps(jsonPath: bool, rowLocks: bool, skipLocked: bool)

  /** An engine without row locks holds a coarser lock anyway, but cannot skip or fail. */
  function LockText(lock: RowLock, caps: Caps): Option<string> {
    if !caps.rowLocks then (if lock.wait.Blocking? then Some("") else None)
    else if !lock.wait.Blocking? && !caps.skipLocked then None
    else
      Some((if lock.exclusive then " FOR UPDATE" else " FOR SHARE")
           + (match lock.wait case Blocking => "" case Skipping => " SKIP LOCKED" case Failing => " NOWAIT"))
  }

  function LockClause(q: Query, caps: Caps): Option<string> {
    if q.lock.Some? then LockText(q.lock.value, caps) else Some("")
  }

  predicate UsesJson(q: Query) {
    q.jsonSelects != [] || exists i :: 0 <= i < |q.preds| && (q.preds[i].JsonCmp? || q.preds[i].JsonContains?)
  }

  function SelectTemplate(q: Query, d: Dialect, lock: string): Template {
    QueryTemplate(q, d) + [Lit(lock)]
  }

  // ---- the lock a chain asks for ----

  /** The strength of the last call that names one. */
  function LastStrength(calls: seq<Call>): Option<bool> {
    if calls == [] then None
    else
      var c := calls[|calls| - 1];
      if c.Lock? then Some(c.exclusive) else LastStrength(calls[..|calls| - 1])
  }

  /** The last call that says how to wait, or waiting itself. */
  function LastWait(calls: seq<Call>): LockWait {
    if calls == [] then Blocking
    else
      var c := calls[|calls| - 1];
      if c.Wait? then c.wait else LastWait(calls[..|calls| - 1])
  }

  /** A chain that builds asks for a lock exactly when some call names its strength; the
      last strength and the last way of waiting count, whichever came first, and nothing
      says how to wait before a strength is named. */
  lemma {:induction false} ChainLock(table: string, calls: seq<Call>)
    requires !Chain(table, calls).bad
    ensures Chain(table, calls).lock ==
      match LastStrength(calls) case None => None case Some(exclusive) => Some(RowLock(exclusive, LastWait(calls)))
    ensures forall i :: 0 <= i < |calls| && calls[i].Wait? ==> LastStrength(calls[..i]).Some?
    decreases |calls|
  {
    if calls != [] {
      var front, c := calls[..|calls| - 1], calls[|calls| - 1];
      assert Chain(table, calls) == Apply(Chain(table, front), c);
      ApplyLock(Chain(table, front), c);
      ChainLock(table, front);
      StrengthOrNoWait(front);
      hide Apply, Chain;
      forall i | 0 <= i < |calls| && calls[i].Wait?
        ensures LastStrength(calls[..i]).Some?
      {
        if i < |front| {
          assert calls[..i] == front[..i];
        } else {
          assert calls[..i] == front;
        }
      }
    }
  }

  lemma ApplyLock(q: Query, c: Call)
    requires !Apply(q, c).bad
    ensures !q.bad && (c.Wait? ==> q.lock.Some?)
    ensures Apply(q, c).lock ==
      if c.Lock? then Some(RowLock(c.exclusive, if q.lock.Some? then q.lock.value.wait else Blocking))
      else if c.Wait? then Some(q.lock.value.(wait := c.wait))
      else q.lock
  {
  }

  lemma {:induction false} StrengthOrNoWait(calls: seq<Call>)
    requires forall i :: 0 <= i < |calls| && calls[i].Wait? ==> LastStrength(calls[..i]).Some?
    ensures LastStrength(calls).None? ==> LastWait(calls) == Blocking
    decreases |calls|
  {
    if calls != [] {
      var front := calls[..|calls| - 1];
      assert forall i :: 0 <= i < |front| ==> front[..i] == calls[..i];
      StrengthOrNoWait(front);
    }
  }

  // ---- the statement sent ----

  lemma LockClean(q: Query, caps: Caps)
    requires LockClause(q, caps).Some?
    ensures Clean(LockClause(q, caps).value)
  {
    assert Clean("") && Clean(" FOR UPDATE") && Clean(" FOR SHARE") && Clean(" SKIP LOCKED") && Clean(" NOWAIT");
    if q.lock.Some? && caps.rowLocks {
      var lock := q.lock.value;
      var head := if lock.exclusive then " FOR UPDATE" else " FOR SHARE";
      var wait := match lock.wait case Blocking => "" case Skipping => " SKIP LOCKED" case Failing => " NOWAIT";
      CatClean(head, wait);
    }
    hide Clean;
  }

  /** With the lock clause at its end the statement still has one placeholder per value, in
      order, and its translation numbers them and changes nothing else. */
  lemma SelectTranslates(table: string, calls: seq<Call>, d: Dialect, caps: Caps)
    requires !Chain(table, calls).bad && AllFit(Chain(table, calls).preds)
    requires LockClause(Chain(table, calls), caps).Some?
    ensures var q := Chain(table, calls);
      var t := SelectTemplate(q, d, LockClause(q, caps).value);
      && Values(t) == Values(QueryTemplate(q, d)) && Marks(Render(t), false) == |Values(t)|
      && Translate(Render(t), 0, false) == Numbered(t, 0)
  {
    var q := Chain(table, calls);
    var text := LockClause(q, caps).value;
    var t := SelectTemplate(q, d, text);
    hide Chain, QueryTemplate, Render, Values, Marks, Translate, Numbered, AllFit, LockClause;
    BuildsClosed(table, calls, d);
    LockClean(q, caps);
    LitClosed(text);
    ClosedCat(QueryTemplate(q, d), [Lit(text)]);
    RenderCat(QueryTemplate(q, d), [Lit(text)]);
    assert Values(QueryTemplate(q, d)) + [] == Values(QueryTemplate(q, d));
    MarksAreValues(t, false);
    TranslateTemplate(t, 0, false);
  }

  /** Only an engine with row locks that can skip them has a clause for not waiting. */
  lemma LockRefused(q: Query, caps: Caps)
    ensures LockClause(q, caps).None?
      <==> q.lock.Some? && q.lock.value.wait != Blocking && !(caps.rowLocks && caps.skipLocked)
  {
  }

  /** `select`, up to sending it. */
  method Select(q: Query, d: Dialect, caps: Caps) returns (r: Option<(string, seq<Value>)>)
    ensures r.None? <==>
      || q.bad
      || (!caps.jsonPath && q.jsonSelects != [])
      || (!caps.jsonPath && exists i :: 0 <= i < |q.preds| && (q.preds[i].JsonCmp? || q.preds[i].JsonContains?))
      || (d.Sqlite? && exists i :: 0 <= i < |q.preds| && q.preds[i].JsonContains?)
      || (q.lock.Some? && q.lock.value.wait != Blocking && !(caps.rowLocks && caps.skipLocked))
    ensures r.Some? ==>
      LockClause(q, caps).Some?
      && var t := SelectTemplate(q, d, LockClause(q, caps).value); r.value == (Render(t), Values(t))
  {
    LockRefused(q, caps);
    hide QueryTemplate, Render, Values, LockText;
    if UsesJson(q) && !caps.jsonPath {
      return None;
    }
    var built := BuildFor(q, d);
    if built.None? {
      return None;
    }
    var (sql, params) := built.value;
    var clause := "";
    if q.lock.Some? {
      var text := LockText(q.lock.value, caps);
      if text.None? {
        return None;
      }
      clause := text.value;
    }
    RenderCat(QueryTemplate(q, d), [Lit(clause)]);
    LockShows(clause);
    assert params + [] == params;
    r := Some((sql + clause, params));
  }

  lemma LockShows(clause: string)
    ensures Render([Lit(clause)]) == clause && Values([Lit(clause)]) == []
  {
    assert [Lit(clause)][1..] == [];
  }
}
