/** Reciprocal-rank fusion of two ranked lists, over exact rationals. */
module Fusion {

  type Id = int

  // ---- scores ----

  function LegSize(k: nat): (n: nat)
    ensures n >= 4 * k && n >= 50 && (n == 4 * k || n == 50)
  {
    if k * 4 > 50 then k * 4 else 50
  }

  /** What the row at `rank`, counted from zero, is worth. */
  function Worth(rank: nat): real {
    1.0 / (61 + rank) as real
  }

  /** The worth of all of `id`'s places in a leg whose first place is `rank`. */
  function LegScore(leg: seq<Id>, id: Id): real
    decreases |leg|
  {
    if leg == [] then 0.0
    else LegScore(leg[..|leg| - 1], id) + (if leg[|leg| - 1] == id then Worth(|leg| - 1) else 0.0)
  }

  function Score(lexical: seq<Id>, vector: seq<Id>, id: Id): real {
    LegScore(lexical, id) + LegScore(vector, id)
  }

  /** Row ids are primary keys: a leg ranks each once. */
  predicate Distinct(leg: seq<Id>) {
    forall i, j :: 0 <= i < j < |leg| ==> leg[i] != leg[j]
  }

  lemma {:induction false} AbsentScore(leg: seq<Id>, id: Id)
    requires id !in leg
    ensures LegScore(leg, id) == 0.0
    decreases |leg|
  {
    if leg != [] {
      AbsentScore(leg[..|leg| - 1], id);
    }
  }

  lemma {:induction false} PresentScore(leg: seq<Id>, rank: nat)
    requires Distinct(leg) && rank < |leg|
    ensures LegScore(leg, leg[rank]) == Worth(rank)
    decreases |leg|
  {
    var front := leg[..|leg| - 1];
    if rank == |leg| - 1 {
      assert leg[rank] !in front;
      AbsentScore(front, leg[rank]);
    } else {
      PresentScore(front, rank);
    }
  }

  lemma WorthFalls(a: nat, b: nat)
    requires a <= b
    ensures 0.0 < Worth(b) <= Worth(a) <= 1.0 / 61.0
  {
    Reciprocal((61 + a) as real, (61 + b) as real);
    Reciprocal(61.0, (61 + a) as real);
  }

  lemma Reciprocal(x: real, y: real)
    requires 0.0 < x <= y
    ensures 0.0 < 1.0 / y <= 1.0 / x
  {
  }

  /** With at most 60 places in a leg, a row in both legs scores more than any row in one:
      twice the worst place is worth more than the best place once. */
  lemma BothBeatsOne(lexical: seq<Id>, vector: seq<Id>, n: nat, both: Id, one: Id)
    requires Distinct(lexical) && Distinct(vector) && |lexical| <= n && |vector| <= n && n <= 60
    requires both in lexical && both in vector && (one in lexical) != (one in vector)
    ensures Score(lexical, vector, both) > Score(lexical, vector, one)
  {
    var i :| 0 <= i < |lexical| && lexical[i] == both;
    var j :| 0 <= j < |vector| && vector[j] == both;
    PresentScore(lexical, i);
    PresentScore(vector, j);
    WorthFalls(i, 59);
    WorthFalls(j, 59);
    var leg := if one in lexical then lexical else vector;
    var k :| 0 <= k < |leg| && leg[k] == one;
    PresentScore(leg, k);
    AbsentScore(if one in lexical then vector else lexical, one);
    WorthFalls(0, k);
    assert Worth(59) + Worth(59) == 1.0 / 60.0;
  }

  // ---- the bound is tight ----

  function Fillers(from: nat, n: nat): (r: seq<Id>)
    ensures |r| == n && forall i :: 0 <= i < n ==> r[i] == from + i
  {
    if n == 0 then [] else Fillers(from, n - 1) + [from + n - 1]
  }

  /** Whatever the requested number of results, a row in both legs beats every row in one
      exactly when it is at most 15. From 16 on, legs of 64 or more places let a row last
      in both lose to a row first in one. */
  lemma TightAtFifteen(k: nat)
    ensures (forall lexical: seq<Id>, vector: seq<Id>, both: Id, one: Id ::
               Fair(lexical, vector, LegSize(k), both, one) ==>
                 Score(lexical, vector, both) > Score(lexical, vector, one))
      <==> k <= 15
  {
    if k <= 15 {
      forall lexical: seq<Id>, vector: seq<Id>, both: Id, one: Id | Fair(lexical, vector, LegSize(k), both, one)
        ensures Score(lexical, vector, both) > Score(lexical, vector, one)
      {
        BothBeatsOne(lexical, vector, LegSize(k), both, one);
      }
    } else {
      var lexical, vector := Loses(LegSize(k));
      assert Fair(lexical, vector, LegSize(k), 0, 1);
      assert !(Score(lexical, vector, 0) > Score(lexical, vector, 1));
    }
  }

  predicate Fair(lexical: seq<Id>, vector: seq<Id>, n: nat, both: Id, one: Id) {
    && Distinct(lexical) && Distinct(vector) && |lexical| <= n && |vector| <= n
    && both in lexical && both in vector && (one in lexical) != (one in vector)
  }

  lemma Loses(n: nat) returns (lexical: seq<Id>, vector: seq<Id>)
    requires n >= 64
    ensures Fair(lexical, vector, n, 0, 1) && Score(lexical, vector, 0) <= Score(lexical, vector, 1)
  {
    lexical, vector := [1] + Fillers(2, n - 2) + [0], Fillers(2, n - 1) + [0];
    assert lexical[0] == 1 && lexical[n - 1] == 0 && vector[n - 1] == 0;
    assert 1 !in vector;
    PresentScore(lexical, 0);
    PresentScore(lexical, n - 1);
    PresentScore(vector, n - 1);
    AbsentScore(vector, 1);
    WorthFalls(63, n - 1);
    assert Worth(63) + Worth(63) == 1.0 / 62.0;
    assert Worth(0) == 1.0 / 61.0;
  }

  // ---- the fusion ----

  type Scores = map<Id, real>

  function At(scores: Scores, id: Id): real {
    if id in scores then scores[id] else 0.0
  }

  /** One leg's ranks, added to the score map. */
  method AddLeg(scores: Scores, leg: seq<Id>) returns (r: Scores)
    ensures forall id :: At(r, id) == At(scores, id) + LegScore(leg, id)
    ensures r.Keys == scores.Keys + set id | id in leg
  {
    r := scores;
    var rank := 0;
    while rank < |leg|
      invariant 0 <= rank <= |leg|
      invariant forall id :: At(r, id) == At(scores, id) + LegScore(leg[..rank], id)
      invariant r.Keys == scores.Keys + set id | id in leg[..rank]
    {
      assert leg[..rank + 1] == leg[..rank] + [leg[rank]];
      assert leg[..rank + 1][..rank] == leg[..rank];
      hide Worth;
      r := r[leg[rank] := At(r, leg[rank]) + Worth(rank)];
      rank := rank + 1;
    }
    assert leg[..rank] == leg;
  }

  datatype Ranked = Ranked(id: Id, score: real)

  predicate Descending(rows: seq<Ranked>) {
    forall i, j :: 0 <= i < j < |rows| ==> rows[i].score >= rows[j].score
  }

  function Ids(rows: seq<Ranked>): set<Id> {
    set i | 0 <= i < |rows| :: rows[i].id
  }

  predicate DistinctRows(rows: seq<Ranked>) {
    forall i, j :: 0 <= i < j < |rows| ==> rows[i].id != rows[j].id
  }

  /** A row put in its place. */
  method Insert(rows: seq<Ranked>, row: Ranked) returns (r: seq<Ranked>)
    requires Descending(rows) && DistinctRows(rows) && row.id !in Ids(rows)
    ensures Descending(r) && DistinctRows(r) && Ids(r) == Ids(rows) + {row.id} && |r| == |rows| + 1
    ensures forall x :: x in r <==> x in rows || x == row
  {
    var i := 0;
    while i < |rows| && rows[i].score >= row.score
      invariant 0 <= i <= |rows| && forall j :: 0 <= j < i ==> rows[j].score >= row.score
    {
      i := i + 1;
    }
    r := rows[..i] + [row] + rows[i..];
    InsertedIds(rows, row, i, r);
  }

  lemma InsertedIds(rows: seq<Ranked>, row: Ranked, i: nat, r: seq<Ranked>)
    requires i <= |rows| && r == rows[..i] + [row] + rows[i..] && DistinctRows(rows) && row.id !in Ids(rows)
    ensures Ids(r) == Ids(rows) + {row.id} && DistinctRows(r)
  {
    assert r[i].id == row.id;
    forall id
      ensures id in Ids(r) <==> id in Ids(rows) + {row.id}
    {
      if id in Ids(rows) {
        var j :| 0 <= j < |rows| && rows[j].id == id;
        assert r[if j < i then j else j + 1].id == id;
      }
    }
    assert forall j :: 0 <= j < |rows| ==> rows[j].id in Ids(rows);
  }

  /** Any element, in no particular order. */
  method Some<T>(s: set<T>) returns (x: T)
    requires s != {}
    ensures x in s
  {
    x :| x in s;
  }

  /** The rows of the map, sorted. */
  method Sorted(scores: Scores) returns (rows: seq<Ranked>)
    ensures Descending(rows) && DistinctRows(rows) && Ids(rows) == scores.Keys && |rows| == |scores.Keys|
    ensures forall x :: x in rows ==> x.id in scores && x.score == scores[x.id]
  {
    rows := [];
    assert Descending(rows) && DistinctRows(rows) && Ids(rows) == {};
    hide Descending, DistinctRows, Ids;
    var todo := scores.Keys;
    while todo != {}
      invariant todo <= scores.Keys && Ids(rows) == scores.Keys - todo && |rows| == |scores.Keys| - |todo|
      invariant Descending(rows) && DistinctRows(rows)
      invariant forall x :: x in rows ==> x.id in scores && x.score == scores[x.id]
    {
      var id := Some(todo);
      rows := Insert(rows, Ranked(id, scores[id]));
      todo := todo - {id};
    }
  }

  /** The best `k` rows of the map: its entries sorted, cut off. */
  method Best(scores: Scores, k: nat) returns (rows: seq<Ranked>)
    ensures Descending(rows) && DistinctRows(rows) && |rows| == if |scores.Keys| < k then |scores.Keys| else k
    ensures forall x :: x in rows ==> x.id in scores && x.score == scores[x.id]
    ensures forall id, x :: id in scores && id !in Ids(rows) && x in rows ==> x.score >= scores[id]
  {
    rows := Sorted(scores);
    if |rows| > k {
      CutOff(scores, rows, k);
      rows := rows[..k];
    }
  }

  /** What is cut off scores no more than what stays. */
  lemma CutOff(scores: Scores, all: seq<Ranked>, k: nat)
    requires Descending(all) && Ids(all) == scores.Keys && k < |all|
    requires forall x :: x in all ==> x.id in scores && x.score == scores[x.id]
    ensures forall id, x :: id in scores && id !in Ids(all[..k]) && x in all[..k] ==> x.score >= scores[id]
  {
    forall id, x | id in scores && id !in Ids(all[..k]) && x in all[..k]
      ensures x.score >= scores[id]
    {
      var j := CutAt(all, k, id);
      assert all[j] in all;
      var i :| 0 <= i < k && all[..k][i] == x;
      hide Ids;
      assert all[i] == x;
    }
  }

  lemma CutAt(all: seq<Ranked>, k: nat, id: Id) returns (j: nat)
    requires k < |all| && id in Ids(all) && id !in Ids(all[..k])
    ensures k <= j < |all| && all[j].id == id
  {
    forall m | 0 <= m < k
      ensures all[m].id != id
    {
      assert all[..k][m].id in Ids(all[..k]);
    }
    j :| j < |all| && all[j].id == id;
  }

  /** The rows still in the table, in the fused order: `fetched` holds what the winners'
      ids found. */
  method Attach(rows: seq<Ranked>, fetched: set<Id>) returns (r: seq<Ranked>)
    requires DistinctRows(rows) && Descending(rows)
    ensures Descending(r) && DistinctRows(r) && forall x :: x in r <==> x in rows && x.id in fetched
  {
    r := [];
    var i := 0;
    while i < |rows|
      invariant 0 <= i <= |rows|
      invariant Descending(r) && DistinctRows(r)
      invariant forall x :: x in r <==> x in rows[..i] && x.id in fetched
    {
      assert rows[..i + 1] == rows[..i] + [rows[i]];
      assert forall x :: x in r ==> x.score >= rows[i].score && x.id != rows[i].id;
      if rows[i].id in fetched {
        r := r + [rows[i]];
      }
      i := i + 1;
    }
    assert rows[..i] == rows;
  }

  /** The fusion part of the hybrid search: distinct rows of either leg, the `k` best by
      fused score, best first. */
  method Fuse(lexical: seq<Id>, vector: seq<Id>, k: nat) returns (rows: seq<Ranked>)
    ensures Descending(rows) && DistinctRows(rows)
    ensures |rows| == if |set id | id in lexical + vector| < k then |set id | id in lexical + vector| else k
    ensures forall x :: x in rows ==> x.id in lexical + vector && x.score == Score(lexical, vector, x.id)
    ensures forall id, x :: id in lexical + vector && id !in Ids(rows) && x in rows ==>
      x.score >= Score(lexical, vector, id)
  {
    var scores := AddLeg(map[], lexical);
    scores := AddLeg(scores, vector);
    assert scores.Keys == set id | id in lexical + vector;
    forall id | id in scores
      ensures scores[id] == Score(lexical, vector, id)
    {
      hide LegScore;
      assert At(scores, id) == At(map[], id) + LegScore(lexical, id) + LegScore(vector, id);
    }
    rows := Best(scores, k);
  }
}
