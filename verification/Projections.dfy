/** Projections: a worker claims the checkpoint row, runs the handler over the next
    page of the log and moves the checkpoint, all in one transaction. */
module Projections {
  import opened EventStore
  import EventLog
  import opened Wrappers

  // ---- reading the log ----

  /** The row of smallest position beyond `after`, if any. */
  function NextRow(rows: seq<Row>, after: int): Option<Row> {
    if rows == [] then None
    else
      var best := NextRow(rows[..|rows| - 1], after);
      var r := rows[|rows| - 1];
      if r.position > after && (best.None? || r.position < best.value.position) then Some(r) else best
  }

  /** `WHERE position > ? ORDER BY position LIMIT ?` */
  function Page(rows: seq<Row>, after: int, limit: nat): seq<Row>
    decreases limit
  {
    var next := NextRow(rows, after);
    if limit == 0 || next.None? then [] else [next.value] + Page(rows, next.value.position, limit - 1)
  }

  lemma {:induction false} NextRowOfLog(rows: seq<Row>, after: nat)
    requires GapFree(rows)
    ensures NextRow(rows, after) == if after < |rows| then Some(rows[after]) else None
  {
    if rows != [] {
      var front := rows[..|rows| - 1];
      assert forall i :: 0 <= i < |front| ==> front[..i] == rows[..i];
      NextRowOfLog(front, after);
    }
  }

  /** On the event log a page is the next slice: nothing is skipped, nothing repeated. */
  lemma {:induction false} PageOfLog(rows: seq<Row>, after: nat, limit: nat)
    requires GapFree(rows) && after <= |rows|
    ensures var end := if after + limit <= |rows| then after + limit else |rows|;
      Page(rows, after, limit) == rows[after..end]
    decreases limit
  {
    hide NextRow;
    NextRowOfLog(rows, after);
    if limit > 0 && after < |rows| {
      assert rows[after].position == after + 1;
      hide GapFree;
      assert Page(rows, after, limit) == [rows[after]] + Page(rows, after + 1, limit - 1);
      hide Page;
      PageOfLog(rows, after + 1, limit - 1);
      FirstOfSlice(rows, after, if after + limit <= |rows| then after + limit else |rows|);
    }
  }

  lemma FirstOfSlice<T>(rows: seq<T>, from: nat, end: nat)
    requires from < end <= |rows|
    ensures rows[from..end] == [rows[from]] + rows[from + 1..end]
  {
  }

  // ---- the handler ----

  /** The read model after the handler has seen `events`; None once it has refused one. */
  function Fold<M>(handler: (M, Row) -> Option<M>, model: M, events: seq<Row>): Option<M> {
    if events == [] then Some(model)
    else
      match Fold(handler, model, events[..|events| - 1])
      case None => None
      case Some(m) => handler(m, events[|events| - 1])
  }

  lemma {:induction false} FoldAppend<M(!new)>(handler: (M, Row) -> Option<M>, model: M, a: seq<Row>, b: seq<Row>)
    ensures Fold(handler, model, a + b) ==
      (match Fold(handler, model, a) case None => None case Some(m) => Fold(handler, m, b))
  {
    if b == [] {
      assert a + b == a;
    } else {
      assert (a + b)[..|a + b| - 1] == a + b[..|b| - 1];
      FoldAppend(handler, model, a, b[..|b| - 1]);
    }
  }

  /** The models before and after each event: the handler took every one of them, in order. */
  ghost predicate Trace<M(!new)>(handler: (M, Row) -> Option<M>, ms: seq<M>, events: seq<Row>) {
    |ms| == |events| + 1 && forall i :: 0 <= i < |events| ==> handler(ms[i], events[i]) == Some(ms[i + 1])
  }

  ghost predicate Reaches<M(!new)>(handler: (M, Row) -> Option<M>, model: M, events: seq<Row>, model': M) {
    exists ms :: Trace(handler, ms, events) && ms[0] == model && ms[|ms| - 1] == model'
  }

  /** The handler took the events before one of them, and refused that one. */
  ghost predicate Refuses<M(!new)>(handler: (M, Row) -> Option<M>, model: M, events: seq<Row>) {
    exists k, m :: 0 <= k < |events| && Reaches(handler, model, events[..k], m) && handler(m, events[k]).None?
  }

  lemma TraceMore<M(!new)>(handler: (M, Row) -> Option<M>, model: M, events: seq<Row>, m: M, e: Row, m': M)
    requires Reaches(handler, model, events, m) && handler(m, e) == Some(m')
    ensures Reaches(handler, model, events + [e], m')
  {
    var ms :| Trace(handler, ms, events) && ms[0] == model && ms[|ms| - 1] == m;
    assert Trace(handler, ms + [m'], events + [e]);
  }

  /** Folding is running the handler on every event in turn, and it stops exactly when the
      handler refuses one. */
  lemma {:induction false} FoldRuns<M(!new)>(handler: (M, Row) -> Option<M>, model: M, events: seq<Row>)
    ensures forall m :: Fold(handler, model, events) == Some(m) <==> Reaches(handler, model, events, m)
    ensures Fold(handler, model, events).None? <==> Refuses(handler, model, events)
    decreases |events|
  {
    if events == [] {
      assert Trace(handler, [model], events);
    } else {
      var front, e := events[..|events| - 1], events[|events| - 1];
      assert front + [e] == events;
      FoldRuns(handler, model, front);
      ReachesLast(handler, model, front, e);
      RefusesLast(handler, model, front, e);
      hide Reaches, Refuses;
    }
  }

  lemma ReachesLast<M(!new)>(handler: (M, Row) -> Option<M>, model: M, front: seq<Row>, e: Row)
    ensures forall m' :: Reaches(handler, model, front + [e], m') <==>
      exists m :: Reaches(handler, model, front, m) && handler(m, e) == Some(m')
  {
    forall m'
      ensures Reaches(handler, model, front + [e], m') <==>
        exists m :: Reaches(handler, model, front, m) && handler(m, e) == Some(m')
    {
      if ms :| Trace(handler, ms, front + [e]) && ms[0] == model && ms[|ms| - 1] == m' {
        var n := |front|;
        assert handler(ms[n], (front + [e])[n]) == Some(ms[n + 1]);
        assert forall i :: 0 <= i < n ==> (front + [e])[i] == front[i];
        assert Trace(handler, ms[..n + 1], front);
        assert Reaches(handler, model, front, ms[n]);
      }
      if m :| Reaches(handler, model, front, m) && handler(m, e) == Some(m') {
        TraceMore(handler, model, front, m, e, m');
      }
    }
  }

  lemma RefusesLast<M(!new)>(handler: (M, Row) -> Option<M>, model: M, front: seq<Row>, e: Row)
    ensures Refuses(handler, model, front + [e]) <==>
      Refuses(handler, model, front) || exists m :: Reaches(handler, model, front, m) && handler(m, e).None?
  {
    var all := front + [e];
    hide Reaches;
    if k, m :| 0 <= k < |all| && Reaches(handler, model, all[..k], m) && handler(m, all[k]).None? {
      assert all[..k] == front[..k];
      assert k < |front| ==> all[k] == front[k];
      assert k == |front| ==> front[..k] == front;
    }
    if k, m :| 0 <= k < |front| && Reaches(handler, model, front[..k], m) && handler(m, front[k]).None? {
      assert all[..k] == front[..k] && all[k] == front[k];
    }
    if m :| Reaches(handler, model, front, m) && handler(m, e).None? {
      assert all[..|front|] == front && all[|front|] == e;
    }
  }

  lemma ReachesBoth<M(!new)>(handler: (M, Row) -> Option<M>, model: M, a: seq<Row>, m: M, b: seq<Row>, m': M)
    requires Reaches(handler, model, a, m) && Reaches(handler, m, b, m')
    ensures Reaches(handler, model, a + b, m')
  {
    FoldRuns(handler, model, a);
    FoldRuns(handler, m, b);
    FoldRuns(handler, model, a + b);
    FoldAppend(handler, model, a, b);
    hide Fold, Reaches, Refuses;
  }

  lemma ReachesNothing<M(!new)>(handler: (M, Row) -> Option<M>, model: M, m: M)
    ensures Reaches(handler, model, [], m) <==> m == model
  {
    FoldRuns(handler, model, []);
    hide Reaches, Refuses;
  }

  /** There is at most one model it can reach. */
  lemma ReachesOne<M(!new)>(handler: (M, Row) -> Option<M>, model: M, events: seq<Row>, m: M, m': M)
    requires Reaches(handler, model, events, m) && Reaches(handler, model, events, m')
    ensures m == m'
  {
    FoldRuns(handler, model, events);
    hide Reaches, Refuses;
  }

  /** What was reached went through every event on the way. */
  lemma ReachesThrough<M(!new)>(handler: (M, Row) -> Option<M>, model: M, events: seq<Row>, m: M, k: nat)
    requires Reaches(handler, model, events, m) && k < |events|
    ensures exists b :: Reaches(handler, model, events[..k], b) && handler(b, events[k]).Some?
  {
    var ms :| Trace(handler, ms, events) && ms[0] == model && ms[|ms| - 1] == m;
    assert Trace(handler, ms[..k + 1], events[..k]) && ms[..k + 1][k] == ms[k];
    assert handler(ms[k], events[k]) == Some(ms[k + 1]);
    assert Reaches(handler, model, events[..k], ms[k]);
  }

  lemma FoldNothing<M(!new)>(handler: (M, Row) -> Option<M>, model: M)
    ensures Fold(handler, model, []) == Some(model)
  {
  }

  lemma FoldNext<M(!new)>(handler: (M, Row) -> Option<M>, model: M, events: seq<Row>, i: nat)
    requires i < |events|
    ensures Fold(handler, model, events[..i + 1]) ==
      match Fold(handler, model, events[..i]) case None => None case Some(m) => handler(m, events[i])
    ensures Fold(handler, model, events[..i + 1]).None? ==> Fold(handler, model, events).None?
  {
    assert events[..i + 1][..i] == events[..i];
    FoldPrefix(handler, model, events, i + 1);
  }

  // ---- one tick ----

  /** The rows a projection owns: its checkpoint and its read model. */
  class Projection<M(!new)> {
    var checkpoint: int
    var model: M

    constructor (init: M)
      ensures checkpoint == 0 && model == init
    {
      checkpoint, model := 0, init;
    }

    /** `tick` over the rows visible to its transaction: the handler takes every event of
        the page and the checkpoint moves to the last of them, or, if it refuses one or a
        storage `fault` comes at one, everything is rolled back. */
    method Tick(rows: seq<Row>, handler: (M, Row) -> Option<M>, batch: nat, fault: Option<nat>) returns (n: Option<nat>)
      requires batch >= 1
      modifies this
      ensures n.Some? ==>
        var events := Page(rows, old(checkpoint), batch);
        && n.value == |events|
        && Reaches(handler, old(model), events, model)
        && checkpoint == if events == [] then old(checkpoint) else events[|events| - 1].position
      ensures n.None? ==> checkpoint == old(checkpoint) && model == old(model)
      ensures n.None? <==>
        var events := Page(rows, old(checkpoint), batch);
        Refuses(handler, old(model), events) || (fault.Some? && fault.value < |events|)
    {
      var events := Page(rows, checkpoint, batch);
      var saved := model;
      FoldRuns(handler, saved, events);
      hide Fold, Reaches, Refuses, Page;
      FoldNothing(handler, saved);
      var i := 0;
      while i < |events|
        invariant 0 <= i <= |events|
        invariant checkpoint == old(checkpoint) && saved == old(model)
        invariant Fold(handler, saved, events[..i]) == Some(model) && (fault.Some? ==> i <= fault.value)
      {
        FoldNext(handler, saved, events, i);
        var next := handler(model, events[i]);
        if next.None? || fault == Some(i) {
          model := saved;
          return None;
        }
        model := next.value;
        i := i + 1;
      }
      assert events[..|events|] == events;
      if events != [] {
        checkpoint := events[|events| - 1].position;
      }
      n := Some(|events|);
    }
  }

  /** A refused event refuses everything after it. */
  lemma {:induction false} FoldPrefix<M(!new)>(handler: (M, Row) -> Option<M>, model: M, events: seq<Row>, k: nat)
    requires k <= |events|
    ensures Fold(handler, model, events[..k]).None? ==> Fold(handler, model, events).None?
  {
    assert events == events[..k] + events[k..];
    FoldAppend(handler, model, events[..k], events[k..]);
  }

  // ---- projections over the interleaved log ----

  /** One worker of the projection: idle, or inside a tick whose claim of the
      checkpoint row has succeeded, before or after reading its page. */
  datatype Worker = Idle | Claimed(position: int) | Handling(position: int, page: seq<Row>)

  /** The log being appended to by any number of calls, one projection's rows, and its workers. */
  datatype System<M> = System(log: EventLog.Log, checkpoint: int, model: M, workers: seq<Worker>)

  ghost predicate RowLocked(workers: seq<Worker>) {
    exists w :: 0 <= w < |workers| && !workers[w].Idle?
  }

  /** The UPDATE of the checkpoint row waits while another tick holds it. */
  ghost predicate Claim<M(!new)>(s: System<M>, s': System<M>, w: nat) {
    w < |s.workers| && !RowLocked(s.workers) && s' == s.(workers := s.workers[w := Claimed(s.checkpoint)])
  }

  ghost predicate Read<M(!new)>(s: System<M>, s': System<M>, w: nat, batch: nat) {
    && w < |s.workers| && s.workers[w].Claimed?
    && s' == s.(workers := s.workers[w :=
      Handling(s.workers[w].position, Page(s.log.rows, s.workers[w].position, batch))])
  }

  /** The handler accepted the whole page: read model and checkpoint move together. */
  ghost predicate Finish<M(!new)>(handler: (M, Row) -> Option<M>, s: System<M>, s': System<M>, w: nat) {
    && w < |s.workers| && s.workers[w].Handling?
    && var page := s.workers[w].page;
       && Reaches(handler, s.model, page, s'.model)
       && s' == s.(workers := s.workers[w := Idle], model := s'.model,
                   checkpoint := if page == [] then s.checkpoint else page[|page| - 1].position)
  }

  /** A handler error, a crash or a lost connection at any point: rolled back. */
  ghost predicate Abort<M(!new)>(s: System<M>, s': System<M>, w: nat) {
    w < |s.workers| && !s.workers[w].Idle? && s' == s.(workers := s.workers[w := Idle])
  }

  ghost predicate Append<M(!new)>(calls: seq<EventLog.Call>, s: System<M>, s': System<M>) {
    EventLog.Step(calls, s.log, s'.log) && s' == s.(log := s'.log)
  }

  /** `reset`: the checkpoint goes back to the start, once no tick holds its row. */
  ghost predicate Reset<M(!new)>(s: System<M>, s': System<M>) {
    !RowLocked(s.workers) && s' == s.(checkpoint := 0)
  }

  /** The owner of the read model empties it. */
  ghost predicate Clear<M(!new)>(init: M, s: System<M>, s': System<M>) {
    s' == s.(model := init)
  }

  /** Appends, ticks and their failures. */
  ghost predicate Advance<M(!new)>(calls: seq<EventLog.Call>, handler: (M, Row) -> Option<M>, batch: nat, s: System<M>,
                             s': System<M>) {
    || Append(calls, s, s')
    || exists w: nat :: Claim(s, s', w) || Read(s, s', w, batch) || Finish(handler, s, s', w) || Abort(s, s', w)
  }

  ghost predicate Next<M(!new)>(calls: seq<EventLog.Call>, handler: (M, Row) -> Option<M>, init: M, batch: nat,
                          s: System<M>, s': System<M>) {
    Advance(calls, handler, batch, s, s') || Clear(init, s, s') || Reset(s, s')
  }

  /** The read model is what the handler reaches over exactly the events up to the checkpoint. */
  ghost predicate Exact<M(!new)>(handler: (M, Row) -> Option<M>, init: M, rows: seq<Row>, checkpoint: int, model: M) {
    0 <= checkpoint <= |rows| && Reaches(handler, init, rows[..checkpoint], model)
  }

  ghost predicate WorkerOk(rows: seq<Row>, checkpoint: int, w: Worker) {
    match w
    case Idle => true
    case Claimed(position) => position == checkpoint
    case Handling(position, page) =>
      position == checkpoint && 0 <= checkpoint && checkpoint + |page| <= |rows|
        && page == rows[checkpoint..checkpoint + |page|]
  }

  /** Whatever the read model holds: one tick at a time, working on the page it claimed. */
  ghost predicate Sound<M(!new)>(calls: seq<EventLog.Call>, s: System<M>) {
    && EventLog.Inv(calls, s.log)
    && 0 <= s.checkpoint <= |s.log.rows|
    && (forall w :: 0 <= w < |s.workers| ==> WorkerOk(s.log.rows, s.checkpoint, s.workers[w]))
    && (forall v, w :: 0 <= v < w < |s.workers| ==> s.workers[v].Idle? || s.workers[w].Idle?)
  }

  ghost predicate Exactly<M(!new)>(handler: (M, Row) -> Option<M>, init: M, s: System<M>) {
    Exact(handler, init, s.log.rows, s.checkpoint, s.model)
  }

  lemma LastOfSlice(rows: seq<Row>, from: nat, page: seq<Row>)
    requires GapFree(rows) && from + |page| <= |rows| && page == rows[from..from + |page|]
    ensures page != [] ==> page[|page| - 1].position == from + |page|
  {
    if page != [] {
      assert page[|page| - 1] == rows[from + |page| - 1];
    }
  }

  lemma FinishExact<M(!new)>(handler: (M, Row) -> Option<M>, init: M, rows: seq<Row>, checkpoint: int, model: M,
                             page: seq<Row>, model': M)
    requires GapFree(rows) && Exact(handler, init, rows, checkpoint, model)
    requires checkpoint + |page| <= |rows| && page == rows[checkpoint..checkpoint + |page|]
    requires Reaches(handler, model, page, model')
    ensures Exact(handler, init, rows, checkpoint + |page|, model')
    ensures page != [] ==> page[|page| - 1].position == checkpoint + |page|
  {
    hide Reaches;
    LastOfSlice(rows, checkpoint, page);
    hide GapFree;
    CutTogether(rows, checkpoint, page);
    ReachesBoth(handler, init, rows[..checkpoint], model, page, model');
  }

  lemma CutTogether<T>(rows: seq<T>, from: nat, page: seq<T>)
    requires from + |page| <= |rows| && page == rows[from..from + |page|]
    ensures rows[..from + |page|] == rows[..from] + page
  {
  }

  lemma LogGrows<M(!new)>(handler: (M, Row) -> Option<M>, init: M, rows: seq<Row>, rows': seq<Row>, checkpoint: int,
                   model: M)
    requires rows <= rows' && Exact(handler, init, rows, checkpoint, model)
    ensures Exact(handler, init, rows', checkpoint, model)
  {
    assert rows'[..checkpoint] == rows[..checkpoint];
  }

  lemma PageStays(rows: seq<Row>, rows': seq<Row>, checkpoint: int, w: Worker)
    requires rows <= rows' && WorkerOk(rows, checkpoint, w)
    ensures WorkerOk(rows', checkpoint, w)
  {
    if w.Handling? {
      assert rows'[checkpoint..checkpoint + |w.page|] == rows[checkpoint..checkpoint + |w.page|];
    }
  }

  lemma AppendSound<M(!new)>(calls: seq<EventLog.Call>, s: System<M>, s': System<M>)
    requires Sound(calls, s) && Append(calls, s, s')
    ensures Sound(calls, s') && s.log.rows <= s'.log.rows
  {
    hide EventLog.Inv, EventLog.Step;
    EventLog.StepInv(calls, s.log, s'.log);
    forall w | 0 <= w < |s.workers|
      ensures WorkerOk(s'.log.rows, s.checkpoint, s.workers[w])
    {
      PageStays(s.log.rows, s'.log.rows, s.checkpoint, s.workers[w]);
    }
  }

  /** The others are idle, so the worker that ends leaves every worker idle. */
  lemma AllIdleAfter(workers: seq<Worker>, after: seq<Worker>, w: nat)
    requires w < |workers| && !workers[w].Idle? && after == workers[w := Idle]
    requires forall v, u :: 0 <= v < u < |workers| ==> workers[v].Idle? || workers[u].Idle?
    ensures forall v :: 0 <= v < |after| ==> after[v] == Idle
  {
    forall v | 0 <= v < |after|
      ensures after[v] == Idle
    {
      assert v != w ==> workers[v].Idle?;
    }
  }

  lemma IdleSound<M(!new)>(calls: seq<EventLog.Call>, s: System<M>)
    requires EventLog.Inv(calls, s.log) && 0 <= s.checkpoint <= |s.log.rows|
    requires forall v :: 0 <= v < |s.workers| ==> s.workers[v] == Idle
    ensures Sound(calls, s)
  {
    hide EventLog.Inv;
  }

  lemma FinishSound<M(!new)>(calls: seq<EventLog.Call>, handler: (M, Row) -> Option<M>, s: System<M>, s': System<M>,
                             w: nat)
    requires Sound(calls, s) && Finish(handler, s, s', w)
    ensures Sound(calls, s') && s'.checkpoint == s.checkpoint + |s.workers[w].page|
    ensures s.workers[w].page == [] ==> s'.model == s.model
  {
    hide *;
    FinishIs(handler, s, s', w);
    var page := s.workers[w].page;
    SoundLog(calls, s);
    OneAtATime(calls, s);
    PageClaimed(calls, s, w);
    ReachesNothing(handler, s.model, s'.model);
    LogGapFree(calls, s.log);
    LastOfSlice(s.log.rows, s.checkpoint, page);
    AllIdleAfter(s.workers, s'.workers, w);
    IdleSound(calls, s');
  }

  lemma FinishIs<M(!new)>(handler: (M, Row) -> Option<M>, s: System<M>, s': System<M>, w: nat)
    requires Finish(handler, s, s', w)
    ensures w < |s.workers| && s.workers[w].Handling?
    ensures s'.workers == s.workers[w := Idle] && s'.log == s.log
    ensures Reaches(handler, s.model, s.workers[w].page, s'.model)
    ensures var page := s.workers[w].page;
      s'.checkpoint == if page == [] then s.checkpoint else page[|page| - 1].position
  {
    hide Reaches;
  }

  lemma OneAtATime<M(!new)>(calls: seq<EventLog.Call>, s: System<M>)
    requires Sound(calls, s)
    ensures forall v, u :: 0 <= v < u < |s.workers| ==> s.workers[v].Idle? || s.workers[u].Idle?
    ensures 0 <= s.checkpoint <= |s.log.rows|
  {
    hide EventLog.Inv, WorkerOk;
  }

  lemma SoundLog<M(!new)>(calls: seq<EventLog.Call>, s: System<M>)
    requires Sound(calls, s)
    ensures EventLog.Inv(calls, s.log)
  {
  }

  lemma PageClaimed<M(!new)>(calls: seq<EventLog.Call>, s: System<M>, w: nat)
    requires Sound(calls, s) && w < |s.workers| && s.workers[w].Handling?
    ensures var page := s.workers[w].page;
      0 <= s.checkpoint && s.checkpoint + |page| <= |s.log.rows|
        && page == s.log.rows[s.checkpoint..s.checkpoint + |page|]
  {
    hide EventLog.Inv;
    assert WorkerOk(s.log.rows, s.checkpoint, s.workers[w]);
  }

  lemma FinishExactly<M(!new)>(calls: seq<EventLog.Call>, handler: (M, Row) -> Option<M>, init: M, s: System<M>,
                         s': System<M>, w: nat)
    requires Sound(calls, s) && Finish(handler, s, s', w) && Exactly(handler, init, s)
    ensures Exactly(handler, init, s')
  {
    hide EventLog.Inv, GapFree, Reaches, Exact, Sound;
    assert EventLog.Inv(calls, s.log) by { SoundLog(calls, s); }
    LogGapFree(calls, s.log);
    PageClaimed(calls, s, w);
    FinishSound(calls, handler, s, s', w);
    var page := s.workers[w].page;
    assert s'.log == s.log && Reaches(handler, s.model, page, s'.model);
    hide Finish;
    FinishExact(handler, init, s.log.rows, s.checkpoint, s.model, page, s'.model);
  }

  lemma ReadSound<M(!new)>(calls: seq<EventLog.Call>, batch: nat, s: System<M>, s': System<M>, w: nat)
    requires Sound(calls, s) && Read(s, s', w, batch)
    ensures Sound(calls, s')
  {
    LogGapFree(calls, s.log);
    assert WorkerOk(s.log.rows, s.checkpoint, s.workers[w]);
    hide EventLog.Inv, GapFree;
    PageOfLog(s.log.rows, s.checkpoint, batch);
  }

  /** An append or a step of a tick keeps the model exact, and never moves back; if it
      leaves the checkpoint where it was, it leaves the model too. */
  lemma AdvanceExact<M(!new)>(calls: seq<EventLog.Call>, handler: (M, Row) -> Option<M>, init: M, batch: nat,
                       s: System<M>,
                        s': System<M>)
    requires Sound(calls, s) && Advance(calls, handler, batch, s, s')
    ensures Sound(calls, s') && s.checkpoint <= s'.checkpoint
    ensures Exactly(handler, init, s) ==> Exactly(handler, init, s')
    ensures s'.checkpoint == s.checkpoint ==> s'.model == s.model
  {
    hide EventLog.Inv, EventLog.Step, Exact, Page, GapFree;
    if Append(calls, s, s') {
      AppendSound(calls, s, s');
      if Exactly(handler, init, s) {
        LogGrows(handler, init, s.log.rows, s'.log.rows, s.checkpoint, s.model);
      }
    } else {
      var w: nat :| Claim(s, s', w) || Read(s, s', w, batch) || Finish(handler, s, s', w) || Abort(s, s', w);
      if Finish(handler, s, s', w) {
        FinishSound(calls, handler, s, s', w);
        if Exactly(handler, init, s) {
          FinishExactly(calls, handler, init, s, s', w);
        }
      } else if Read(s, s', w, batch) {
        ReadSound(calls, batch, s, s', w);
      }
    }
  }

  /** A reset, which moves the checkpoint alone, leaves the projection exact if and only if
      the read model is empty at that moment; clearing it only is exact if and only if the
      events so far left it empty. */
  lemma ResetExactIff<M(!new)>(calls: seq<EventLog.Call>, handler: (M, Row) -> Option<M>, init: M, s: System<M>,
                         s': System<M>)
    requires Sound(calls, s)
    ensures Reset(s, s') ==> Sound(calls, s') && (Exactly(handler, init, s') <==> s.model == init)
    ensures Clear(init, s, s') ==>
      Sound(calls, s') && (Exactly(handler, init, s') <==>
        Reaches(handler, init, s.log.rows[..s.checkpoint], init))
  {
    assert s.log.rows[..0] == [];
    hide EventLog.Inv, Reaches;
    ReachesNothing(handler, init, s.model);
    if Reset(s, s') {
      assert forall w :: 0 <= w < |s.workers| ==> s.workers[w].Idle?;
    }
  }

  lemma LogGapFree(calls: seq<EventLog.Call>, log: EventLog.Log)
    requires EventLog.Inv(calls, log)
    ensures GapFree(log.rows)
  {
  }

  ghost predicate Run<M(!new)>(calls: seq<EventLog.Call>, handler: (M, Row) -> Option<M>, init: M, batch: nat,
                         run: seq<System<M>>) {
    && run != [] && EventLog.Init(calls, run[0].log) && run[0].checkpoint == 0 && run[0].model == init
    && (forall w :: 0 <= w < |run[0].workers| ==> run[0].workers[w].Idle?)
    && forall i :: 0 <= i < |run| - 1 ==> Next(calls, handler, init, batch, run[i], run[i + 1])
  }

  lemma {:induction false} SoundRuns<M(!new)>(calls: seq<EventLog.Call>, handler: (M, Row) -> Option<M>, init: M,
                                       batch: nat,
                                        run: seq<System<M>>, k: nat)
    requires Run(calls, handler, init, batch, run) && k < |run|
    ensures Sound(calls, run[k])
    decreases k
  {
    if k == 0 {
      EventLog.InitInv(calls, run[0].log);
    } else {
      SoundRuns(calls, handler, init, batch, run, k - 1);
      var s, s' := run[k - 1], run[k - 1 + 1];
      assert Next(calls, handler, init, batch, s, s');
      hide Run, Sound, Advance, Exactly, Clear, Reset;
      ResetExactIff(calls, handler, init, s, s');
      if Advance(calls, handler, batch, s, s') {
        AdvanceExact(calls, handler, init, batch, s, s');
      }
    }
  }

  lemma StartExactly<M(!new)>(calls: seq<EventLog.Call>, handler: (M, Row) -> Option<M>, init: M, batch: nat,
                        run: seq<System<M>>)
    requires Run(calls, handler, init, batch, run)
    ensures Exactly(handler, init, run[0])
  {
    hide Next, EventLog.Init;
    assert run[0].log.rows[..0] == [];
    hide Reaches;
    ReachesNothing(handler, init, init);
  }

  /** Only appends and ticks between the two points. */
  ghost predicate Advancing<M(!new)>(calls: seq<EventLog.Call>, handler: (M, Row) -> Option<M>, batch: nat,
                               run: seq<System<M>>, j: nat, k: nat)
    requires j <= k < |run|
  {
    forall i :: j <= i < k ==> Advance(calls, handler, batch, run[i], run[i + 1])
  }

  lemma LastAdvance<M(!new)>(calls: seq<EventLog.Call>, handler: (M, Row) -> Option<M>, batch: nat, run: seq<System<M>>,
                       j: nat, k: nat)
    requires j < k < |run| && Advancing(calls, handler, batch, run, j, k)
    ensures Advancing(calls, handler, batch, run, j, k - 1) && Advance(calls, handler, batch, run[k - 1], run[k])
  {
    hide Advance;
    assert Advance(calls, handler, batch, run[k - 1], run[k - 1 + 1]);
  }

  /** From the start, or from a reset of an emptied model, on: only appends and ticks. */
  ghost predicate Since<M(!new)>(calls: seq<EventLog.Call>, handler: (M, Row) -> Option<M>, init: M, batch: nat,
                           run: seq<System<M>>, j: nat, k: nat)
    requires j <= k < |run|
  {
    && (j == 0 || (Reset(run[j - 1], run[j]) && run[j - 1].model == init))
    && Advancing(calls, handler, batch, run, j, k)
  }

  /** Never skip, exactly once: in every run of appends, ticks, failures, competing workers
      and rebuilds, from the start or the last rebuild on, the read model is the fold over
      exactly the first `checkpoint` events. */
  lemma {:induction false} ExactlyOnce<M(!new)>(calls: seq<EventLog.Call>, handler: (M, Row) -> Option<M>, init: M,
                                          batch: nat, run: seq<System<M>>, j: nat, k: nat)
    requires Run(calls, handler, init, batch, run) && j <= k < |run| && Since(calls, handler, init, batch, run, j, k)
    ensures Sound(calls, run[k]) && Exactly(handler, init, run[k])
    decreases k
  {
    hide Run, Advance, Advancing, Sound, Exactly, Reset;
    SoundRuns(calls, handler, init, batch, run, k);
    if k == 0 {
      StartExactly(calls, handler, init, batch, run);
    } else if k == j {
      SoundRuns(calls, handler, init, batch, run, k - 1);
      ResetExactIff(calls, handler, init, run[k - 1], run[k]);
    } else {
      LastAdvance(calls, handler, batch, run, j, k);
      ExactlyOnce(calls, handler, init, batch, run, j, k - 1);
      hide Since;
      AdvanceExact(calls, handler, init, batch, run[k - 1], run[k]);
    }
  }

  /** The rebuild switch: the model emptied at `i`, reset at `j`, any appends and unfinished
      or empty ticks between. From there on the projection is exact again, whatever it held
      before; a page finished in between moves the checkpoint, and only then can it fail. */
  lemma {:induction false} RebuildExact<M(!new)>(calls: seq<EventLog.Call>, handler: (M, Row) -> Option<M>, init: M,
                                           batch: nat, run: seq<System<M>>, i: nat, j: nat)
    requires Run(calls, handler, init, batch, run) && i < j < |run| - 1
    requires Clear(init, run[i], run[i + 1]) && Reset(run[j], run[j + 1])
    requires Advancing(calls, handler, batch, run, i + 1, j)
    requires run[j].checkpoint == run[i + 1].checkpoint
    ensures Exactly(handler, init, run[j + 1])
  {
    ModelStays(calls, handler, init, batch, run, i + 1, j);
    SoundRuns(calls, handler, init, batch, run, j);
    hide Run, Advancing, Sound, Exactly, Reset;
    ResetExactIff(calls, handler, init, run[j], run[j + 1]);
  }

  lemma {:induction false} ModelStays<M(!new)>(calls: seq<EventLog.Call>, handler: (M, Row) -> Option<M>, init: M,
                                        batch: nat,
                                         run: seq<System<M>>, i: nat, j: nat)
    requires Run(calls, handler, init, batch, run) && i <= j < |run|
    requires Advancing(calls, handler, batch, run, i, j)
    ensures run[i].checkpoint <= run[j].checkpoint
    ensures run[j].checkpoint == run[i].checkpoint ==> run[j].model == run[i].model
    decreases j
  {
    if j > i {
      hide Run, Advance, Advancing, Sound, Exactly;
      LastAdvance(calls, handler, batch, run, i, j);
      ModelStays(calls, handler, init, batch, run, i, j - 1);
      SoundRuns(calls, handler, init, batch, run, j - 1);
      AdvanceExact(calls, handler, init, batch, run[j - 1], run[j]);
    }
  }

  /** Caught-up read models do not depend on batch size, schedule, failures or rebuilds. */
  lemma CaughtUpAgrees<M(!new)>(calls: seq<EventLog.Call>, handler: (M, Row) -> Option<M>, init: M, b1: nat, b2: nat,
                               run1: seq<System<M>>, run2: seq<System<M>>, j1: nat, k1: nat, j2: nat, k2: nat)
    requires Run(calls, handler, init, b1, run1) && j1 <= k1 < |run1| && Since(calls, handler, init, b1, run1, j1, k1)
    requires Run(calls, handler, init, b2, run2) && j2 <= k2 < |run2| && Since(calls, handler, init, b2, run2, j2, k2)
    requires run1[k1].log.rows == run2[k2].log.rows
    requires run1[k1].checkpoint == |run1[k1].log.rows| && run2[k2].checkpoint == |run2[k2].log.rows|
    ensures run1[k1].model == run2[k2].model
    ensures Reaches(handler, init, run1[k1].log.rows, run1[k1].model)
  {
    ExactlyOnce(calls, handler, init, b1, run1, j1, k1);
    ExactlyOnce(calls, handler, init, b2, run2, j2, k2);
    hide Run, Since, Sound;
    assert run1[k1].log.rows[..|run1[k1].log.rows|] == run1[k1].log.rows;
    hide Reaches;
    ReachesOne(handler, init, run1[k1].log.rows, run1[k1].model, run2[k2].model);
  }

  /** A projection cannot pass an event its handler refuses. */
  lemma PoisonedEventHalts<M(!new)>(calls: seq<EventLog.Call>, handler: (M, Row) -> Option<M>, init: M, batch: nat,
                              run: seq<System<M>>, j: nat, k: nat, bad: nat)
    requires Run(calls, handler, init, batch, run) && j <= k < |run| && Since(calls, handler, init, batch, run, j, k)
    requires bad < |run[k].log.rows|
    requires forall m :: Reaches(handler, init, run[k].log.rows[..bad], m) ==> handler(m, run[k].log.rows[bad]).None?
    ensures run[k].checkpoint <= bad
  {
    ExactlyOnce(calls, handler, init, batch, run, j, k);
    hide Run, Since, Sound, Reaches;
    var s := run[k];
    if s.checkpoint > bad {
      var events := s.log.rows[..s.checkpoint];
      assert events[..bad] == s.log.rows[..bad] && events[bad] == s.log.rows[bad];
      ReachesThrough(handler, init, events, s.model, bad);
    }
  }

  /** Ticking until nothing is processed catches up, unless the handler refuses an event. */
  method Drain<M(!new)>(p: Projection<M>, rows: seq<Row>, handler: (M, Row) -> Option<M>, batch: nat, ghost init: M)
    returns (caughtUp: bool)
    requires batch >= 1 && GapFree(rows) && Exact(handler, init, rows, p.checkpoint, p.model)
    modifies p
    ensures Exact(handler, init, rows, p.checkpoint, p.model)
    ensures caughtUp ==> p.checkpoint == |rows| && Reaches(handler, init, rows, p.model)
    ensures !caughtUp ==> Refuses(handler, init, rows)
  {
    hide Reaches, Refuses, Page, GapFree;
    while true
      invariant Exact(handler, init, rows, p.checkpoint, p.model)
      decreases |rows| - p.checkpoint
    {
      ghost var from, before := p.checkpoint, p.model;
      PageOfLog(rows, from, batch);
      ghost var page := Page(rows, from, batch);
      var n := p.Tick(rows, handler, batch, None);
      if n.None? {
        RefusedPage(handler, init, rows, from, before, page);
        return false;
      }
      FinishExact(handler, init, rows, from, before, page, p.model);
      if n.value == 0 {
        assert rows[..|rows|] == rows;
        return true;
      }
    }
  }

  lemma RefusedPage<M(!new)>(handler: (M, Row) -> Option<M>, init: M, rows: seq<Row>, checkpoint: int, model: M,
                       page: seq<Row>)
    requires Exact(handler, init, rows, checkpoint, model)
    requires checkpoint + |page| <= |rows| && page == rows[checkpoint..checkpoint + |page|]
    requires Refuses(handler, model, page)
    ensures Refuses(handler, init, rows)
  {
    hide Reaches;
    var k, m :| 0 <= k < |page| && Reaches(handler, model, page[..k], m) && handler(m, page[k]).None?;
    CutTogether(rows, checkpoint, page[..k]);
    assert page[..k] == rows[checkpoint..checkpoint + k] && page[k] == rows[checkpoint + k];
    ReachesBoth(handler, init, rows[..checkpoint], model, page[..k], m);
  }
}
