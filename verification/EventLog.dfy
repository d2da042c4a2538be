/** Any number of `append` calls, each a loop of transactions, interleaved step by
    step over one table. No lock is assumed: only the two uniqueness constraints. */
module EventLog {
  import opened EventStore

  /** One call of `EventStore::append`. */
  datatype Call = Call(stream: string, expected: Expected, events: seq<NewEvent>)

  /** Where a call stands. `at` of a finished non-empty append is the log index its
      commit wrote to. */
  datatype Phase =
    | Start(attempt: nat)
    | ReadVersion(attempt: nat, current: int)
    | Staged(attempt: nat, current: int, head: int)
    | Done(outcome: Outcome, at: nat)

  /** One committed, non-empty append. */
  datatype Commit = Commit(caller: nat, at: nat)

  datatype Log = Log(rows: seq<Row>, phases: seq<Phase>, commits: seq<Commit>)

  ghost predicate Init(calls: seq<Call>, s: Log) {
    s.rows == [] && s.commits == [] && |s.phases| == |calls| && forall p :: 0 <= p < |calls| ==> s.phases[p] == Start(0)
  }

  /** `stream_version`, the expectation check and the early return of `append_tx`. */
  ghost predicate CheckVersion(calls: seq<Call>, s: Log, s': Log, p: nat) {
    && |s.phases| == |calls| && p < |calls| && s.phases[p].Start?
    && var c, current := calls[p], StreamVersion(s.rows, calls[p].stream);
       s' == s.(phases := s.phases[p :=
         if !c.expected.Matches(current) then Done(Conflict(current), 0)
         else if c.events == [] then Done(Appended(current), 0)
         else ReadVersion(s.phases[p].attempt, current)])
  }

  ghost predicate ReadHead(calls: seq<Call>, s: Log, s': Log, p: nat) {
    && |s.phases| == |calls| && p < |calls| && s.phases[p].ReadVersion?
    && s' == s.(phases := s.phases[p := Staged(s.phases[p].attempt, s.phases[p].current, HeadPosition(s.rows))])
  }

  /** Insert and commit: all rows or, on a unique violation, none and a retry. */
  ghost predicate TryCommit(calls: seq<Call>, s: Log, s': Log, p: nat) {
    && |s.phases| == |calls| && p < |calls| && s.phases[p].Staged?
    && var c, ph := calls[p], s.phases[p];
       var added := NewRows(c.stream, ph.current, ph.head, c.events);
       s' == if Admits(s.rows, added) then
               Log(s.rows + added, s.phases[p := Done(Appended(ph.current + |c.events|), |s.rows|)],
                   s.commits + [Commit(p, |s.rows|)])
             else
               s.(phases := s.phases[p :=
                 if ph.attempt + 1 < MAX_APPEND_RETRIES then Start(ph.attempt + 1) else Done(StoreError, 0)])
  }

  /** Any other store error rolls the transaction back and ends the call. */
  ghost predicate Fail(calls: seq<Call>, s: Log, s': Log, p: nat) {
    && |s.phases| == |calls| && p < |calls| && !s.phases[p].Done?
    && s' == s.(phases := s.phases[p := Done(StoreError, 0)])
  }

  ghost predicate StepBy(calls: seq<Call>, s: Log, s': Log, p: nat) {
    CheckVersion(calls, s, s', p) || ReadHead(calls, s, s', p) || TryCommit(calls, s, s', p) || Fail(calls, s, s', p)
  }

  ghost predicate Step(calls: seq<Call>, s: Log, s': Log) {
    exists p: nat :: StepBy(calls, s, s', p)
  }

  // ---- what holds in every reachable state ----

  /** What a call's phase promises about the log. */
  ghost predicate PhaseOk(c: Call, rows: seq<Row>, ph: Phase) {
    match ph
    case Start(attempt) => attempt < MAX_APPEND_RETRIES
    case ReadVersion(attempt, current) =>
      attempt < MAX_APPEND_RETRIES && c.events != [] && c.expected.Matches(current)
        && 0 <= current <= Count(rows, c.stream)
    case Staged(attempt, current, head) =>
      attempt < MAX_APPEND_RETRIES && c.events != [] && c.expected.Matches(current)
      && 0 <= current <= Count(rows, c.stream) && 0 <= head <= |rows|
    case Done(Appended(v), at) => c.events != [] ==> WroteAt(c, rows, v, at)
    case Done(_, _) => true
  }

  /** The call's events are at `at..`, directly after version `v - n` of their stream,
      which the expectation accepted: nothing of that stream is in between. */
  ghost predicate WroteAt(c: Call, rows: seq<Row>, v: int, at: nat) {
    && at + |c.events| <= |rows|
    && var before := v - |c.events|;
       && c.expected.Matches(before)
       && Count(rows[..at], c.stream) == before
       && rows[at..at + |c.events|] == NewRows(c.stream, before, at, c.events)
  }

  /** The log is the concatenation of the commits, in commit order. */
  ghost predicate Tiled(calls: seq<Call>, commits: seq<Commit>, len: nat)
    decreases |commits|
  {
    if commits == [] then len == 0
    else
      var k := commits[|commits| - 1];
      && k.caller < |calls| && k.at + |calls[k.caller].events| == len && Tiled(calls, commits[..|commits| - 1], k.at)
  }

  /** A call has a commit exactly when it returned Ok for a non-empty append, and then one. */
  ghost predicate OncePerOk(calls: seq<Call>, s: Log) {
    && |s.phases| == |calls|
    && (forall i, j :: 0 <= i < j < |s.commits| ==> s.commits[i].caller != s.commits[j].caller)
    && (forall i :: 0 <= i < |s.commits| ==>
          var k := s.commits[i];
          k.caller < |calls| && calls[k.caller].events != []
          && s.phases[k.caller].Done? && s.phases[k.caller].outcome.Appended? && s.phases[k.caller].at == k.at)
    && (forall p :: 0 <= p < |calls| && calls[p].events != [] && s.phases[p].Done? && s.phases[p].outcome.Appended? ==>
          Commit(p, s.phases[p].at) in s.commits)
  }

  ghost predicate Inv(calls: seq<Call>, s: Log) {
    && GapFree(s.rows)
    && Tiled(calls, s.commits, |s.rows|)
    && OncePerOk(calls, s)
    && forall p :: 0 <= p < |calls| ==> PhaseOk(calls[p], s.rows, s.phases[p])
  }

  lemma InitInv(calls: seq<Call>, s: Log)
    requires Init(calls, s)
    ensures Inv(calls, s)
  {
  }

  /** Rows are only ever added behind the committed ones. */
  lemma Stable(c: Call, rows: seq<Row>, added: seq<Row>, ph: Phase)
    requires PhaseOk(c, rows, ph)
    ensures PhaseOk(c, rows + added, ph)
  {
    assert (rows + added)[..|rows|] == rows;
    CountGrows(rows + added, |rows|, c.stream);
    match ph
    case Done(Appended(v), at) =>
      if c.events != [] {
        assert (rows + added)[..at] == rows[..at];
        assert (rows + added)[at..at + |c.events|] == rows[at..at + |c.events|];
      }
    case _ =>
  }

  /** The committing call had no commit before; now it has exactly this one. */
  lemma CommitRecorded(calls: seq<Call>, s: Log, s': Log, p: nat, v: int)
    requires OncePerOk(calls, s) && p < |calls| && !s.phases[p].Done? && calls[p].events != []
    requires s'.phases == s.phases[p := Done(Appended(v), |s.rows|)]
    requires s'.commits == s.commits + [Commit(p, |s.rows|)]
    ensures OncePerOk(calls, s')
  {
    var k := |s.commits|;
    assert s'.commits[k] == Commit(p, |s.rows|);
    assert forall i :: 0 <= i < k ==> s'.commits[i] == s.commits[i] && s.commits[i].caller != p;
  }

  lemma PhasesAfterCommit(calls: seq<Call>, s: Log, added: seq<Row>, p: nat, ph: Phase)
    requires |s.phases| == |calls| && p < |calls|
    requires forall q :: 0 <= q < |calls| ==> PhaseOk(calls[q], s.rows, s.phases[q])
    requires PhaseOk(calls[p], s.rows + added, ph)
    ensures forall q :: 0 <= q < |calls| ==> PhaseOk(calls[q], s.rows + added, s.phases[p := ph][q])
  {
    forall q | 0 <= q < |calls|
      ensures PhaseOk(calls[q], s.rows + added, s.phases[p := ph][q])
    {
      if q != p { Stable(calls[q], s.rows, added, s.phases[q]); }
    }
  }

  lemma CommitStep(calls: seq<Call>, s: Log, s': Log, p: nat)
    requires Inv(calls, s) && TryCommit(calls, s, s', p)
    requires Admits(s.rows, NewRows(calls[p].stream, s.phases[p].current, s.phases[p].head, calls[p].events))
    ensures Inv(calls, s')
  {
    hide OncePerOk, GapFree, Count;
    var c, ph := calls[p], s.phases[p];
    assert |s.phases| == |calls| && PhaseOk(c, s.rows, ph);
    AdmittedIffFresh(s.rows, c.stream, ph.current, ph.head, c.events);
    GapFreeAppend(s.rows, c.stream, c.events);
    var added := NewRows(c.stream, ph.current, ph.head, c.events);
    assert s'.rows == s.rows + added;
    assert s'.rows[..|s.rows|] == s.rows && s'.rows[|s.rows|..|s.rows| + |c.events|] == added;
    assert s'.commits[..|s.commits|] == s.commits;
    PhasesAfterCommit(calls, s, added, p, s'.phases[p]);
    CommitRecorded(calls, s, s', p, ph.current + |c.events|);
  }

  /** A step that only moves one unfinished call. */
  lemma MoveStep(calls: seq<Call>, s: Log, s': Log, p: nat, ph: Phase)
    requires Inv(calls, s) && p < |calls| && !s.phases[p].Done? && s' == s.(phases := s.phases[p := ph])
    requires PhaseOk(calls[p], s.rows, ph)
    requires ph.Done? && ph.outcome.Appended? ==> calls[p].events == []
    ensures Inv(calls, s')
  {
    hide PhaseOk, GapFree, Tiled;
  }

  lemma StepInv(calls: seq<Call>, s: Log, s': Log)
    requires Inv(calls, s) && Step(calls, s, s')
    ensures Inv(calls, s')
    ensures s.rows <= s'.rows
  {
    hide OncePerOk, Tiled, GapFree, Count;
    var p: nat :| StepBy(calls, s, s', p);
    var ph := s.phases[p];
    assert PhaseOk(calls[p], s.rows, ph);
    ReadsOfLog(s.rows, calls[p].stream);
    if TryCommit(calls, s, s', p) {
      if Admits(s.rows, NewRows(calls[p].stream, ph.current, ph.head, calls[p].events)) {
        CommitStep(calls, s, s', p);
      } else {
        MoveStep(calls, s, s', p, s'.phases[p]);
      }
    } else {
      MoveStep(calls, s, s', p, s'.phases[p]);
    }
  }

  ghost predicate Run(calls: seq<Call>, run: seq<Log>) {
    run != [] && Init(calls, run[0]) && forall i :: 0 <= i < |run| - 1 ==> Step(calls, run[i], run[i + 1])
  }

  /** In every interleaving: positions are 1..head, each stream's versions are 1..n,
      every acknowledged append is in the log once, whole and in place, and rows
      once committed never change. */
  lemma {:induction false} AppendSafety(calls: seq<Call>, run: seq<Log>, i: nat, j: nat)
    requires Run(calls, run) && i <= j < |run|
    ensures Inv(calls, run[j]) && run[i].rows <= run[j].rows
    ensures var rows := run[j].rows;
      forall k :: 0 <= k < |rows| ==>
        rows[k].position == k + 1 && rows[k].version == Count(rows[..k], rows[k].stream) + 1
    decreases j
  {
    hide Inv, Step, GapFree;
    if j == 0 {
      InitInv(calls, run[0]);
    } else {
      AppendSafety(calls, run, if i < j then i else j - 1, j - 1);
      assert Step(calls, run[j - 1], run[j - 1 + 1]);
      StepInv(calls, run[j - 1], run[j]);
    }
    InvGapFree(calls, run[j]);
  }

  lemma InvGapFree(calls: seq<Call>, s: Log)
    requires Inv(calls, s)
    ensures forall k :: 0 <= k < |s.rows| ==>
      s.rows[k].position == k + 1 && s.rows[k].version == Count(s.rows[..k], s.rows[k].stream) + 1
  {
    assert GapFree(s.rows);
    hide Inv;
  }

  /** What an Ok answer to a non-empty append says, expectation by expectation: the events
      are in the log, at consecutive positions and versions, and the stream had exactly the
      expected version when they went in. */
  lemma AppendedMeans(calls: seq<Call>, run: seq<Log>, j: nat, p: nat)
    requires Run(calls, run) && j < |run| && p < |calls| && calls[p].events != []
    ensures |run[j].phases| == |calls|
    ensures run[j].phases[p].Done? && run[j].phases[p].outcome.Appended? ==>
      var c, rows, w, at := calls[p], run[j].rows, run[j].phases[p].outcome.version, run[j].phases[p].at;
      && at + |c.events| <= |rows| && Count(rows[..at], c.stream) == w - |c.events|
      && (c.expected.Version? ==> w == c.expected.v + |c.events|)
      && (c.expected.NoStream? ==> w == |c.events|)
      && forall i :: at <= i < at + |c.events| ==>
           rows[i] == Row(i + 1, c.stream, w - |c.events| + 1 + i - at, c.events[i - at])
  {
    AppendSafety(calls, run, j, j);
    var c, s := calls[p], run[j];
    assert PhaseOk(c, s.rows, s.phases[p]);
    hide Run, GapFree, Tiled, OncePerOk, Count;
    if s.phases[p].Done? && s.phases[p].outcome.Appended? {
      var at := s.phases[p].at;
      assert forall i :: at <= i < at + |c.events| ==> s.rows[i] == s.rows[at..at + |c.events|][i - at];
    }
  }

  /** The version a call was answered with, by a check it made while the log was `rows`:
      refused because the expectation failed, or accepted with nothing to write. */
  ghost predicate Answered(c: Call, rows: seq<Row>, r: Outcome) {
    match r
    case Conflict(actual) =>
      actual == Count(rows, c.stream)
        && ((c.expected.NoStream? && actual != 0) || (c.expected.Version? && actual != c.expected.v))
    case Appended(w) =>
      w == Count(rows, c.stream) && (c.expected.NoStream? ==> w == 0) && (c.expected.Version? ==> w == c.expected.v)
    case StoreError => true
  }

  lemma StepAnswers(calls: seq<Call>, s: Log, s': Log, p: nat)
    requires Inv(calls, s) && Step(calls, s, s') && p < |calls| && |s.phases| == |calls|
    ensures |s'.phases| == |calls| && (s.phases[p].Done? ==> s'.phases[p] == s.phases[p])
    ensures !s.phases[p].Done? && s'.phases[p].Done? && (s'.phases[p].outcome.Appended? ==> calls[p].events == []) ==>
      Answered(calls[p], s.rows, s'.phases[p].outcome)
  {
    var q: nat :| StepBy(calls, s, s', q);
    assert PhaseOk(calls[q], s.rows, s.phases[q]);
    ReadsOfLog(s.rows, calls[q].stream);
    hide GapFree, Tiled, OncePerOk, Count, StreamVersion, HeadPosition, Admits;
  }

  ghost predicate AnsweredBy(c: Call, run: seq<Log>, j: nat, r: Outcome)
    requires j < |run|
  {
    exists i :: 0 <= i <= j && Answered(c, run[i].rows, r)
  }

  lemma AnsweredLater(c: Call, run: seq<Log>, j: nat, r: Outcome)
    requires 0 < j < |run|
    ensures AnsweredBy(c, run, j - 1, r) || Answered(c, run[j - 1].rows, r) ==> AnsweredBy(c, run, j, r)
  {
    hide Answered;
  }

  /** A conflict is reported with a version the stream really had during the call, and only
      if that version is not the expected one; an empty append is answered likewise, and
      only if it is. */
  lemma {:induction false} AnswerMeans(calls: seq<Call>, run: seq<Log>, j: nat, p: nat)
    requires Run(calls, run) && j < |run| && p < |calls|
    ensures |run[j].phases| == |calls|
    ensures run[j].phases[p].Done? && (run[j].phases[p].outcome.Appended? ==> calls[p].events == []) ==>
      AnsweredBy(calls[p], run, j, run[j].phases[p].outcome)
    decreases j
  {
    if j > 0 {
      AnswerMeans(calls, run, j - 1, p);
      AppendSafety(calls, run, j - 1, j - 1);
      assert Step(calls, run[j - 1], run[j - 1 + 1]);
      hide Run, Inv, Step, Answered, AnsweredBy;
      StepAnswers(calls, run[j - 1], run[j], p);
      if run[j].phases[p].Done? {
        AnsweredLater(calls[p], run, j, run[j].phases[p].outcome);
      }
    }
  }

  /** A retry is never spurious: when a commit is refused, another append has been
      committed since this one read. */
  lemma RefusalMeansProgress(calls: seq<Call>, s: Log, s': Log, p: nat)
    requires Inv(calls, s) && TryCommit(calls, s, s', p)
    ensures s'.phases[p] == Done(Appended(s.phases[p].current + |calls[p].events|), |s.rows|)
      <==> s.phases[p].head == |s.rows| && s.phases[p].current == Count(s.rows, calls[p].stream)
    ensures !(s'.phases[p].Done? && s'.phases[p].outcome.Appended?) ==>
      s' == s.(phases := s.phases[p :=
        if s.phases[p].attempt < 15 then Start(s.phases[p].attempt + 1) else Done(StoreError, 0)])
  {
    AdmittedIffFresh(s.rows, calls[p].stream, s.phases[p].current, s.phases[p].head, calls[p].events);
  }

  /** The position key alone would not do: a version read before, and a head read
      after, another append of the same stream pass it; UNIQUE (stream, version) does not. */
  lemma PrimaryKeyAloneAdmitsStale(e: NewEvent)
    ensures var rows := [Row(1, "s", 1, e)]; var stale := NewRows("s", StreamVersion([], "s"), HeadPosition(rows), [e]);
      GapFree(rows) && rows[0].position != stale[0].position && stale[0].version == rows[0].version
        && !Admits(rows, stale)
  {
    var rows := [Row(1, "s", 1, e)];
    var stale := NewRows("s", StreamVersion([], "s"), HeadPosition(rows), [e]);
    ReadsOfLog([], "s");
    GapFreeSnoc([], rows[0]);
    assert [] + [rows[0]] == rows;
    ReadsOfLog(rows, "s");
    assert SameKey(rows[0], stale[0]);
  }
}
