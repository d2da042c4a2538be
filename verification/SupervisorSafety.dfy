/** What every run of the supervisor keeps: handles and threads in step, one exit per
    start, stale exits harmless, restarts spaced by the intensity cap. */
module SupervisorSafety {
  import opened Supervisor
  import opened Wrappers

  // ---- what stopping and starting a range does ----

  function Handles(c: Child, on: bool): Child {
    c.(join := on, stop := on, tx := on)
  }

  predicate AllOrNone(c: Child) {
    c.join == c.stop == c.tx
  }

  ghost predicate AllAllOrNone(s: Sup) {
    forall i :: 0 <= i < |s.children| ==> AllOrNone(s.children[i])
  }

  function ThreadOf(c: Child): Thread {
    Thread(c.id, c.gen)
  }

  /** Some child from `from` on holds a handle of `t`. */
  ghost predicate Held(s: Sup, from: nat, t: Thread) {
    exists i :: from <= i < |s.children| && s.children[i].join && t == ThreadOf(s.children[i])
  }

  ghost predicate DistinctIds(s: Sup) {
    forall i, j :: 0 <= i < j < |s.children| ==> s.children[i].id != s.children[j].id
  }

  /** Stopping: handles gone, threads ended, their exits posted; nothing else. */
  ghost predicate StoppedFrom(s: Sup, s': Sup, from: nat) {
    && |s'.children| == |s.children| && s'.recent == s.recent && s'.state == s.state
    && (forall i :: 0 <= i < |s.children| ==>
      s'.children[i] == if i < from then s.children[i] else Handles(s.children[i], false))
    && (forall t :: t in s'.live <==> t in s.live && !Held(s, from, t))
    && (forall t :: t in s'.pending <==> t in s.pending || (t in s.live && Held(s, from, t)))
  }

  lemma HeldStep(s: Sup, from: nat, t: Thread)
    requires from < |s.children|
    ensures Held(s, from, t) <==> Held(s, from + 1, t) || (s.children[from].join && t == ThreadOf(s.children[from]))
  {
    if Held(s, from + 1, t) {
      var i :| from + 1 <= i < |s.children| && s.children[i].join && t == ThreadOf(s.children[i]);
      assert from <= i < |s.children|;
    }
  }

  lemma {:induction false} StopFromEffect(s: Sup, from: nat, onlyJoined: bool)
    requires from <= |s.children| && AllAllOrNone(s) && DistinctIds(s)
    ensures StoppedFrom(s, StopFrom(s, from, onlyJoined), from)
    decreases |s.children| - from
  {
    if from < |s.children| {
      StopFromEffect(s, from + 1, onlyJoined);
      var s1 := StopFrom(s, from + 1, onlyJoined);
      assert s1.children[from] == s.children[from];
      forall t
        ensures Held(s, from, t) <==> Held(s, from + 1, t) || (s.children[from].join && t == ThreadOf(s.children[from]))
        ensures s.children[from].join && t == ThreadOf(s.children[from]) ==> !Held(s, from + 1, t)
      {
        HeldStep(s, from, t);
      }
      hide Held;
    }
  }

  function Restarted(c: Child): Child {
    Handles(c.(gen := c.gen + 1, restarts := if c.gen > 0 then c.restarts + 1 else c.restarts), true)
  }

  ghost predicate NewIn(s: Sup, from: nat, upto: nat, t: Thread)
    requires upto <= |s.children|
  {
    exists i :: from <= i < upto && t == Thread(s.children[i].id, s.children[i].gen + 1)
  }

  /** Starting: one generation later, all handles, a thread each; nothing else. */
  ghost predicate StartedFrom(s: Sup, s': Sup, from: nat, upto: nat)
    requires upto <= |s.children|
  {
    && |s'.children| == |s.children| && s'.recent == s.recent && s'.state == s.state && s'.pending == s.pending
    && (forall i :: 0 <= i < |s.children| ==>
          s'.children[i] == if from <= i < upto then Restarted(s.children[i]) else s.children[i])
    && (forall t :: t in s'.live <==> t in s.live || NewIn(s, from, upto, t))
  }

  lemma {:induction false} StartFromEffect(s: Sup, from: nat, upto: nat)
    requires from <= upto <= |s.children|
    ensures StartedFrom(s, StartFrom(s, from, upto), from, upto)
    decreases upto - from
  {
    if from < upto {
      StartFromEffect(s, from, upto - 1);
      var s1 := StartFrom(s, from, upto - 1);
      assert s1.children[upto - 1] == s.children[upto - 1];
      forall t
        ensures NewIn(s, from, upto, t) <==>
          NewIn(s, from, upto - 1, t) || t == Thread(s.children[upto - 1].id, s.children[upto - 1].gen + 1)
      {
        if NewIn(s, from, upto - 1, t) {
          var i :| from <= i < upto - 1 && t == Thread(s.children[i].id, s.children[i].gen + 1);
          assert from <= i < upto;
        }
      }
      hide NewIn;
    }
  }

  // ---- the run ----

  /** The supervisor with the history the claims are about: the times of the restart
      events performed, the exits acted on, and the last clock reading. */
  datatype History = History(s: Sup, performed: seq<int>, acted: seq<Thread>, clock: int)

  ghost predicate ThreadEnds(h: History, h': History, t: Thread) {
    t in h.s.live && h' == h.(s := h.s.(live := h.s.live - {t}, pending := h.s.pending + {t}))
  }

  /** The loop takes one exit off its queue, at a clock reading that does not go back. */
  ghost predicate TakeExit(cfg: Config, h: History, h': History, e: Thread, now: int) {
    && h.s.state.Running? && e in h.s.pending && h.clock <= now
    && var found := Find(h.s.children, e);
       var restart := found.Some? && ShouldRestart(h.s.children[found.value].policy, (cfg.crashes)(e));
       var s' := OnExit(cfg, h.s, e, now);
       h' == History(s', if restart && s'.state.Running? then h.performed + [now] else h.performed,
                     if found.Some? then h.acted + [e] else h.acted, now)
  }

  ghost predicate Shutdown(h: History, h': History) {
    h.s.state.Running? && h' == h.(s := OnShutdown(h.s))
  }

  ghost predicate Step(cfg: Config, h: History, h': History) {
    || (exists t :: ThreadEnds(h, h', t))
    || (exists e, now :: TakeExit(cfg, h, h', e, now))
    || Shutdown(h, h')
  }

  /** Before the loop: children in the order they were declared, none started. */
  ghost predicate Declared(s: Sup) {
    && s.recent == [] && s.state == Running && s.live == {} && s.pending == {} && DistinctIds(s)
    && forall i :: 0 <= i < |s.children| ==>
      s.children[i].gen == 0 && s.children[i].restarts == 0 && s.children[i] == Handles(s.children[i], false)
  }

  ghost predicate Init(h: History, clock: int) {
    exists s0 :: Declared(s0) && h == History(StartFrom(s0, 0, |s0.children|), [], [], clock)
  }

  // ---- children and threads ----

  ghost predicate Counted(c: Child) {
    AllOrNone(c) && c.gen >= 1 && c.restarts == c.gen - 1
  }

  /** The newest generation of `t`'s child that is not newer than the child. */
  ghost predicate Known(s: Sup, t: Thread) {
    exists i :: 0 <= i < |s.children| && s.children[i].id == t.id && 1 <= t.gen <= s.children[i].gen
      && (t.gen == s.children[i].gen && s.state.Running? ==> s.children[i].join)
  }

  ghost predicate Inv(s: Sup) {
    && DistinctIds(s)
    && (forall i :: 0 <= i < |s.children| ==> Counted(s.children[i]))
    && s.live !! s.pending
    // every running thread is some child's current one: no orphans, one thread per child
    && (forall t :: t in s.live ==> Held(s, 0, t))
    // a held thread is running or has posted its exit
    && (forall i :: 0 <= i < |s.children| && s.children[i].join ==> ThreadOf(s.children[i]) in s.live + s.pending)
    && (forall t :: t in s.pending ==> Known(s, t))
    && (!s.state.Running? ==> s.live == {} && forall i :: 0 <= i < |s.children| ==> !s.children[i].join)
  }

  lemma SameChild(s: Sup, i: nat, j: nat)
    requires DistinctIds(s) && i < |s.children| && j < |s.children| && s.children[i].id == s.children[j].id
    ensures i == j
  {
  }

  /** An exit acted on: its thread is over for good. */
  ghost predicate Over(s: Sup, t: Thread) {
    && t !in s.live && t !in s.pending
    && exists i :: 0 <= i < |s.children| && s.children[i].id == t.id && t.gen <= s.children[i].gen
         && (t.gen == s.children[i].gen ==> !s.children[i].join)
  }

  ghost predicate ActedOnce(h: History) {
    && (forall k :: 0 <= k < |h.acted| ==> Over(h.s, h.acted[k]))
    && forall j, k :: 0 <= j < k < |h.acted| ==> h.acted[j] != h.acted[k]
  }

  // ---- each step keeps the invariant ----

  lemma InitInv(h: History, clock: int)
    requires Init(h, clock)
    ensures Inv(h.s) && h.s.state.Running?
  {
    var s0 :| Declared(s0) && h == History(StartFrom(s0, 0, |s0.children|), [], [], clock);
    StartFromEffect(s0, 0, |s0.children|);
    StartedInv(s0, h.s);
  }

  lemma StartedInv(s0: Sup, s: Sup)
    requires Declared(s0) && StartedFrom(s0, s, 0, |s0.children|)
    ensures Inv(s)
  {
    InitThreads(s0, s);
    StartedCounted(s0, s);
    hide Held, NewIn, ThreadOf, Declared, StartedFrom, DistinctIds, Counted;
  }

  lemma StartedCounted(s0: Sup, s: Sup)
    requires Declared(s0) && StartedFrom(s0, s, 0, |s0.children|)
    ensures DistinctIds(s) && s.state.Running? && s.pending == {}
    ensures forall i :: 0 <= i < |s.children| ==> Counted(s.children[i])
  {
    hide NewIn;
  }

  lemma InitThreads(s0: Sup, s: Sup)
    requires s0.live == {} && StartedFrom(s0, s, 0, |s0.children|)
    ensures forall t :: t in s.live ==> Held(s, 0, t)
    ensures forall i :: 0 <= i < |s.children| ==> ThreadOf(s.children[i]) in s.live
  {
    forall t | t in s.live
      ensures Held(s, 0, t)
    {
      var i :| 0 <= i < |s0.children| && t == Thread(s0.children[i].id, s0.children[i].gen + 1);
      assert s.children[i].join && t == ThreadOf(s.children[i]);
    }
    forall i | 0 <= i < |s.children|
      ensures ThreadOf(s.children[i]) in s.live
    {
      assert NewIn(s0, 0, |s0.children|, Thread(s0.children[i].id, s0.children[i].gen + 1));
    }
  }

  lemma EndInv(h: History, h': History, t: Thread)
    requires Inv(h.s) && ThreadEnds(h, h', t)
    ensures Inv(h'.s)
  {
    forall u | u in h'.s.live
      ensures Held(h'.s, 0, u)
    {
      var i :| 0 <= i < |h.s.children| && h.s.children[i].join && u == ThreadOf(h.s.children[i]);
      assert h'.s.children[i].join && u == ThreadOf(h'.s.children[i]);
    }
    forall u | u in h'.s.pending
      ensures Known(h'.s, u)
    {
      if u == t {
        var i :| 0 <= i < |h.s.children| && h.s.children[i].join && u == ThreadOf(h.s.children[i]);
        assert h'.s.children[i].id == u.id && u.gen == h'.s.children[i].gen;
      } else {
        KnownMoves(h.s, h'.s, u);
      }
    }
  }

  /** What is known of a thread survives when the children do not change. */
  lemma KnownMoves(s: Sup, s': Sup, t: Thread)
    requires Known(s, t) && s'.children == s.children && (s'.state.Running? ==> s.state.Running?)
    ensures Known(s', t)
  {
    var i :| 0 <= i < |s.children| && s.children[i].id == t.id && 1 <= t.gen <= s.children[i].gen
      && (t.gen == s.children[i].gen && s.state.Running? ==> s.children[i].join);
    assert s'.children[i].id == t.id;
  }

  /** Stopping every child ends every thread. */
  lemma StopAllInv(s: Sup, s': Sup, final: State)
    requires Inv(s) && StoppedFrom(s, s', 0) && !final.Running?
    ensures Inv(s'.(state := final))
  {
    var e := s'.(state := final);
    forall t | t in e.pending
      ensures Known(e, t)
    {
      if t in s.pending {
        var i :| 0 <= i < |s.children| && s.children[i].id == t.id && 1 <= t.gen <= s.children[i].gen;
        assert e.children[i].id == t.id;
      } else {
        var i :| 0 <= i < |s.children| && s.children[i].join && t == ThreadOf(s.children[i]);
        assert e.children[i].id == t.id && Counted(s.children[i]);
      }
    }
  }

  /** After the exited child's handles are dropped, all but the exit itself is in order. */
  lemma ReapInv(s: Sup, e: Thread, idx: nat)
    requires Inv(s) && s.state.Running? && e in s.pending && idx < |s.children| && ThreadOf(s.children[idx]) == e
    ensures Inv(Reap(s.(pending := s.pending - {e}), idx)) && Over(Reap(s.(pending := s.pending - {e}), idx), e)
  {
    var r := Reap(s.(pending := s.pending - {e}), idx);
    assert r.children[idx].id == e.id && e.gen <= r.children[idx].gen;
    forall t | t in r.live
      ensures Held(r, 0, t)
    {
      var i :| 0 <= i < |s.children| && s.children[i].join && t == ThreadOf(s.children[i]);
      assert i != idx;
      assert r.children[i].join && t == ThreadOf(r.children[i]);
    }
    forall t | t in r.pending
      ensures Known(r, t)
    {
      var i :| 0 <= i < |s.children| && s.children[i].id == t.id && 1 <= t.gen <= s.children[i].gen
        && (t.gen == s.children[i].gen ==> s.children[i].join);
      assert i == idx ==> t.gen < s.children[i].gen;
      assert r.children[i].id == t.id;
    }
    forall i | 0 <= i < |r.children| && r.children[i].join
      ensures ThreadOf(r.children[i]) in r.live + r.pending
    {
      assert i != idx && ThreadOf(s.children[i]) in s.live + s.pending;
      SameChildNot(s, i, idx);
    }
  }

  lemma SameChildNot(s: Sup, i: nat, j: nat)
    requires DistinctIds(s) && i < |s.children| && j < |s.children| && i != j
    ensures ThreadOf(s.children[i]) != ThreadOf(s.children[j])
  {
  }

  /** Stopping and starting the children from `from` on. */
  lemma RestartInv(s: Sup, s1: Sup, s2: Sup, from: nat)
    requires Inv(s) && s.state.Running? && from <= |s.children|
    requires StoppedFrom(s, s1, from) && StartedFrom(s1, s2, from, |s.children|)
    ensures Inv(s2)
  {
    forall t | t in s2.live
      ensures Held(s2, 0, t) && t !in s2.pending
    {
      RestartLive(s, s1, s2, from, t);
    }
    forall i | 0 <= i < |s2.children| && s2.children[i].join
      ensures ThreadOf(s2.children[i]) in s2.live + s2.pending
    {
      RestartHeld(s, s1, s2, from, i);
    }
    forall t | t in s2.pending
      ensures Known(s2, t)
    {
      RestartPending(s, s1, s2, from, t);
    }
    hide Held, Known, NewIn, ThreadOf;
  }

  lemma RestartLive(s: Sup, s1: Sup, s2: Sup, from: nat, t: Thread)
    requires Inv(s) && s.state.Running? && from <= |s.children|
    requires StoppedFrom(s, s1, from) && StartedFrom(s1, s2, from, |s.children|) && t in s2.live
    ensures Held(s2, 0, t) && t !in s2.pending
  {
    hide Known;
    if t in s1.live {
      var i :| 0 <= i < |s.children| && s.children[i].join && t == ThreadOf(s.children[i]);
      assert !Held(s, from, t);
      assert s2.children[i].join && t == ThreadOf(s2.children[i]);
    } else {
      assert NewIn(s1, from, |s.children|, t);
      var i :| from <= i < |s1.children| && t == Thread(s1.children[i].id, s1.children[i].gen + 1);
      assert s2.children[i].join && t == ThreadOf(s2.children[i]);
      NewIsFresh(s, i, t);
    }
  }

  lemma RestartHeld(s: Sup, s1: Sup, s2: Sup, from: nat, i: nat)
    requires Inv(s) && s.state.Running? && from <= |s.children|
    requires StoppedFrom(s, s1, from) && StartedFrom(s1, s2, from, |s.children|)
    requires i < |s2.children| && s2.children[i].join
    ensures ThreadOf(s2.children[i]) in s2.live + s2.pending
  {
    if i >= from {
      assert NewIn(s1, from, |s.children|, Thread(s1.children[i].id, s1.children[i].gen + 1));
    } else {
      hide Known, Held, NewIn;
      assert ThreadOf(s.children[i]) in s.live + s.pending;
    }
  }

  lemma RestartPending(s: Sup, s1: Sup, s2: Sup, from: nat, t: Thread)
    requires Inv(s) && s.state.Running? && from <= |s.children|
    requires StoppedFrom(s, s1, from) && StartedFrom(s1, s2, from, |s.children|) && t in s2.pending
    ensures Known(s2, t)
  {
    hide NewIn;
    PendingKnown(s, t);
    var i :| 0 <= i < |s.children| && s.children[i].id == t.id && 1 <= t.gen <= s.children[i].gen
      && (t.gen == s.children[i].gen ==> s.children[i].join);
    assert s2.children[i].id == t.id;
  }

  /** Neither a running thread nor a posted exit is of a generation still to come. */
  lemma NewIsFresh(s: Sup, i: nat, t: Thread)
    requires Inv(s) && i < |s.children| && t == Thread(s.children[i].id, s.children[i].gen + 1)
    ensures t !in s.live && t !in s.pending
  {
    if t in s.live {
      var j :| 0 <= j < |s.children| && s.children[j].join && t == ThreadOf(s.children[j]);
      SameChild(s, i, j);
    }
    if t in s.pending {
      var j :| 0 <= j < |s.children| && s.children[j].id == t.id && 1 <= t.gen <= s.children[j].gen;
      SameChild(s, i, j);
    }
  }

  lemma PendingKnown(s: Sup, t: Thread)
    requires Inv(s) && (t in s.pending || (t in s.live && Held(s, 0, t)))
    ensures Known(s, t)
  {
    if t !in s.pending {
      var i :| 0 <= i < |s.children| && s.children[i].join && t == ThreadOf(s.children[i]);
      assert Counted(s.children[i]);
      assert s.children[i].id == t.id && t.gen == s.children[i].gen;
    }
  }

  lemma FoundIs(s: Sup, e: Thread, idx: nat)
    requires Inv(s) && Find(s.children, e) == Some(idx)
    ensures idx < |s.children| && ThreadOf(s.children[idx]) == e
  {
  }

  /** The shape of handling one exit whose generation is current. */
  lemma ExitShape(cfg: Config, s: Sup, e: Thread, now: int, idx: nat)
    requires Inv(s) && s.state.Running? && e in s.pending && Find(s.children, e) == Some(idx)
    ensures idx < |s.children| && ThreadOf(s.children[idx]) == e
    ensures var s1 := Reap(s.(pending := s.pending - {e}), idx);
      var s2 := s1.(recent := Trim(s1.recent + [now], now, cfg.window));
      var from := RangeStart(cfg.strategy, idx);
      Inv(s1) && Inv(s2) && Over(s1, e) && from <= idx
      && OnExit(cfg, s, e, now) ==
        (if !ShouldRestart(s.children[idx].policy, (cfg.crashes)(e)) then s1
         else if |s2.recent| > cfg.maxRestarts then StopFrom(s2, 0, false).(state := Failed)
         else StartFrom(StopFrom(s2, from, true), from, |s.children|))
  {
    FoundIs(s, e, idx);
    ReapInv(s, e, idx);
    var s1 := Reap(s.(pending := s.pending - {e}), idx);
    RecentIrrelevant(s1, Trim(s1.recent + [now], now, cfg.window));
  }

  lemma RecentIrrelevant(s: Sup, recent: seq<int>)
    requires Inv(s)
    ensures Inv(s.(recent := recent))
  {
    var r := s.(recent := recent);
    forall t | t in r.live
      ensures Held(r, 0, t)
    {
      var i :| 0 <= i < |s.children| && s.children[i].join && t == ThreadOf(s.children[i]);
      assert r.children[i].join && t == ThreadOf(r.children[i]);
    }
    forall t | t in r.pending
      ensures Known(r, t)
    {
      KnownMoves(s, r, t);
    }
  }

  /** A restart's two passes, together. */
  ghost predicate RestartedFrom(s: Sup, s': Sup, from: nat) {
    && |s'.children| == |s.children| && s'.state == s.state && s'.recent == s.recent
    && (forall i :: 0 <= i < |s.children| ==>
      s'.children[i] == if i < from then s.children[i] else Restarted(s.children[i]))
    && (forall i :: from <= i < |s.children| ==> ThreadOf(s'.children[i]) in s'.live)
  }

  lemma RestartPasses(s: Sup, from: nat) returns (s1: Sup)
    requires Inv(s) && s.state.Running? && from <= |s.children|
    ensures s1 == StopFrom(s, from, true) && StoppedFrom(s, s1, from)
    ensures var s2 := StartFrom(s1, from, |s.children|);
      StartedFrom(s1, s2, from, |s.children|) && RestartedFrom(s, s2, from) && Inv(s2)
  {
    s1 := StopFrom(s, from, true);
    StopFromEffect(s, from, true);
    StartFromEffect(s1, from, |s.children|);
    var s2 := StartFrom(s1, from, |s.children|);
    hide StopFrom, StartFrom, RestartedFrom;
    RestartInv(s, s1, s2, from);
    hide Inv;
    RestartedNow(s, s1, s2, from);
  }

  lemma RestartedNow(s: Sup, s1: Sup, s2: Sup, from: nat)
    requires from <= |s.children| && StoppedFrom(s, s1, from) && StartedFrom(s1, s2, from, |s.children|)
    ensures RestartedFrom(s, s2, from)
  {
    forall i | from <= i < |s.children|
      ensures ThreadOf(s2.children[i]) in s2.live
    {
      assert NewIn(s1, from, |s.children|, Thread(s1.children[i].id, s1.children[i].gen + 1));
    }
  }

  lemma ExitInv(cfg: Config, s: Sup, e: Thread, now: int)
    requires Inv(s) && s.state.Running? && e in s.pending
    ensures Inv(OnExit(cfg, s, e, now))
  {
    var found := Find(s.children, e);
    if found.None? {
      StaleInv(s, e);
    } else {
      var idx := found.value;
      ExitShape(cfg, s, e, now, idx);
      var s1 := Reap(s.(pending := s.pending - {e}), idx);
      var s2 := s1.(recent := Trim(s1.recent + [now], now, cfg.window));
      hide Inv, StopFrom, StartFrom, OnExit;
      if ShouldRestart(s.children[idx].policy, (cfg.crashes)(e)) {
        if |s2.recent| > cfg.maxRestarts {
          StopAllFailed(s2);
        } else {
          var _ := RestartPasses(s2, RangeStart(cfg.strategy, idx));
        }
      }
    }
  }

  lemma StopAllFailed(s: Sup)
    requires Inv(s)
    ensures Inv(StopFrom(s, 0, false).(state := Failed)) && Inv(OnShutdown(s))
    ensures StoppedFrom(s, StopFrom(s, 0, false), 0)
  {
    StopFromEffect(s, 0, false);
    StopAllInv(s, StopFrom(s, 0, false), Failed);
    StopAllInv(s, StopFrom(s, 0, false), Stopped);
  }

  lemma StaleInv(s: Sup, e: Thread)
    requires Inv(s) && Find(s.children, e).None?
    ensures Inv(s.(pending := s.pending - {e}))
  {
    var r := s.(pending := s.pending - {e});
    forall t | t in r.live
      ensures Held(r, 0, t)
    {
      var i :| 0 <= i < |s.children| && s.children[i].join && t == ThreadOf(s.children[i]);
      assert r.children[i].join && t == ThreadOf(r.children[i]);
    }
    forall t | t in r.pending
      ensures Known(r, t)
    {
      KnownMoves(s, r, t);
    }
  }

  // ---- an exit is acted on at most once ----

  /** The same child, at a later generation or holding no handle it had given up. */
  predicate NoEarlier(c: Child, c': Child) {
    c'.id == c.id && (c'.gen > c.gen || (c'.gen == c.gen && (c'.join ==> c.join)))
  }

  lemma OverStays(s: Sup, s': Sup, t: Thread)
    requires Over(s, t) && |s'.children| == |s.children|
    requires t !in s'.live && t !in s'.pending
    requires forall i :: 0 <= i < |s.children| ==> NoEarlier(s.children[i], s'.children[i])
    ensures Over(s', t)
  {
    var i :| 0 <= i < |s.children| && s.children[i].id == t.id && t.gen <= s.children[i].gen
      && (t.gen == s.children[i].gen ==> !s.children[i].join);
    assert s'.children[i].id == t.id && t.gen <= s'.children[i].gen;
  }

  lemma OverStop(s: Sup, s': Sup, from: nat, t: Thread)
    requires Over(s, t) && StoppedFrom(s, s', from)
    ensures Over(s', t)
  {
    hide Over;
    assert t !in s.live && t !in s.pending by { OverGone(s, t); }
    OverStays(s, s', t);
  }

  lemma OverGone(s: Sup, t: Thread)
    requires Over(s, t)
    ensures t !in s.live && t !in s.pending
  {
  }

  lemma OverRestart(s: Sup, s1: Sup, s2: Sup, from: nat, t: Thread)
    requires Inv(s) && Over(s, t) && from <= |s.children|
    requires StoppedFrom(s, s1, from) && StartedFrom(s1, s2, from, |s.children|)
    ensures Over(s2, t)
  {
    OverStop(s, s1, from, t);
    OverNotNew(s, s1, from, t);
    OverStays(s1, s2, t);
  }

  lemma OverNotNew(s: Sup, s1: Sup, from: nat, t: Thread)
    requires DistinctIds(s) && Over(s, t) && from <= |s.children| && StoppedFrom(s, s1, from)
    ensures !NewIn(s1, from, |s.children|, t)
  {
    var j :| 0 <= j < |s.children| && s.children[j].id == t.id && t.gen <= s.children[j].gen;
    forall i | from <= i < |s.children|
      ensures t != Thread(s1.children[i].id, s1.children[i].gen + 1)
    {
      assert s1.children[i].id == s.children[i].id && s1.children[i].gen == s.children[i].gen;
      assert i != j ==> s.children[i].id != s.children[j].id;
    }
  }

  lemma ExitOver(cfg: Config, s: Sup, e: Thread, now: int, t: Thread)
    requires Inv(s) && s.state.Running? && e in s.pending
    requires Over(s, t) || (t == e && Find(s.children, e).Some?)
    ensures Over(OnExit(cfg, s, e, now), t)
  {
    var found := Find(s.children, e);
    var s0 := s.(pending := s.pending - {e});
    if found.None? {
      OverStays(s, s0, t);
    } else {
      var idx := found.value;
      ExitShape(cfg, s, e, now, idx);
      var s1 := Reap(s0, idx);
      var s2 := s1.(recent := Trim(s1.recent + [now], now, cfg.window));
      if t != e { OverStays(s, s1, t); }
      OverStays(s1, s2, t);
      hide Inv, StopFrom, StartFrom, OnExit, Over;
      if ShouldRestart(s.children[idx].policy, (cfg.crashes)(e)) {
        if |s2.recent| > cfg.maxRestarts {
          StopAllFailed(s2);
          OverStop(s2, StopFrom(s2, 0, false), 0, t);
          FinalOver(StopFrom(s2, 0, false), t);
        } else {
          var from := RangeStart(cfg.strategy, idx);
          var s3 := RestartPasses(s2, from);
          OverRestart(s2, s3, StartFrom(s3, from, |s.children|), from, t);
        }
      }
    }
  }

  lemma FinalOver(s: Sup, t: Thread)
    requires Over(s, t)
    ensures Over(s.(state := Failed), t) && Over(s.(state := Stopped), t)
  {
    OverStays(s, s.(state := Failed), t);
    OverStays(s, s.(state := Stopped), t);
  }

  // ---- the restart cap ----

  /** Clock readings do not decrease. */
  ghost predicate Ascending(ts: seq<int>) {
    forall i, j :: 0 <= i <= j < |ts| ==> ts[i] <= ts[j]
  }

  /** Any `max + 1` consecutive events span more than the window. */
  ghost predicate Spaced(cfg: Config, ts: seq<int>) {
    forall i :: 0 <= i && i + cfg.maxRestarts < |ts| ==> ts[i + cfg.maxRestarts] - ts[i] > cfg.window
  }

  /** The deque is a suffix of all restart events, holding at least the last window's. */
  ghost predicate Recent(cfg: Config, all: seq<int>, recent: seq<int>) {
    && |recent| <= |all| && recent == all[|all| - |recent|..]
    && (all != [] ==> recent != [])
    && forall i :: 0 <= i < |all| - |recent| ==> all[|all| - 1] - all[i] > cfg.window
  }

  ghost predicate Capped(cfg: Config, h: History) {
    && Ascending(h.performed) && (h.performed != [] ==> h.performed[|h.performed| - 1] <= h.clock)
    && Spaced(cfg, h.performed)
    && (h.s.state.Running? ==> Recent(cfg, h.performed, h.s.recent) && |h.s.recent| <= cfg.maxRestarts)
  }

  /** Trimming drops exactly the events older than the window. */
  lemma {:induction false} TrimExact(recent: seq<int>, now: int, window: nat)
    requires Ascending(recent)
    ensures var r := Trim(recent, now, window);
      && |r| <= |recent| && r == recent[|recent| - |r|..]
      && (forall i :: 0 <= i < |recent| - |r| ==> now - recent[i] > window)
      && (forall i :: 0 <= i < |r| ==> now - r[i] <= window)
    decreases |recent|
  {
    if recent != [] && now - recent[0] > window {
      TrimExact(recent[1..], now, window);
    }
  }

  lemma Pushed(cfg: Config, all: seq<int>, recent: seq<int>, now: int)
    requires Ascending(all) && Recent(cfg, all, recent) && (all != [] ==> all[|all| - 1] <= now)
    ensures var all', r := all + [now], recent + [now];
      && Ascending(all') && Ascending(r) && r == all'[|all'| - |r|..]
      && (forall i :: 0 <= i < |all'| - |r| ==> now - all'[i] > cfg.window)
  {
    var all', r := all + [now], recent + [now];
    assert r == all'[|all'| - |r|..];
    assert Ascending(all');
    forall i | 0 <= i < |all'| - |r|
      ensures now - all'[i] > cfg.window
    {
      assert all[|all| - 1] - all[i] > cfg.window;
    }
  }

  /** After an event at `now`, the deque holds exactly the events of the last window. */
  lemma TrimmedIsRecent(cfg: Config, all: seq<int>, recent: seq<int>, now: int)
    requires Ascending(all) && Recent(cfg, all, recent) && (all != [] ==> all[|all| - 1] <= now)
    ensures var all' := all + [now]; var r := Trim(recent + [now], now, cfg.window);
      && Ascending(all') && Recent(cfg, all', r)
      && (forall i :: 0 <= i < |all'| ==> (i >= |all'| - |r| <==> now - all'[i] <= cfg.window))
  {
    Pushed(cfg, all, recent, now);
    var all', pushed := all + [now], recent + [now];
    var r := Trim(pushed, now, cfg.window);
    hide Ascending, Trim, Recent;
    TrimExact(pushed, now, cfg.window);
    assert all'[|all'| - 1] == now == pushed[|pushed| - 1];
    TwoCuts(all', pushed, r, now, cfg.window);
    RecentBy(cfg, all', r, now);
  }

  lemma RecentBy(cfg: Config, all: seq<int>, r: seq<int>, now: int)
    requires all != [] && all[|all| - 1] == now && r != [] && |r| <= |all| && r == all[|all| - |r|..]
    requires forall i :: 0 <= i < |all| - |r| ==> now - all[i] > cfg.window
    ensures Recent(cfg, all, r)
  {
  }

  /** A suffix that drops only what is behind the window, trimmed to what is within it. */
  lemma TwoCuts(all: seq<int>, pushed: seq<int>, r: seq<int>, now: int, window: nat)
    requires |r| <= |pushed| <= |all| && pushed == all[|all| - |pushed|..] && r == pushed[|pushed| - |r|..]
    requires forall i :: 0 <= i < |all| - |pushed| ==> now - all[i] > window
    requires forall i :: 0 <= i < |pushed| - |r| ==> now - pushed[i] > window
    requires forall i :: 0 <= i < |r| ==> now - r[i] <= window
    requires pushed != [] && pushed[|pushed| - 1] == now
    ensures r != [] && r == all[|all| - |r|..]
    ensures forall i :: 0 <= i < |all| ==> (i >= |all| - |r| <==> now - all[i] <= window)
  {
    assert now - pushed[|pushed| - 1] <= window;
    forall i | 0 <= i < |all|
      ensures i >= |all| - |r| <==> now - all[i] <= window
    {
      if i >= |all| - |r| {
        assert all[i] == r[i - (|all| - |r|)];
      } else if i >= |all| - |pushed| {
        assert all[i] == pushed[i - (|all| - |pushed|)];
      }
    }
  }

  lemma SpacedMore(cfg: Config, all: seq<int>, r: seq<int>, now: int)
    requires Spaced(cfg, all) && Recent(cfg, all + [now], r) && |r| <= cfg.maxRestarts
    ensures Spaced(cfg, all + [now])
  {
    var all' := all + [now];
    forall i | 0 <= i && i + cfg.maxRestarts < |all'|
      ensures all'[i + cfg.maxRestarts] - all'[i] > cfg.window
    {
      if i + cfg.maxRestarts < |all| {
        assert all[i + cfg.maxRestarts] - all[i] > cfg.window;
      } else {
        assert i < |all'| - |r|;
      }
    }
  }

  function CountIn(ts: seq<int>, a: int, b: int): nat {
    if ts == [] then 0 else CountIn(ts[1..], a, b) + (if a <= ts[0] <= b then 1 else 0)
  }

  /** A closed interval as long as the window holds at most `maxRestarts` of the events. */
  lemma {:induction false} SpacedMeansCapped(cfg: Config, ts: seq<int>, a: int)
    requires Ascending(ts) && Spaced(cfg, ts)
    ensures CountIn(ts, a, a + cfg.window) <= cfg.maxRestarts
    decreases |ts|
  {
    if ts != [] {
      if ts[0] < a {
        SpacedTail(cfg, ts);
        SpacedMeansCapped(cfg, ts[1..], a);
      } else {
        var k := if cfg.maxRestarts < |ts| then cfg.maxRestarts else |ts|;
        assert k < |ts| ==> ts[0 + cfg.maxRestarts] - ts[0] > cfg.window;
        CountPrefix(ts, a, a + cfg.window, k);
      }
    }
  }

  lemma SpacedTail(cfg: Config, ts: seq<int>)
    requires ts != [] && Ascending(ts) && Spaced(cfg, ts)
    ensures Ascending(ts[1..]) && Spaced(cfg, ts[1..])
  {
    forall i | 0 <= i && i + cfg.maxRestarts < |ts[1..]|
      ensures ts[1..][i + cfg.maxRestarts] - ts[1..][i] > cfg.window
    {
      assert ts[(i + 1) + cfg.maxRestarts] - ts[i + 1] > cfg.window;
    }
  }

  /** If everything from index `k` on lies behind the interval, at most `k` events are in it. */
  lemma {:induction false} CountPrefix(ts: seq<int>, a: int, b: int, k: nat)
    requires k <= |ts| && forall i :: k <= i < |ts| ==> ts[i] > b
    ensures CountIn(ts, a, b) <= k
    decreases |ts|
  {
    if ts != [] {
      CountPrefix(ts[1..], a, b, if k > 0 then k - 1 else 0);
    }
  }

  lemma TrimCapped(cfg: Config, h: History, now: int)
    requires Capped(cfg, h) && h.s.state.Running? && h.clock <= now
    ensures var r := Trim(h.s.recent + [now], now, cfg.window);
      |r| <= cfg.maxRestarts ==>
        Ascending(h.performed + [now]) && Spaced(cfg, h.performed + [now]) && Recent(cfg, h.performed + [now], r)
  {
    TrimmedIsRecent(cfg, h.performed, h.s.recent, now);
    var r := Trim(h.s.recent + [now], now, cfg.window);
    if |r| <= cfg.maxRestarts {
      SpacedMore(cfg, h.performed, r, now);
    }
  }

  lemma ExitCapped(cfg: Config, h: History, h': History, e: Thread, now: int)
    requires Inv(h.s) && Capped(cfg, h) && TakeExit(cfg, h, h', e, now)
    ensures Capped(cfg, h')
  {
    var found := Find(h.s.children, e);
    if found.Some? {
      var idx := found.value;
      ExitShape(cfg, h.s, e, now, idx);
      var s1 := Reap(h.s.(pending := h.s.pending - {e}), idx);
      var s2 := s1.(recent := Trim(s1.recent + [now], now, cfg.window));
      hide Inv, StopFrom, StartFrom, OnExit, Trim, Ascending, Spaced, Recent, StoppedFrom, StartedFrom, Over, Find,
        ShouldRestart;
      TrimCapped(cfg, h, now);
      if ShouldRestart(h.s.children[idx].policy, (cfg.crashes)(e)) && |s2.recent| > cfg.maxRestarts {
        StopAllFailed(s2);
      }
      if ShouldRestart(h.s.children[idx].policy, (cfg.crashes)(e)) && |s2.recent| <= cfg.maxRestarts {
        var _ := RestartPasses(s2, RangeStart(cfg.strategy, idx));
        assert h'.performed == h.performed + [now];
      }
    }
  }

  // ---- the theorem ----

  ghost predicate Safe(cfg: Config, h: History) {
    Inv(h.s) && ActedOnce(h) && Capped(cfg, h)
  }

  lemma StepSafe(cfg: Config, h: History, h': History)
    requires Safe(cfg, h) && Step(cfg, h, h')
    ensures Safe(cfg, h')
  {
    hide Inv, Over, OnExit, StopFrom, Ascending, Spaced, Recent;
    if Shutdown(h, h') {
      StopAllFailed(h.s);
      forall k | 0 <= k < |h.acted|
        ensures Over(h'.s, h.acted[k])
      {
        OverStop(h.s, StopFrom(h.s, 0, false), 0, h.acted[k]);
        FinalOver(StopFrom(h.s, 0, false), h.acted[k]);
      }
    } else if exists e, now :: TakeExit(cfg, h, h', e, now) {
      var e, now :| TakeExit(cfg, h, h', e, now);
      ExitInv(cfg, h.s, e, now);
      ExitCapped(cfg, h, h', e, now);
      forall k | 0 <= k < |h'.acted|
        ensures Over(h'.s, h'.acted[k])
        ensures k < |h.acted| ==> h.acted[k] != e
      {
        if k < |h.acted| { OverGone(h.s, h.acted[k]); }
        ExitOver(cfg, h.s, e, now, h'.acted[k]);
      }
    } else {
      var t :| ThreadEnds(h, h', t);
      EndInv(h, h', t);
      forall k | 0 <= k < |h.acted|
        ensures Over(h'.s, h.acted[k])
      {
        OverGone(h.s, h.acted[k]);
        OverStays(h.s, h'.s, h.acted[k]);
      }
    }
  }

  ghost predicate Run(cfg: Config, clock: int, run: seq<History>) {
    run != [] && Init(run[0], clock) && forall i :: 0 <= i < |run| - 1 ==> Step(cfg, run[i], run[i + 1])
  }

  /** In every run: handles all or none, restarts one behind the generation, one thread
      a child and no orphans, each exit acted on at most once, restart events spaced. */
  lemma {:induction false} SupervisorRuns(cfg: Config, clock: int, run: seq<History>, k: nat)
    requires Run(cfg, clock, run) && k < |run|
    ensures Safe(cfg, run[k])
    decreases k
  {
    if k == 0 {
      InitInv(run[0], clock);
      InitCapped(cfg, run[0], clock);
    } else {
      SupervisorRuns(cfg, clock, run, k - 1);
      assert Step(cfg, run[k - 1], run[k - 1 + 1]);
      hide Step;
      StepSafe(cfg, run[k - 1], run[k]);
    }
  }

  /** Exactly one child holds the thread, as its current one. */
  ghost predicate HeldAlone(s: Sup, t: Thread) {
    exists i :: 0 <= i < |s.children| && s.children[i].join && s.children[i].id == t.id && s.children[i].gen == t.gen
      && forall j :: 0 <= j < |s.children| && j != i ==> s.children[j].id != t.id
  }

  /** So in every run a child has all three handles or none and one restart fewer than
      generations; a running thread is the current one of a child that holds it, no two
      children share one, no exit is acted on twice; and once stopped or failed, no thread
      runs and no handle is held. */
  lemma EveryRun(cfg: Config, clock: int, run: seq<History>, k: nat)
    requires Run(cfg, clock, run) && k < |run|
    ensures var s := run[k].s;
      && (forall i :: 0 <= i < |s.children| ==>
            var c := s.children[i]; c.join == c.stop == c.tx && c.gen >= 1 && c.restarts == c.gen - 1)
      && (forall i, j :: 0 <= i < j < |s.children| ==> s.children[i].id != s.children[j].id)
      && s.live !! s.pending && (forall t :: t in s.live ==> HeldAlone(s, t))
      && (forall i :: 0 <= i < |s.children| && s.children[i].join ==>
            Thread(s.children[i].id, s.children[i].gen) in s.live + s.pending)
      && (!s.state.Running? ==> s.live == {} && forall i :: 0 <= i < |s.children| ==> !s.children[i].join)
    ensures forall i, j :: 0 <= i < j < |run[k].acted| ==> run[k].acted[i] != run[k].acted[j]
    ensures forall i :: 0 <= i < |run[k].acted| ==> run[k].acted[i] !in run[k].s.live + run[k].s.pending
  {
    SupervisorRuns(cfg, clock, run, k);
    hide Run, Capped;
    var h := run[k];
    assert forall i :: 0 <= i < |h.s.children| ==> Counted(h.s.children[i]);
    assert forall i :: 0 <= i < |h.acted| ==> Over(h.s, h.acted[i]);
    hide Known;
    forall t | t in h.s.live
      ensures HeldAlone(h.s, t)
    {
      assert Held(h.s, 0, t);
    }
  }

  /** In every run any `maxRestarts + 1` restart events in a row take longer than the window,
      so that every closed interval as long as it holds at most `maxRestarts`. */
  lemma RestartsCapped(cfg: Config, clock: int, run: seq<History>, k: nat, a: int)
    requires Run(cfg, clock, run) && k < |run|
    ensures var ts, n := run[k].performed, cfg.maxRestarts;
      && (forall i, j :: 0 <= i <= j < |ts| ==> ts[i] <= ts[j])
      && forall i :: 0 <= i && i + n < |ts| ==> ts[i + n] - ts[i] > cfg.window
    ensures CountIn(run[k].performed, a, a + cfg.window) <= cfg.maxRestarts
    ensures !run[k].s.state.Running? ==> run[k].s.live == {}
  {
    SupervisorRuns(cfg, clock, run, k);
    SpacedMeansCapped(cfg, run[k].performed, a);
    hide Run, ActedOnce, CountIn, Recent;
  }

  lemma InitCapped(cfg: Config, h: History, clock: int)
    requires Init(h, clock)
    ensures Capped(cfg, h) && h.acted == []
  {
    var s0 :| Declared(s0) && h == History(StartFrom(s0, 0, |s0.children|), [], [], clock);
    StartFromEffect(s0, 0, |s0.children|);
  }

  // ---- one exit, seen from outside ----

  /** An exit of a replaced generation is only taken off the queue. */
  lemma StaleExitIgnored(cfg: Config, s: Sup, e: Thread, now: int)
    requires forall i :: 0 <= i < |s.children| ==> s.children[i].id != e.id || s.children[i].gen != e.gen
    ensures OnExit(cfg, s, e, now) == s.(pending := s.pending - {e})
  {
    var f := Find(s.children, e);
    assert f.None?;
  }

  /** Reaping changes handles only, and only of a child in the range. */
  ghost predicate Alike(before: seq<Child>, after: seq<Child>, from: nat) {
    && from <= |before| == |after|
    && (forall i :: 0 <= i < from ==> after[i] == before[i])
    && (forall i :: from <= i < |before| ==> Restarted(after[i]) == Restarted(before[i]))
  }

  lemma ReapedAlike(before: seq<Child>, after: seq<Child>, idx: nat, from: nat)
    requires from <= idx < |before| && after == before[idx := before[idx].(join := false, stop := false, tx := false)]
    ensures Alike(before, after, from)
  {
  }

  lemma RestartedAlike(before: seq<Child>, s: Sup, s': Sup, from: nat)
    requires Alike(before, s.children, from) && RestartedFrom(s, s', from)
    ensures |s'.children| == |before|
    ensures forall i :: 0 <= i < from ==> s'.children[i] == before[i]
    ensures forall i :: from <= i < |before| ==>
      s'.children[i] == Restarted(before[i]) && ThreadOf(s'.children[i]) in s'.live
  {
    hide Restarted, ThreadOf;
  }

  /** An exit that calls for a restart within the cap: children before the range start
      are untouched, every child from there on runs one generation later. */
  lemma RestartEffect(cfg: Config, s: Sup, e: Thread, now: int, idx: nat)
    requires Inv(s) && s.state.Running? && e in s.pending && Find(s.children, e) == Some(idx)
    requires ShouldRestart(s.children[idx].policy, (cfg.crashes)(e))
    requires |Trim(s.recent + [now], now, cfg.window)| <= cfg.maxRestarts
    ensures var s' := OnExit(cfg, s, e, now); var from := RangeStart(cfg.strategy, idx);
      && from <= idx < |s.children| == |s'.children| && s'.state.Running?
      && (forall i :: 0 <= i < from ==> s'.children[i] == s.children[i])
      && (forall i :: from <= i < |s.children| ==>
        s'.children[i] == Restarted(s.children[i]) && ThreadOf(s'.children[i]) in s'.live)
  {
    ExitShape(cfg, s, e, now, idx);
    var s1 := Reap(s.(pending := s.pending - {e}), idx);
    var s2 := s1.(recent := Trim(s1.recent + [now], now, cfg.window));
    var from := RangeStart(cfg.strategy, idx);
    hide Inv, StopFrom, StartFrom, OnExit, Trim, StoppedFrom, StartedFrom, Over, Find, ShouldRestart, RestartedFrom;
    var s3 := RestartPasses(s2, from);
    ReapedAlike(s.children, s2.children, idx, from);
    RestartedAlike(s.children, s2, StartFrom(s3, from, |s.children|), from);
  }

  // ---- the order of a restart ----

  /** Children `from..upto` started, first to last. */
  function Upward(from: nat, upto: nat): seq<Act>
    requires from <= upto
    decreases upto - from
  {
    if from == upto then [] else Upward(from, upto - 1) + [Act.Up(upto - 1)]
  }

  /** Children `from..` that have a thread stopped, last to first. */
  function Downward(children: seq<Child>, from: nat): seq<Act>
    requires from <= |children|
    decreases |children| - from
  {
    if from == |children| then []
    else Downward(children, from + 1) + (if children[from].join then [Act.Down(from)] else [])
  }

  /** What these two sequences are: each index of the range once, ascending; and each index
      of the range that has a thread once, descending. */
  lemma {:induction false} UpwardIs(from: nat, upto: nat)
    requires from <= upto
    ensures |Upward(from, upto)| == upto - from
    ensures forall i :: 0 <= i < upto - from ==> Upward(from, upto)[i] == Act.Up(from + i)
    decreases upto - from
  {
    if from < upto {
      UpwardIs(from, upto - 1);
    }
  }

  lemma {:induction false} DownwardIs(children: seq<Child>, from: nat)
    requires from <= |children|
    ensures forall a :: a in Downward(children, from) <==> a.Down? && from <= a.i < |children| && children[a.i].join
    ensures forall k, l :: 0 <= k < l < |Downward(children, from)| ==>
      Downward(children, from)[k].i > Downward(children, from)[l].i
    decreases |children| - from
  {
    if from < |children| {
      DownwardIs(children, from + 1);
      var rest := Downward(children, from + 1);
      assert forall k :: 0 <= k < |rest| ==> rest[k] in rest;
    }
  }

  lemma {:induction false} StartOrder(s: Sup, from: nat, upto: nat)
    requires from <= upto <= |s.children|
    ensures StartFrom(s, from, upto).trace == s.trace + Upward(from, upto)
    decreases upto - from
  {
    if from < upto {
      StartOrder(s, from, upto - 1);
      assert (s.trace + Upward(from, upto - 1)) + [Act.Up(upto - 1)] == s.trace + Upward(from, upto);
    }
  }

  lemma {:induction false} StopOrder(s: Sup, from: nat)
    requires from <= |s.children|
    ensures StopFrom(s, from, true).trace == s.trace + Downward(s.children, from)
    ensures forall i :: 0 <= i < from ==> StopFrom(s, from, true).children[i] == s.children[i]
    decreases |s.children| - from
  {
    if from < |s.children| {
      StopOrder(s, from + 1);
      assert (s.trace + Downward(s.children, from + 1)) + [Act.Down(from)]
        == s.trace + (Downward(s.children, from + 1) + [Act.Down(from)]);
    }
  }

  /** A restart within the cap first stops the children from the range start on that have
      a thread, last to first, and then starts all of them, first to last. */
  lemma RestartOrder(cfg: Config, s: Sup, e: Thread, now: int, idx: nat)
    requires Inv(s) && s.state.Running? && e in s.pending && Find(s.children, e) == Some(idx)
    requires ShouldRestart(s.children[idx].policy, (cfg.crashes)(e))
    requires |Trim(s.recent + [now], now, cfg.window)| <= cfg.maxRestarts
    ensures var from := RangeStart(cfg.strategy, idx);
      from <= idx < |s.children|
      && OnExit(cfg, s, e, now).trace == s.trace + Downward(Reap(s, idx).children, from) + Upward(from, |s.children|)
  {
    ExitShape(cfg, s, e, now, idx);
    var s1 := Reap(s.(pending := s.pending - {e}), idx);
    var s2 := s1.(recent := Trim(s1.recent + [now], now, cfg.window));
    var from := RangeStart(cfg.strategy, idx);
    hide Inv, StopFrom, StartFrom, OnExit, Trim, Over, Find, ShouldRestart, Upward, Downward;
    StopOrder(s2, from);
    StartOrder(StopFrom(s2, from, true), from, |s.children|);
  }

  /** One excess event: the supervisor fails and every child is stopped. */
  lemma ExcessFails(cfg: Config, s: Sup, e: Thread, now: int, idx: nat)
    requires Inv(s) && s.state.Running? && e in s.pending && Find(s.children, e) == Some(idx)
    requires ShouldRestart(s.children[idx].policy, (cfg.crashes)(e))
    ensures OnExit(cfg, s, e, now).state.Failed? <==> |Trim(s.recent + [now], now, cfg.window)| > cfg.maxRestarts
    ensures OnExit(cfg, s, e, now).state.Failed? ==>
      OnExit(cfg, s, e, now).live == {} && forall i :: 0 <= i < |s.children| ==>
        !OnExit(cfg, s, e, now).children[i].join
  {
    ExitShape(cfg, s, e, now, idx);
    var s1 := Reap(s.(pending := s.pending - {e}), idx);
    var s2 := s1.(recent := Trim(s1.recent + [now], now, cfg.window));
    if |s2.recent| > cfg.maxRestarts {
      StopAllFailed(s2);
    } else {
      RestartEffect(cfg, s, e, now, idx);
    }
  }
}
