/** What the restart policies and strategies promise, and exactly when one restart of the
    supervisor keeps each promise. */
module SupervisorPolicies {
  import opened Supervisor
  import opened SupervisorSafety
  import opened Wrappers

  /** `OneForOne` promises to restart only the child that exited. The loop uses the start
      of the range alone, so that holds exactly when no child was declared after it. */
  lemma OneForOneOnlyIfLast(cfg: Config, s: Sup, e: Thread, now: int, idx: nat)
    requires cfg.strategy.OneForOne? && Inv(s) && s.state.Running? && e in s.pending && Find(s.children, e) == Some(idx)
    requires ShouldRestart(s.children[idx].policy, (cfg.crashes)(e))
    requires |Trim(s.recent + [now], now, cfg.window)| <= cfg.maxRestarts
    ensures idx < |s.children|
    ensures (forall j :: 0 <= j < |s.children| && j != idx ==> OnExit(cfg, s, e, now).children[j] == s.children[j])
      <==> idx == |s.children| - 1
  {
    RestartEffect(cfg, s, e, now, idx);
    if idx < |s.children| - 1 {
      var s' := OnExit(cfg, s, e, now);
      assert s'.children[idx + 1].gen == s.children[idx + 1].gen + 1;
    }
  }

  /** `Temporary` promises never to restart a child. A sibling's restart keeps that
      promise exactly when no temporary child stands at or after the range start. */
  lemma TemporaryKeptIff(cfg: Config, s: Sup, e: Thread, now: int, idx: nat)
    requires Inv(s) && s.state.Running? && e in s.pending && Find(s.children, e) == Some(idx)
    requires ShouldRestart(s.children[idx].policy, (cfg.crashes)(e))
    requires |Trim(s.recent + [now], now, cfg.window)| <= cfg.maxRestarts
    ensures var s' := OnExit(cfg, s, e, now);
      |s'.children| == |s.children|
      && ((forall j :: 0 <= j < |s.children| && s.children[j].policy.Temporary? ==>
        s'.children[j].gen == s.children[j].gen)
          <==> (forall j :: RangeStart(cfg.strategy, idx) <= j < |s.children| ==> !s.children[j].policy.Temporary?))
  {
    RestartEffect(cfg, s, e, now, idx);
    var s' := OnExit(cfg, s, e, now);
    forall j | 0 <= j < |s.children|
      ensures s'.children[j].gen == s.children[j].gen <==> j < RangeStart(cfg.strategy, idx)
    {
    }
  }

  // ---- what one exit does ----

  /** An exit that does not exceed the cap: the child is started again, one generation later,
      if it is permanent, or transient and crashed; any other child stays down, and then no
      child but it changes at all. */
  lemma ExitDecides(cfg: Config, s: Sup, e: Thread, now: int, idx: nat)
    requires Inv(s) && s.state.Running? && e in s.pending && Find(s.children, e) == Some(idx)
    requires !OnExit(cfg, s, e, now).state.Failed?
    ensures var s', c := OnExit(cfg, s, e, now), s.children[idx];
      && |s'.children| == |s.children|
      && (if c.policy.Permanent? || (c.policy.Transient? && (cfg.crashes)(e))
          then s'.children[idx].gen == c.gen + 1 && s'.children[idx].join && Thread(c.id, c.gen + 1) in s'.live
          else s'.children[idx].gen == c.gen && !s'.children[idx].join
               && s'.live == s.live && forall j :: 0 <= j < |s.children| && j != idx ==>
                 s'.children[j] == s.children[j])
  {
    var c := s.children[idx];
    if ShouldRestart(c.policy, (cfg.crashes)(e)) {
      hide Inv, Find, ShouldRestart, OnExit, Trim;
      ExcessFails(cfg, s, e, now, idx);
      RestartEffect(cfg, s, e, now, idx);
    } else {
      hide Inv, Find;
    }
  }

  /** Which children a restart moves, strategy by strategy: all declared from the exited one
      on, under `RestForOne` and, against its documentation, under `OneForOne`; all there
      are under `OneForAll`. The others stay as they are. */
  lemma StrategyMoves(cfg: Config, s: Sup, e: Thread, now: int, idx: nat, j: nat)
    requires Inv(s) && s.state.Running? && e in s.pending && Find(s.children, e) == Some(idx)
    requires s.children[idx].policy.Permanent? || (s.children[idx].policy.Transient? && (cfg.crashes)(e))
    requires !OnExit(cfg, s, e, now).state.Failed? && j < |s.children|
    ensures var s', c := OnExit(cfg, s, e, now), s.children[j];
      && |s'.children| == |s.children|
      && (cfg.strategy.OneForAll? || j >= idx ==>
            s'.children[j].gen == c.gen + 1 && s'.children[j].join && Thread(c.id, c.gen + 1) in s'.live)
      && (!cfg.strategy.OneForAll? && j < idx ==> s'.children[j] == c)
  {
    assert ShouldRestart(s.children[idx].policy, (cfg.crashes)(e));
    hide Inv, Find, ShouldRestart, OnExit, Trim;
    ExcessFails(cfg, s, e, now, idx);
    RestartEffect(cfg, s, e, now, idx);
  }

  // ---- children that ended for good ----

  /** A child without a thread is a temporary one, or a transient one that did not crash. */
  ghost predicate EndedForGood(cfg: Config, s: Sup) {
    s.state.Running? ==>
      forall i :: 0 <= i < |s.children| && !s.children[i].join ==>
        s.children[i].policy.Temporary?
        || (s.children[i].policy.Transient? && !(cfg.crashes)(ThreadOf(s.children[i])))
  }

  lemma ExitEndedForGood(cfg: Config, s: Sup, e: Thread, now: int)
    requires Inv(s) && s.state.Running? && e in s.pending && EndedForGood(cfg, s)
    ensures EndedForGood(cfg, OnExit(cfg, s, e, now))
  {
    var found := Find(s.children, e);
    if found.Some? && ShouldRestart(s.children[found.value].policy, (cfg.crashes)(e)) {
      hide Inv, Find, ShouldRestart, OnExit, Trim;
      ExcessFails(cfg, s, e, now, found.value);
      if |Trim(s.recent + [now], now, cfg.window)| <= cfg.maxRestarts {
        RestartEffect(cfg, s, e, now, found.value);
      }
    } else {
      hide Inv, Find;
    }
  }

  /** In every run, while the supervisor is running, a child without a thread is a
      temporary one, or a transient one that stopped cleanly. */
  lemma {:induction false} EndedForGoodRuns(cfg: Config, clock: int, run: seq<History>, k: nat)
    requires Run(cfg, clock, run) && k < |run|
    ensures EndedForGood(cfg, run[k].s)
    decreases k
  {
    if k == 0 {
      InitInv(run[0], clock);
      AllStarted(run[0], clock);
    } else {
      EndedForGoodRuns(cfg, clock, run, k - 1);
      SupervisorRuns(cfg, clock, run, k - 1);
      var h, h' := run[k - 1], run[k - 1 + 1];
      assert Step(cfg, h, h') && Inv(h.s);
      hide Run, Safe, Inv, OnExit, StopFrom, ShouldRestart;
      if e, now :| TakeExit(cfg, h, h', e, now) {
        ExitEndedForGood(cfg, h.s, e, now);
      }
    }
  }

  lemma AllStarted(h: History, clock: int)
    requires Init(h, clock)
    ensures forall i :: 0 <= i < |h.s.children| ==> h.s.children[i].join
  {
    var s0 :| Declared(s0) && h == History(StartFrom(s0, 0, |s0.children|), [], [], clock);
    StartFromEffect(s0, 0, |s0.children|);
  }

  predicate StoppedCleanly(cfg: Config, c: Child) {
    c.policy.Transient? && !c.join && !(cfg.crashes)(ThreadOf(c))
  }

  /** `Transient` promises that a clean stop is final. A sibling's restart keeps that
      promise exactly when no child from the range start on has stopped cleanly. */
  lemma CleanStopFinalIff(cfg: Config, s: Sup, e: Thread, now: int, idx: nat)
    requires Inv(s) && s.state.Running? && e in s.pending && Find(s.children, e) == Some(idx)
    requires ShouldRestart(s.children[idx].policy, (cfg.crashes)(e))
    requires |Trim(s.recent + [now], now, cfg.window)| <= cfg.maxRestarts
    ensures var s' := OnExit(cfg, s, e, now);
      |s'.children| == |s.children|
      && ((forall j :: 0 <= j < |s.children| && StoppedCleanly(cfg, s.children[j]) ==> s'.children[j] == s.children[j])
          <==> (forall j :: RangeStart(cfg.strategy, idx) <= j < |s.children| ==> !StoppedCleanly(cfg, s.children[j])))
  {
    RestartEffect(cfg, s, e, now, idx);
    hide OnExit, Inv, Find, Trim, ShouldRestart;
    var s' := OnExit(cfg, s, e, now);
    forall j | 0 <= j < |s.children|
      ensures s'.children[j] == s.children[j] <==> j < RangeStart(cfg.strategy, idx)
    {
    }
  }

  // ---- runs in which the promises are broken ----

  const ONE_RESTART := Config(OneForOne, 1, 0, t => false)

  function Declaration(id: nat, policy: Restart): Child {
    Child(id, policy, 0, 0, false, false, false)
  }

  function TwoDeclared(second: Restart): Sup {
    Sup([Declaration(0, Permanent), Declaration(1, second)], [], Running, {}, {}, [])
  }

  lemma StartTwo(s: Sup)
    requires |s.children| == 2
    ensures StartFrom(s, 0, 2) == StartChild(StartChild(s, 0), 1)
  {
    assert StartFrom(s, 0, 1) == StartChild(StartFrom(s, 0, 0), 0);
  }

  lemma TwoUp(second: Restart)
    ensures var s := StartChild(StartChild(TwoDeclared(second), 0), 1);
      && s.children == [Restarted(Declaration(0, Permanent)), Restarted(Declaration(1, second))]
      && s.live == {Thread(0, 1), Thread(1, 1)} && s.recent == [] && s.pending == {} && s.state == Running
  {
  }

  /** A permanent child and a second one, both started. */
  lemma TwoStarted(second: Restart, clock: int) returns (h: History)
    ensures Init(h, clock) && h.s.state.Running? && h.s.recent == [] && h.s.pending == {} && Inv(h.s)
    ensures h.s.children == [Restarted(Declaration(0, Permanent)), Restarted(Declaration(1, second))]
    ensures h.s.live == {Thread(0, 1), Thread(1, 1)}
  {
    var s0 := TwoDeclared(second);
    h := History(StartFrom(s0, 0, 2), [], [], clock);
    assert Declared(s0);
    hide Inv, StartFrom, Declared, StartChild, Restarted, Declaration;
    assert Init(h, clock);
    hide Init;
    InitInv(h, clock);
    StartTwo(s0);
    TwoUp(second);
  }

  /** The first child ends and is restarted; so is the second, which never ended, or which
      had ended for good. */
  lemma FirstEnds(h: History, second: Restart, gone: bool) returns (h': History, h'': History)
    requires h.s.state.Running? && h.s.recent == [] && Inv(h.s) && Thread(0, 1) in h.s.live
    requires h.s.children == [Restarted(Declaration(0, Permanent)), Handles(Restarted(Declaration(1, second)), !gone)]
    ensures ThreadEnds(h, h', Thread(0, 1)) && TakeExit(ONE_RESTART, h', h'', Thread(0, 1), h.clock)
    ensures h'.s.children == h.s.children && h''.s.state.Running?
    ensures |h''.s.children| == 2 && h''.s.children[1].gen == 2 && h''.s.children[1].join && Thread(1, 2) in h''.s.live
  {
    var e, now, cfg := Thread(0, 1), h.clock, ONE_RESTART;
    h' := h.(s := h.s.(live := h.s.live - {e}, pending := h.s.pending + {e}));
    EndInv(h, h', e);
    assert Find(h'.s.children, e) == Some(0);
    assert Trim([] + [now], now, 0) == [now];
    hide Inv, Find, Trim, StartFrom, StopFrom;
    RestartEffect(cfg, h'.s, e, now, 0);
    h'' := History(OnExit(cfg, h'.s, e, now), h.performed + [now], h.acted + [e], now);
  }

  /** With one restart allowed and `OneForOne`: the first child ends, and the second, still
      running its first thread, is started a second time, be it temporary or not. */
  lemma SiblingRestarted(second: Restart, clock: int) returns (run: seq<History>)
    ensures Run(ONE_RESTART, clock, run) && |run| == 3
    ensures |run[1].s.children| == |run[2].s.children| == 2
    ensures run[1].s.children[1].policy == second && run[1].s.children[1].gen == 1 && Thread(1, 1) in run[1].s.live
    ensures run[2].s.children[1].gen == 2 && Thread(1, 2) in run[2].s.live
  {
    var h := TwoStarted(second, clock);
    hide Inv, Init, TakeExit, Declared;
    var h', h'' := FirstEnds(h, second, false);
    run := [h, h', h''];
    assert Step(ONE_RESTART, h, h') && Step(ONE_RESTART, h', h'');
  }

  /** A transient second child ends without a crash. */
  lemma SecondEnds(h: History) returns (h': History, h'': History)
    requires h.s.state.Running? && h.s.recent == [] && Inv(h.s) && h.s.live == {Thread(0, 1), Thread(1, 1)}
    requires h.s.children == [Restarted(Declaration(0, Permanent)), Restarted(Declaration(1, Transient))]
    ensures ThreadEnds(h, h', Thread(1, 1)) && TakeExit(ONE_RESTART, h', h'', Thread(1, 1), h.clock)
    ensures h''.s.state.Running? && h''.s.recent == [] && Inv(h''.s) && Thread(0, 1) in h''.s.live
    ensures h''.s.children == [h.s.children[0], Handles(h.s.children[1], false)]
  {
    var e := Thread(1, 1);
    h' := h.(s := h.s.(live := h.s.live - {e}, pending := h.s.pending + {e}));
    EndInv(h, h', e);
    FoundSecond(h'.s.children, e);
    h'' := h'.(s := OnExit(ONE_RESTART, h'.s, e, h.clock), acted := h'.acted + [e]);
    hide Inv, Find, StartFrom, StopFrom;
    ExitInv(ONE_RESTART, h'.s, e, h.clock);
  }

  lemma FoundSecond(children: seq<Child>, e: Thread)
    requires |children| == 2 && children[0].id != e.id && ThreadOf(children[1]) == e
    ensures Find(children, e) == Some(1)
  {
    assert Find(children[1..], e) == Some(0);
  }

  /** A transient second child stops cleanly and is left stopped; then the first child ends,
      and the second is started again. */
  lemma CleanStopUndone(clock: int) returns (run: seq<History>)
    ensures Run(ONE_RESTART, clock, run) && |run| == 5
    ensures |run[2].s.children| == |run[4].s.children| == 2
    ensures StoppedCleanly(ONE_RESTART, run[2].s.children[1])
    ensures run[4].s.children[1].gen == 2 && Thread(1, 2) in run[4].s.live
  {
    var h := TwoStarted(Transient, clock);
    var h1, h2 := SecondEnds(h);
    var h3, h4 := FirstEnds(h2, Transient, true);
    assert StoppedCleanly(ONE_RESTART, h2.s.children[1]);
    hide Inv, Init, TakeExit, ThreadEnds, StoppedCleanly, Handles, Restarted, Declaration;
    assert Step(ONE_RESTART, h, h1) && Step(ONE_RESTART, h1, h2);
    assert Step(ONE_RESTART, h2, h3) && Step(ONE_RESTART, h3, h4);
    hide Step, Run;
    FourSteps(ONE_RESTART, clock, h, h1, h2, h3, h4);
    run := [h, h1, h2, h3, h4];
  }

  lemma FourSteps(cfg: Config, clock: int, h: History, h1: History, h2: History, h3: History, h4: History)
    requires Init(h, clock) && Step(cfg, h, h1) && Step(cfg, h1, h2) && Step(cfg, h2, h3) && Step(cfg, h3, h4)
    ensures Run(cfg, clock, [h, h1, h2, h3, h4])
  {
    hide Init, Step;
  }
}
