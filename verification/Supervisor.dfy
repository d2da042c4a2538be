/** The supervisor's message loop over its children, their threads and the exits they
    post. An exit is posted once by each thread, when it ends; which thread ends when,
    and how, is arbitrary. */
module Supervisor {
  import opened Wrappers

  datatype Restart = Permanent | Transient | Temporary
  datatype Strategy = OneForOne | RestForOne | OneForAll
  datatype State = Running | Stopped | Failed

  /** One start of one child; also the exit it posts. */
  datatype Thread = Thread(id: nat, gen: nat)

  /** `join`, `stop` and `tx` say which handles the supervisor holds; `restarts` is
      the counter in the shared cell, bumped by every start but the first. */
  datatype Child = Child(id: nat, policy: Restart, gen: nat, restarts: nat, join: bool, stop: bool, tx: bool)

  /** `crashes(t)`: whether thread `t` ends by a panic. */
  datatype Config = Config(strategy: Strategy, maxRestarts: nat, window: nat, crashes: Thread -> bool)

  /** What is done to which child. */
  datatype Act = Up(i: nat) | Down(i: nat)

  /** The supervisor and its world: threads still running, exits not yet received, and
      what has been done to the children, in order. */
  datatype Sup = Sup(children: seq<Child>, recent: seq<int>, state: State, live: set<Thread>, pending: set<Thread>,
                     trace: seq<Act>)

  // ---- the operations, as functions ----

  /** `Child::start` */
  function StartChild(s: Sup, i: nat): Sup
    requires i < |s.children|
  {
    var c := s.children[i];
    var restarts := if c.gen > 0 then c.restarts + 1 else c.restarts;
    var c' := c.(gen := c.gen + 1, restarts := restarts, join := true, stop := true, tx := true);
    s.(children := s.children[i := c'],
       live := s.live + {Thread(c.id, c.gen + 1)},
       trace := s.trace + [Act.Up(i)])
  }

  /** `Child::stop_and_join`: the thread has ended, and posted its exit, when this returns. */
  function StopChild(s: Sup, i: nat): Sup
    requires i < |s.children|
  {
    var c := s.children[i];
    var t := Thread(c.id, c.gen);
    var ended := c.join && t in s.live;
    s.(children := s.children[i := c.(join := false, stop := false, tx := false)],
       live := if ended then s.live - {t} else s.live,
       pending := if ended then s.pending + {t} else s.pending,
       trace := s.trace + [Act.Down(i)])
  }

  /** Children `from..upto` are started, in order. */
  function StartFrom(s: Sup, from: nat, upto: nat): (s': Sup)
    requires from <= upto <= |s.children|
    ensures |s'.children| == |s.children|
    decreases upto - from
  {
    if from == upto then s else StartChild(StartFrom(s, from, upto - 1), upto - 1)
  }

  /** Children `from..` are stopped, last first, unless `onlyJoined` and not running. */
  function StopFrom(s: Sup, from: nat, onlyJoined: bool): (s': Sup)
    requires from <= |s.children|
    ensures |s'.children| == |s.children|
    decreases |s.children| - from
  {
    if from == |s.children| then s
    else
      var s1 := StopFrom(s, from + 1, onlyJoined);
      if onlyJoined && !s1.children[from].join then s1 else StopChild(s1, from)
  }

  function Find(children: seq<Child>, e: Thread): (r: Option<nat>)
    ensures r.Some? ==> r.value < |children| && children[r.value].id == e.id && children[r.value].gen == e.gen
    ensures r.None? ==> forall i :: 0 <= i < |children| ==> children[i].id != e.id || children[i].gen != e.gen
  {
    if children == [] then None
    else if children[0].id == e.id && children[0].gen == e.gen then Some(0)
    else
      match Find(children[1..], e)
      case None => None
      case Some(i) =>
        assert children[1..][i] == children[i + 1];
        Some(i + 1)
  }

  predicate ShouldRestart(policy: Restart, crashed: bool) {
    match policy
    case Permanent => true
    case Transient => crashed
    case Temporary => false
  }

  /** The events no older than the window. */
  function Trim(recent: seq<int>, now: int, window: nat): seq<int> {
    if recent != [] && now - recent[0] > window then Trim(recent[1..], now, window) else recent
  }

  /** The child the range starts at: the only thing the loop uses of the range. */
  function RangeStart(strategy: Strategy, idx: nat): nat {
    match strategy
    case OneForOne => idx
    case RestForOne => idx
    case OneForAll => 0
  }

  /** The exited child's handles are dropped. */
  function Reap(s: Sup, idx: nat): Sup
    requires idx < |s.children|
  {
    s.(children := s.children[idx := s.children[idx].(join := false, stop := false, tx := false)])
  }

  /** One exit message, received at `now`. */
  function OnExit(cfg: Config, s: Sup, e: Thread, now: int): (s': Sup)
    ensures |s'.children| == |s.children|
  {
    var s0 := s.(pending := s.pending - {e});
    match Find(s.children, e)
    case None => s0
    case Some(idx) =>
      var s1 := Reap(s0, idx);
      if !ShouldRestart(s.children[idx].policy, (cfg.crashes)(e)) then s1
      else
        var recent := Trim(s1.recent + [now], now, cfg.window);
        var s2 := s1.(recent := recent);
        if |recent| > cfg.maxRestarts then StopFrom(s2, 0, false).(state := Failed)
        else
          var from := RangeStart(cfg.strategy, idx);
          StartFrom(StopFrom(s2, from, true), from, |s.children|)
  }

  /** `SupMsg::Shutdown` */
  function OnShutdown(s: Sup): Sup {
    StopFrom(s, 0, false).(state := Stopped)
  }

  // ---- the loop itself ----

  class Runner {
    const cfg: Config
    var s: Sup

    constructor (cfg: Config, s: Sup)
      ensures this.cfg == cfg && this.s == s
    {
      this.cfg, this.s := cfg, s;
    }

    method Start(i: nat)
      requires i < |s.children|
      modifies this
      ensures s == StartChild(old(s), i)
    {
      var c := s.children[i];
      if c.gen > 0 {
        c := c.(restarts := c.restarts + 1);
      }
      c := c.(gen := c.gen + 1);
      s := s.(live := s.live + {Thread(c.id, c.gen)});
      c := c.(tx := true);
      c := c.(stop := true);
      c := c.(join := true);
      s := s.(children := s.children[i := c], trace := s.trace + [Act.Up(i)]);
    }

    method StopAndJoin(i: nat)
      requires i < |s.children|
      modifies this
      ensures s == StopChild(old(s), i)
    {
      var c := s.children[i];
      c := c.(stop := false);
      c := c.(tx := false);
      if c.join {
        var t := Thread(c.id, c.gen);
        if t in s.live {
          s := s.(live := s.live - {t}, pending := s.pending + {t});
        }
        c := c.(join := false);
      }
      s := s.(children := s.children[i := c], trace := s.trace + [Act.Down(i)]);
    }

    method StopAll()
      modifies this
      ensures s == StopFrom(old(s), 0, false)
    {
      var i := |s.children|;
      while i > 0
        invariant 0 <= i <= |s.children| == |old(s).children| && s == StopFrom(old(s), i, false)
      {
        i := i - 1;
        StopAndJoin(i);
      }
    }

    /** Stops the children from `from` on that have a thread, last first. */
    method StopRange(from: nat)
      requires from <= |s.children|
      modifies this
      ensures s == StopFrom(old(s), from, true)
    {
      var i := |s.children|;
      while i > from
        invariant from <= i <= |s.children| == |old(s).children| && s == StopFrom(old(s), i, true)
      {
        i := i - 1;
        if s.children[i].join {
          StopAndJoin(i);
        }
      }
    }

    /** Starts the children from `from` on, in order. */
    method StartRange(from: nat)
      requires from <= |s.children|
      modifies this
      ensures s == StartFrom(old(s), from, |old(s).children|)
    {
      var i := from;
      while i < |s.children|
        invariant from <= i <= |s.children| == |old(s).children| && s == StartFrom(old(s), from, i)
      {
        Start(i);
        i := i + 1;
      }
    }

    /** The body of the loop for one exit. */
    method HandleExit(e: Thread, now: int)
      modifies this
      ensures s == OnExit(cfg, old(s), e, now)
    {
      hide Find, StartFrom, StopFrom;
      s := s.(pending := s.pending - {e});
      var found := Find(s.children, e);
      if found.None? {
        return;
      }
      var idx := found.value;
      s := Reap(s, idx);
      if !ShouldRestart(s.children[idx].policy, (cfg.crashes)(e)) {
        return;
      }
      var recent := s.recent + [now];
      ghost var all := recent;
      while recent != [] && now - recent[0] > cfg.window
        invariant Trim(recent, now, cfg.window) == Trim(all, now, cfg.window)
        decreases |recent|
      {
        recent := recent[1..];
      }
      s := s.(recent := recent);
      if |recent| > cfg.maxRestarts {
        StopAll();
        s := s.(state := Failed);
        return;
      }
      var from := RangeStart(cfg.strategy, idx);
      StopRange(from);
      StartRange(from);
    }
  }
}
