/** The blocking connection pool: a mutex and a condition variable around the idle
    connections and the number open, used by any number of threads in any interleaving. */
module Pool {
  import opened Wrappers

  type Conn = nat

  /** What the mutex guards. */
  datatype Inner = Inner(idle: seq<Conn>, open: nat)

  /** What a thread does with the lock in its hand, on its way to a connection. */
  datatype Turn = Take(c: Conn) | Dial | Sleep

  // ---- the lock sections ----

  function TurnOf(inner: Inner, max: nat): Turn {
    if inner.idle != [] then Take(inner.idle[|inner.idle| - 1])
    else if inner.open < max then Dial
    else Sleep
  }

  function AfterTurn(inner: Inner, max: nat): Inner {
    match TurnOf(inner, max)
    case Take(_) => inner.(idle := inner.idle[..|inner.idle| - 1])
    case Dial => inner.(open := inner.open + 1)
    case Sleep => inner
  }

  function Returned(inner: Inner, c: Conn): Inner {
    inner.(idle := inner.idle + [c])
  }

  function Freed(inner: Inner): Inner
    requires inner.open > 0
  {
    inner.(open := inner.open - 1)
  }

  /** The guarded fields; each method is one lock section of the source. */
  class Monitor {
    const max: nat
    var idle: seq<Conn>
    var open: nat

    /** A pool holds at least one connection, whatever size is asked for. */
    constructor (size: nat)
      ensures max >= 1 && (size >= 1 ==> max == size) && View() == Inner([], 0)
    {
      max := if size < 1 then 1 else size;
      idle, open := [], 0;
    }

    function View(): Inner
      reads this
    {
      Inner(idle, open)
    }

    /** One turn of the `checkout` loop. */
    method CheckoutTurn() returns (turn: Turn)
      modifies this
      ensures turn == TurnOf(old(View()), max) && View() == AfterTurn(old(View()), max)
    {
      if idle != [] {
        var c := idle[|idle| - 1];
        idle := idle[..|idle| - 1];
        return Take(c);
      }
      if open < max {
        open := open + 1;
        return Dial;
      }
      turn := Sleep;
    }

    method Checkin(c: Conn)
      modifies this
      ensures View() == Returned(old(View()), c)
    {
      idle := idle + [c];
    }

    /** `discard`, and the roll-back of a reservation whose connection failed. */
    method Free()
      requires open > 0
      modifies this
      ensures View() == Freed(old(View()))
    {
      open := open - 1;
    }
  }

  // ---- threads ----

  /** `Awake`: about to take the lock at the head of the loop, on arrival or once woken. */
  datatype Phase = Away | Awake | Asleep | Dialing | Using(c: Conn)

  /** `next`: connections from here on have not been opened yet. */
  datatype System = System(inner: Inner, threads: seq<Phase>, max: nat, next: Conn)

  datatype Action =
    | Arrive(t: nat)
    | Turn(t: nat)
    | Dialed(t: nat)
    | DialFailed(t: nat, woken: Option<nat>)
    | Checkin(t: nat, woken: Option<nat>)
    | Discard(t: nat, woken: Option<nat>)
    | Spurious(t: nat)

  /** `notify_one`: some sleeper, if there is one, of the threads as they then are. */
  predicate Notifies(threads: seq<Phase>, woken: Option<nat>) {
    match woken
    case Some(w) => w < |threads| && threads[w].Asleep?
    case None => forall i :: 0 <= i < |threads| ==> !threads[i].Asleep?
  }

  function Wake(threads: seq<Phase>, woken: Option<nat>): seq<Phase>
    requires Notifies(threads, woken)
  {
    if woken.Some? then threads[woken.value := Awake] else threads
  }

  predicate Enabled(s: System, a: Action) {
    && a.t < |s.threads|
    && match a
       case Arrive(t) => s.threads[t].Away?
       case Turn(t) => s.threads[t].Awake?
       case Dialed(t) => s.threads[t].Dialing?
       case DialFailed(t, woken) => s.threads[t].Dialing? && s.inner.open > 0 && Notifies(s.threads, woken)
       case Checkin(t, woken) => s.threads[t].Using? && Notifies(s.threads, woken)
       case Discard(t, woken) => s.threads[t].Using? && s.inner.open > 0 && Notifies(s.threads, woken)
       case Spurious(t) => s.threads[t].Asleep?
  }

  function Next(s: System, a: Action): System
    requires Enabled(s, a)
  {
    match a
    case Arrive(t) => s.(threads := s.threads[t := Awake])
    case Turn(t) =>
      s.(inner := AfterTurn(s.inner, s.max),
         threads := s.threads[t :=
           match TurnOf(s.inner, s.max) case Take(c) => Using(c) case Dial => Dialing case Sleep => Asleep])
    case Dialed(t) => s.(threads := s.threads[t := Using(s.next)], next := s.next + 1)
    case DialFailed(t, woken) => s.(inner := Freed(s.inner), threads := Wake(s.threads, woken)[t := Away])
    case Checkin(t, woken) => s.(inner := Returned(s.inner, s.threads[t].c),
      threads := Wake(s.threads, woken)[t := Away])
    case Discard(t, woken) => s.(inner := Freed(s.inner), threads := Wake(s.threads, woken)[t := Away])
    case Spurious(t) => s.(threads := s.threads[t := Awake])
  }

  ghost predicate Run(run: seq<System>, acts: seq<Action>) {
    && |run| == |acts| + 1
    && forall i :: 0 <= i < |acts| ==> Enabled(run[i], acts[i]) && run[i + 1] == Next(run[i], acts[i])
  }

  predicate Start(s: System) {
    s.inner == Inner([], 0) && s.max >= 1 && forall i :: 0 <= i < |s.threads| ==> s.threads[i].Away?
  }

  // ---- counting threads ----

  datatype Kind = IsAwake | IsAsleep | IsHolding | IsDialing

  /** Holding a slot: using a connection or dialing one. */
  predicate Has(p: Phase, k: Kind) {
    match k
    case IsAwake => p.Awake?
    case IsAsleep => p.Asleep?
    case IsHolding => p.Using? || p.Dialing?
    case IsDialing => p.Dialing?
  }

  function Count(threads: seq<Phase>, k: Kind): nat {
    if threads == [] then 0 else Count(threads[..|threads| - 1], k) + (if Has(threads[|threads| - 1], k) then 1 else 0)
  }

  lemma {:induction false} CountSet(threads: seq<Phase>, t: nat, p: Phase, k: Kind)
    requires t < |threads|
    ensures Count(threads[t := p], k) + (if Has(threads[t], k) then 1 else 0)
      == Count(threads, k) + (if Has(p, k) then 1 else 0)
    decreases |threads|
  {
    var last := |threads| - 1;
    if t == last {
      assert threads[t := p][..last] == threads[..last];
    } else {
      assert threads[t := p][..last] == threads[..last][t := p];
      CountSet(threads[..last], t, p, k);
    }
  }

  lemma {:induction false} CountSome(threads: seq<Phase>, k: Kind)
    ensures Count(threads, k) > 0 <==> exists i :: 0 <= i < |threads| && Has(threads[i], k)
    decreases |threads|
  {
    if threads != [] {
      var front := threads[..|threads| - 1];
      CountSome(front, k);
      if i :| 0 <= i < |front| && Has(front[i], k) {
        assert Has(threads[i], k);
      }
    }
  }

  // ---- the invariant ----

  function Available(s: System): int {
    |s.inner.idle| + s.max - s.inner.open
  }

  /** Idle, used and dialing connections make up the open ones, within the cap. */
  predicate Accounted(s: System) {
    |s.inner.idle| + Count(s.threads, IsHolding) == s.inner.open <= s.max
  }

  /** While any thread sleeps, there are no more free slots than threads already awake. */
  predicate NoLostWakeup(s: System) {
    Count(s.threads, IsAsleep) > 0 ==> Available(s) <= Count(s.threads, IsAwake)
  }

  /** No connection is in two places. */
  ghost predicate Exclusive(s: System) {
    && (forall i :: 0 <= i < |s.inner.idle| ==> s.inner.idle[i] < s.next)
    && (forall i, j :: 0 <= i < j < |s.inner.idle| ==> s.inner.idle[i] != s.inner.idle[j])
    && (forall t :: 0 <= t < |s.threads| && s.threads[t].Using? ==>
      s.threads[t].c < s.next && s.threads[t].c !in s.inner.idle)
    && forall t, u :: 0 <= t < u < |s.threads| && s.threads[t].Using? && s.threads[u].Using? ==>
      s.threads[t].c != s.threads[u].c
  }

  lemma TurnCounts(s: System, t: nat, p: Phase)
    requires t < |s.threads|
    ensures var r := s.threads[t := p];
      && Count(r, IsAwake) + (if s.threads[t].Awake? then 1 else 0)
        == Count(s.threads, IsAwake) + (if p.Awake? then 1 else 0)
      && Count(r, IsAsleep) + (if s.threads[t].Asleep? then 1 else 0)
        == Count(s.threads, IsAsleep) + (if p.Asleep? then 1 else 0)
      && Count(r, IsHolding) + (if Has(s.threads[t], IsHolding) then 1 else 0)
         == Count(s.threads, IsHolding) + (if Has(p, IsHolding) then 1 else 0)
  {
    CountSet(s.threads, t, p, IsAwake);
    CountSet(s.threads, t, p, IsAsleep);
    CountSet(s.threads, t, p, IsHolding);
  }

  /** A thread gives up its slot, and wakes a sleeper if there is one. */
  lemma LeaveCounts(threads: seq<Phase>, t: nat, woken: Option<nat>)
    requires t < |threads| && Has(threads[t], IsHolding) && Notifies(threads, woken)
    ensures var r := Wake(threads, woken)[t := Away];
      && Count(r, IsHolding) == Count(threads, IsHolding) - 1
      && Count(r, IsAwake) == Count(threads, IsAwake) + (if woken.Some? then 1 else 0)
      && Count(r, IsAsleep) == Count(threads, IsAsleep) - (if woken.Some? then 1 else 0)
      && (woken.None? ==> Count(threads, IsAsleep) == 0)
  {
    var w := Wake(threads, woken);
    hide Count;
    if woken.Some? {
      CountSet(threads, woken.value, Awake, IsAwake);
      CountSet(threads, woken.value, Awake, IsAsleep);
      CountSet(threads, woken.value, Awake, IsHolding);
    } else {
      CountSome(threads, IsAsleep);
    }
    assert w[t] == threads[t];
    CountSet(w, t, Away, IsAwake);
    CountSet(w, t, Away, IsAsleep);
    CountSet(w, t, Away, IsHolding);
  }

  lemma StepAccounted(s: System, a: Action)
    requires Accounted(s) && NoLostWakeup(s) && Enabled(s, a)
    ensures Accounted(Next(s, a)) && NoLostWakeup(Next(s, a))
  {
    hide Count, Wake, Notifies;
    match a
    case Arrive(t) => TurnCounts(s, t, Awake);
    case Turn(t) => TurnCounts(s, t,
      match TurnOf(s.inner, s.max) case Take(c) => Using(c) case Dial => Dialing case Sleep => Asleep);
    case Dialed(t) => TurnCounts(s, t, Using(s.next));
    case DialFailed(t, woken) => LeaveCounts(s.threads, t, woken);
    case Checkin(t, woken) => LeaveCounts(s.threads, t, woken);
    case Discard(t, woken) => LeaveCounts(s.threads, t, woken);
    case Spurious(t) => TurnCounts(s, t, Awake);
  }

  lemma StepExclusive(s: System, a: Action)
    requires Exclusive(s) && Enabled(s, a)
    ensures Exclusive(Next(s, a))
  {
    var s' := Next(s, a);
    OthersKeep(s, a);
    assert a.DialFailed? || a.Checkin? || a.Discard? ==> !s'.threads[a.t].Using?;
    hide Enabled, Wake, Notifies;
  }

  /** Whoever uses a connection afterwards, and did not act, used it before. */
  lemma OthersKeep(s: System, a: Action)
    requires Enabled(s, a)
    ensures |Next(s, a).threads| == |s.threads|
    ensures forall u :: 0 <= u < |s.threads| && Next(s, a).threads[u].Using? && u != a.t ==>
      Next(s, a).threads[u] == s.threads[u]
  {
  }

  /** Whoever gives up a slot has one: the count of open connections never goes below
      zero, and the guard of the actions that lower it always holds. */
  lemma HolderHasSlot(s: System, t: nat)
    requires Accounted(s) && t < |s.threads| && Has(s.threads[t], IsHolding)
    ensures s.inner.open > 0
    ensures var woken := Sleeper(s.threads);
      Enabled(s, if s.threads[t].Using? then Discard(t, woken) else DialFailed(t, woken))
  {
    CountSome(s.threads, IsHolding);
  }

  lemma {:induction false} NobodyCounted(threads: seq<Phase>, k: Kind)
    requires forall i :: 0 <= i < |threads| ==> threads[i].Away?
    ensures Count(threads, k) == 0
    decreases |threads|
  {
    if threads != [] { NobodyCounted(threads[..|threads| - 1], k); }
  }

  lemma SpelledOut(s: System)
    requires Accounted(s) && Exclusive(s)
    ensures |s.inner.idle| <= s.inner.open <= s.max
    ensures forall t, u :: 0 <= t < u < |s.threads| && s.threads[t].Using? && s.threads[u].Using? ==>
      s.threads[t].c != s.threads[u].c
    ensures forall t :: 0 <= t < |s.threads| && s.threads[t].Using? ==> s.threads[t].c !in s.inner.idle
  {
    hide Count;
  }

  /** In every run, at every point: the open connections are accounted for within the
      cap, none is in two hands, and no wakeup is lost. */
  lemma {:induction false} PoolRuns(run: seq<System>, acts: seq<Action>, k: nat)
    requires Run(run, acts) && Start(run[0]) && k <= |acts|
    ensures Accounted(run[k]) && NoLostWakeup(run[k]) && Exclusive(run[k]) && run[k].max == run[0].max >= 1
    ensures |run[k].inner.idle| <= run[k].inner.open <= run[k].max
    ensures forall t, u :: 0 <= t < u < |run[k].threads| && run[k].threads[t].Using? && run[k].threads[u].Using? ==>
      run[k].threads[t].c != run[k].threads[u].c
    ensures forall t :: 0 <= t < |run[k].threads| && run[k].threads[t].Using? ==>
      run[k].threads[t].c !in run[k].inner.idle
    decreases k
  {
    if k == 0 {
      NobodyCounted(run[0].threads, IsHolding);
      NobodyCounted(run[0].threads, IsAsleep);
    } else {
      PoolRuns(run, acts, k - 1);
      assert Enabled(run[k - 1], acts[k - 1]) && run[k - 1 + 1] == Next(run[k - 1], acts[k - 1]);
      StepAccounted(run[k - 1], acts[k - 1]);
      StepExclusive(run[k - 1], acts[k - 1]);
      hide Accounted, NoLostWakeup, Exclusive, Enabled;
    }
    SpelledOut(run[k]);
  }

  // ---- everyone is served ----

  /** Progress: anything but a new arrival or a wakeup nobody sent. */
  predicate Moves(a: Action) {
    !a.Arrive? && !a.Spurious?
  }

  function Weight(p: Phase): nat {
    match p
    case Away => 0
    case Using(_) => 2
    case Dialing => 3
    case Asleep => 3
    case Awake => 4
  }

  function Work(threads: seq<Phase>): nat {
    if threads == [] then 0 else Work(threads[..|threads| - 1]) + Weight(threads[|threads| - 1])
  }

  lemma {:induction false} WorkSet(threads: seq<Phase>, t: nat, p: Phase)
    requires t < |threads|
    ensures Work(threads[t := p]) + Weight(threads[t]) == Work(threads) + Weight(p)
    decreases |threads|
  {
    var last := |threads| - 1;
    if t == last {
      assert threads[t := p][..last] == threads[..last];
    } else {
      assert threads[t := p][..last] == threads[..last][t := p];
      WorkSet(threads[..last], t, p);
    }
  }

  /** Every move uses up work. */
  lemma MoveWorks(s: System, a: Action)
    requires Enabled(s, a) && Moves(a)
    ensures Work(Next(s, a).threads) < Work(s.threads)
  {
    hide Work;
    if a.DialFailed? || a.Checkin? || a.Discard? {
      var w := Wake(s.threads, a.woken);
      if a.woken.Some? {
        WorkSet(s.threads, a.woken.value, Awake);
      }
      assert w[a.t] == s.threads[a.t];
      WorkSet(w, a.t, Away);
    } else {
      WorkSet(s.threads, a.t, Next(s, a).threads[a.t]);
    }
  }

  /** As long as some thread is not away, some move is possible: a sleeper always leaves
      behind a thread that will act, or a free slot already claimed by one awake. */
  lemma SomeoneMoves(s: System, t: nat) returns (a: Action)
    requires Accounted(s) && NoLostWakeup(s) && s.max >= 1 && t < |s.threads| && !s.threads[t].Away?
    ensures Enabled(s, a) && Moves(a)
  {
    if s.threads[t].Awake? {
      a := Turn(t);
    } else if s.threads[t].Dialing? {
      a := Dialed(t);
    } else if s.threads[t].Using? {
      a := Checkin(t, Sleeper(s.threads));
    } else {
      CountSome(s.threads, IsAsleep);
      assert Has(s.threads[t], IsAsleep);
      CountSome(s.threads, IsAwake);
      CountSome(s.threads, IsHolding);
      if Count(s.threads, IsAwake) > 0 {
        var u :| 0 <= u < |s.threads| && Has(s.threads[u], IsAwake);
        a := Turn(u);
      } else {
        var u :| 0 <= u < |s.threads| && Has(s.threads[u], IsHolding);
        a := if s.threads[u].Dialing? then Dialed(u) else Checkin(u, Sleeper(s.threads));
      }
    }
  }

  function Sleeper(threads: seq<Phase>): (r: Option<nat>)
    ensures Notifies(threads, r)
  {
    if threads == [] then None
    else if threads[|threads| - 1].Asleep? then Some(|threads| - 1)
    else Sleeper(threads[..|threads| - 1])
  }

  /** A run of moves is no longer than the work at its start. */
  lemma {:induction false} MovesEnd(run: seq<System>, acts: seq<Action>, from: nat, k: nat)
    requires Run(run, acts) && from <= k <= |acts| && forall i :: from <= i < |acts| ==> Moves(acts[i])
    ensures Work(run[k].threads) + (k - from) <= Work(run[from].threads)
    decreases k
  {
    hide *;
    if k > from {
      MovesEnd(run, acts, from, k - 1);
      StepAt(run, acts, k - 1);
      MoveWorks(run[k - 1], acts[k - 1]);
    }
  }

  lemma StepAt(run: seq<System>, acts: seq<Action>, i: nat)
    requires Run(run, acts) && i < |acts|
    ensures |run| == |acts| + 1 && Enabled(run[i], acts[i]) && run[i + 1] == Next(run[i], acts[i])
  {
    hide Enabled, Next;
  }

  /** Once no thread arrives any more, and wakeups are only those sent, a run of moves
      ends after boundedly many; and it ends only when every thread has had its
      connection, or its error, and is away. No waiter is left asleep. */
  lemma EveryoneServed(run: seq<System>, acts: seq<Action>, from: nat)
    requires Run(run, acts) && Start(run[0]) && from <= |acts|
    requires forall i :: from <= i < |acts| ==> Moves(acts[i])
    ensures |acts| - from <= Work(run[from].threads)
    ensures (forall a :: !(Enabled(run[|acts|], a) && Moves(a))) ==>
      forall t :: 0 <= t < |run[|acts|].threads| ==> run[|acts|].threads[t].Away?
  {
    MovesEnd(run, acts, from, |acts|);
    PoolRuns(run, acts, |acts|);
    var s := run[|acts|];
    if t :| 0 <= t < |s.threads| && !s.threads[t].Away? {
      var a := SomeoneMoves(s, t);
      hide Enabled;
    }
  }
}
