/** What the pooled SQLite connections are used for, transactions and single statements,
    and what a transaction that was left open does to every later use: first with one use
    at a time on the last-in-first-out stack, then with any number of threads. */
module Transactions {
  import Pool

  type Write = nat

  /** What COMMIT or ROLLBACK does: it may fail and leave the transaction open, as a busy
      database makes COMMIT do, or fail and end it. */
  datatype Ending = Ended | FailedOpen | FailedEnded

  /** What one transaction meets: the outcomes of BEGIN, the body, COMMIT and ROLLBACK, and
      the rows the body writes. */
  datatype Attempt = Attempt(beginOk: bool, writes: seq<Write>, bodyOk: bool, commit: Ending, rollback: Ending)

  /** What a statement outside `transaction` does: it may fail, and may take an open
      transaction with it, as SQLite does when the disk is full. */
  datatype Outcome = Did | DidNot | RolledBack

  datatype Use = Transaction(a: Attempt) | Statement(w: Write, outcome: Outcome)

  datatype Result = NotBegun | BodyFailed | CommitFailed | Committed | Executed | Refused

  /** `Inside`: the connection is in a transaction, where BEGIN is refused. */
  datatype Connection = Clean | Inside(pending: seq<Write>)

  /** The idle stack, its top last, and the rows every connection sees. */
  datatype Database = Database(idle: seq<Connection>, committed: seq<Write>)

  // ---- one use of one connection ----

  function Transacted(conn: Connection, committed: seq<Write>, a: Attempt): (Result, Connection, seq<Write>) {
    if conn.Inside? || !a.beginOk then (NotBegun, conn, committed)
    else if a.bodyOk then
      match a.commit
      case Ended => (Committed, Clean, committed + a.writes)
      case FailedOpen => (CommitFailed, Inside(a.writes), committed)
      case FailedEnded => (CommitFailed, Clean, committed)
    else (BodyFailed, if a.rollback == FailedOpen then Inside(a.writes) else Clean, committed)
  }

  function Stated(conn: Connection, committed: seq<Write>, w: Write, outcome: Outcome)
    : (Result, Connection, seq<Write>)
  {
    match outcome
    case Did => if conn.Inside? then (Executed, Inside(conn.pending + [w]), committed)
      else (Executed, Clean, committed + [w])
    case DidNot => (Refused, conn, committed)
    case RolledBack => (Refused, Clean, committed)
  }

  function Served(conn: Connection, committed: seq<Write>, u: Use): (Result, Connection, seq<Write>) {
    match u
    case Transaction(a) => Transacted(conn, committed, a)
    case Statement(w, outcome) => Stated(conn, committed, w, outcome)
  }

  // ---- one use at a time ----

  function Top(db: Database): Connection
    requires db.idle != []
  {
    db.idle[|db.idle| - 1]
  }

  /** A checkout pops the stack and the checkin pushes the connection back. */
  function Used(db: Database, u: Use): (r: (Result, Database))
    requires db.idle != []
    ensures |r.1.idle| == |db.idle| && r.1.idle[..|db.idle| - 1] == db.idle[..|db.idle| - 1]
  {
    var (result, conn, committed) := Served(Top(db), db.committed, u);
    (result, Database(db.idle[..|db.idle| - 1] + [conn], committed))
  }

  /** The pool under one thread; opening the database has put a first connection in it. */
  class Handle {
    var idle: seq<Connection>
    var committed: seq<Write>

    constructor ()
      ensures View() == Database([Clean], [])
    {
      idle, committed := [Clean], [];
    }

    function View(): Database
      reads this
    {
      Database(idle, committed)
    }

    /** `transaction_begin` */
    method Transact(a: Attempt) returns (r: Result)
      requires idle != []
      modifies this
      ensures (r, View()) == Used(old(View()), Transaction(a))
    {
      var conn := idle[|idle| - 1];
      idle := idle[..|idle| - 1];
      if conn.Inside? || !a.beginOk {
        r := NotBegun;
      } else {
        conn := Inside(a.writes);
        if a.bodyOk {
          if a.commit == Ended {
            committed := committed + conn.pending;
          }
          if a.commit != FailedOpen {
            conn := Clean;
          }
          r := if a.commit == Ended then Committed else CommitFailed;
        } else {
          if a.rollback != FailedOpen {
            conn := Clean;
          }
          r := BodyFailed;
        }
      }
      idle := idle + [conn];
    }

    /** `execute`, and every other statement outside `transaction`. */
    method Execute(w: Write, outcome: Outcome) returns (r: Result)
      requires idle != []
      modifies this
      ensures (r, View()) == Used(old(View()), Statement(w, outcome))
    {
      var conn := idle[|idle| - 1];
      idle := idle[..|idle| - 1];
      match outcome {
        case Did =>
          if conn.Inside? {
            conn := Inside(conn.pending + [w]);
          } else {
            committed := committed + [w];
          }
          r := Executed;
        case DidNot =>
          r := Refused;
        case RolledBack =>
          conn := Clean;
          r := Refused;
      }
      idle := idle + [conn];
    }
  }

  function After(db: Database, uses: seq<Use>): (r: Database)
    requires db.idle != []
    ensures |r.idle| == |db.idle|
  {
    if uses == [] then db else Used(After(db, uses[..|uses| - 1]), uses[|uses| - 1]).1
  }

  /** The ending after a good body, or after a bad one, fails with the transaction open. */
  predicate Opens(u: Use) {
    u.Transaction? && u.a.beginOk && (if u.a.bodyOk then u.a.commit else u.a.rollback) == FailedOpen
  }

  predicate Ends(u: Use) {
    u.Statement? && u.outcome == RolledBack
  }

  /** Some use left its transaction open, and no statement has rolled it back since. */
  ghost predicate LeftOpen(uses: seq<Use>) {
    exists i :: 0 <= i < |uses| && OpenSince(uses, i)
  }

  ghost predicate OpenSince(uses: seq<Use>, i: nat)
    requires i < |uses|
  {
    Opens(uses[i]) && forall j :: i < j < |uses| ==> !Ends(uses[j])
  }

  lemma LeftOpenMore(uses: seq<Use>, u: Use)
    ensures LeftOpen(uses + [u]) <==> Opens(u) || (LeftOpen(uses) && !Ends(u))
  {
    var more := uses + [u];
    if Opens(u) {
      assert OpenSince(more, |uses|);
    }
    if i :| 0 <= i < |uses| && OpenSince(uses, i) && !Ends(u) {
      assert OpenSince(more, i);
    }
    if i :| 0 <= i < |more| && OpenSince(more, i) && i < |uses| {
      assert more[|uses|] == u && forall j :: 0 <= j < |uses| ==> more[j] == uses[j];
      assert OpenSince(uses, i);
    }
  }

  /** The top of the stack is inside a transaction exactly when an earlier use left its
      transaction open and nothing has rolled it back since; the connections below are
      never reached, so however many clean ones lie there, they do not help. */
  lemma {:induction false} TopStuckIff(db: Database, uses: seq<Use>)
    requires db.idle != [] && Top(db) == Clean
    ensures Top(After(db, uses)).Inside? <==> LeftOpen(uses)
    ensures After(db, uses).idle[..|db.idle| - 1] == db.idle[..|db.idle| - 1]
    decreases |uses|
  {
    if uses != [] {
      var front, u := uses[..|uses| - 1], uses[|uses| - 1];
      TopStuckIff(db, front);
      LeftOpenMore(front, u);
      assert front + [u] == uses;
      assert After(db, uses) == Used(After(db, front), u).1;
      hide After, LeftOpen;
    }
  }

  /** The rows a use writes, if it reports success. */
  function Acknowledged(u: Use, r: Result): seq<Write> {
    if u.Transaction? && r == Committed then u.a.writes else if u.Statement? && r == Executed then [u.w] else []
  }

  /** After any uses: the next transaction is not begun exactly when BEGIN fails by itself
      or the stack's top was left open; and the rows a use reports as written are there
      for every connection exactly when it was not. */
  lemma SerialUse(db: Database, uses: seq<Use>, u: Use)
    requires db.idle != [] && Top(db) == Clean
    ensures var before := After(db, uses);
      var (r, after) := Used(before, u);
      && (u.Transaction? ==> (r == NotBegun <==> LeftOpen(uses) || !u.a.beginOk))
      && (after.committed == before.committed + Acknowledged(u, r) <==> !LeftOpen(uses) || Acknowledged(u, r) == [])
  {
    TopStuckIff(db, uses);
    var before := After(db, uses);
    var r := Used(before, u);
    if Acknowledged(u, r.0) != [] {
      assert |before.committed + Acknowledged(u, r.0)| > |before.committed|;
    } else {
      assert before.committed + [] == before.committed;
    }
  }

  /** Once the top was left open, and as long as no failing statement rolls it back: no
      transaction begins and nothing more is ever committed, while each single statement
      that succeeds is reported as executed and only joins the rows never committed. */
  lemma {:induction false} Starved(db: Database, uses: seq<Use>, u: Use)
    requires db.idle != [] && Top(db).Inside? && forall i :: 0 <= i < |uses| ==> !Ends(uses[i])
    ensures var before := After(db, uses);
      var (r, after) := Used(before, u);
      && before.committed == db.committed
      && Top(before).Inside? && Top(db).pending <= Top(before).pending
      && (u.Transaction? ==> r == NotBegun)
      && (u.Statement? && u.outcome == Did ==>
            r == Executed && after.committed == db.committed && Top(after) == Inside(Top(before).pending + [u.w]))
    decreases |uses|
  {
    if uses != [] {
      var front, last := uses[..|uses| - 1], uses[|uses| - 1];
      Starved(db, front, last);
      StuckStays(After(db, front), last);
    }
    hide After;
  }

  lemma StuckStays(db: Database, u: Use)
    requires db.idle != [] && Top(db).Inside? && !Ends(u)
    ensures var after := Used(db, u).1;
      after.committed == db.committed && Top(after).Inside? && Top(db).pending <= Top(after).pending
  {
  }

  // ---- many threads ----

  /** The pool with its threads, and the connections left inside a transaction. */
  datatype Shared = Shared(pool: Pool.System, stuck: set<Pool.Conn>)

  /** `u`: what the thread did with the connection it checks in. */
  datatype Event = Event(a: Pool.Action, u: Use)

  /** The SQLite pool has no discard: every connection used goes back. */
  predicate Enabled(s: Shared, e: Event) {
    Pool.Enabled(s.pool, e.a) && !e.a.Discard?
  }

  function AsConnection(stuck: bool): Connection {
    if stuck then Inside([]) else Clean
  }

  function Next(s: Shared, e: Event): Shared
    requires Enabled(s, e)
  {
    Shared(Pool.Next(s.pool, e.a),
           if !e.a.Checkin? then s.stuck
           else
             var c := s.pool.threads[e.a.t].c;
             if Served(AsConnection(c in s.stuck), [], e.u).1.Inside? then s.stuck + {c} else s.stuck - {c})
  }

  ghost predicate Run(run: seq<Shared>, events: seq<Event>) {
    && |run| == |events| + 1 && Pool.Start(run[0].pool) && run[0].pool.next == 0 && run[0].stuck == {}
    && forall i :: 0 <= i < |events| ==> Enabled(run[i], events[i]) && run[i + 1] == Next(run[i], events[i])
  }

  /** The event ends a use of the connection. */
  predicate Serves(s: Shared, e: Event, c: Pool.Conn) {
    Enabled(s, e) && e.a.Checkin? && s.pool.threads[e.a.t].c == c
  }

  ghost predicate OpenedAt(run: seq<Shared>, events: seq<Event>, c: Pool.Conn, i: nat, k: nat)
    requires i < k <= |events| <= |run|
  {
    && Serves(run[i], events[i], c) && Opens(events[i].u)
    && forall j :: i < j < k && Serves(run[j], events[j], c) ==> !Ends(events[j].u)
  }

  ghost predicate WasOpened(run: seq<Shared>, events: seq<Event>, c: Pool.Conn, k: nat)
    requires k <= |events| <= |run|
  {
    exists i :: 0 <= i < k && OpenedAt(run, events, c, i, k)
  }

  lemma ServesStuck(s: Shared, e: Event, c: Pool.Conn)
    requires Enabled(s, e)
    ensures c in Next(s, e).stuck <==>
      (if Serves(s, e, c) then Opens(e.u) || (c in s.stuck && !Ends(e.u)) else c in s.stuck)
  {
  }

  /** In every interleaving: a connection is stuck exactly when some use of it left its
      transaction open and no later statement on it rolled that back, whichever threads
      those were; nobody else's use matters. */
  lemma {:induction false} StuckIff(run: seq<Shared>, events: seq<Event>, k: nat, c: Pool.Conn)
    requires Run(run, events) && k <= |events|
    ensures c in run[k].stuck <==> WasOpened(run, events, c, k)
    decreases k
  {
    if k > 0 {
      StuckIff(run, events, k - 1, c);
      assert Enabled(run[k - 1], events[k - 1]) && run[k - 1 + 1] == Next(run[k - 1], events[k - 1]);
      ServesStuck(run[k - 1], events[k - 1], c);
      OpenedMore(run, events, k, c);
      hide *;
    }
  }

  lemma OpenedMore(run: seq<Shared>, events: seq<Event>, k: nat, c: Pool.Conn)
    requires 0 < k <= |events| <= |run|
    ensures WasOpened(run, events, c, k) <==>
      (if Serves(run[k - 1], events[k - 1], c)
       then Opens(events[k - 1].u) || (WasOpened(run, events, c, k - 1) && !Ends(events[k - 1].u))
       else WasOpened(run, events, c, k - 1))
  {
    hide Serves, Opens, Ends;
    if i: nat :| i < k && OpenedAt(run, events, c, i, k) && i < k - 1 {
      assert OpenedAt(run, events, c, i, k - 1);
    }
    if WasOpened(run, events, c, k - 1) {
      var i: nat :| i < k - 1 && OpenedAt(run, events, c, i, k - 1);
      if !Serves(run[k - 1], events[k - 1], c) || !Ends(events[k - 1].u) {
        assert OpenedAt(run, events, c, i, k);
      }
    }
    if Serves(run[k - 1], events[k - 1], c) && Opens(events[k - 1].u) {
      assert OpenedAt(run, events, c, k - 1, k);
    }
  }

  // ---- capacity ----

  function Pools(run: seq<Shared>): (r: seq<Pool.System>)
    ensures |r| == |run| && forall i :: 0 <= i < |run| ==> r[i] == run[i].pool
  {
    seq(|run|, i requires 0 <= i < |run| => run[i].pool)
  }

  function Actions(events: seq<Event>): (r: seq<Pool.Action>)
    ensures |r| == |events| && forall i :: 0 <= i < |events| ==> r[i] == events[i].a
  {
    seq(|events|, i requires 0 <= i < |events| => events[i].a)
  }

  lemma PoolSound(run: seq<Shared>, events: seq<Event>, k: nat)
    requires Run(run, events) && k <= |events|
    ensures Pool.Accounted(run[k].pool) && Pool.Exclusive(run[k].pool) && run[k].pool.max == run[0].pool.max
  {
    assert Pool.Run(Pools(run), Actions(events)) by { hide Pool.Enabled, Pool.Next; }
    Pool.PoolRuns(Pools(run), Actions(events), k);
  }

  /** Every connection ever opened is still one of the pool's, and only those get stuck. */
  ghost predicate Kept(s: Shared) {
    && s.pool.next + Pool.Count(s.pool.threads, Pool.IsDialing) == s.pool.inner.open
    && forall c :: c in s.stuck ==> c < s.pool.next
  }

  lemma KeptStep(s: Shared, e: Event)
    requires Kept(s) && Pool.Exclusive(s.pool) && Enabled(s, e)
    ensures Kept(Next(s, e))
  {
    hide Pool.Count, Served;
    var threads := s.pool.threads;
    if e.a.DialFailed? || e.a.Checkin? {
      var woken := Pool.Wake(threads, e.a.woken);
      if e.a.woken.Some? {
        Pool.CountSet(threads, e.a.woken.value, Pool.Awake, Pool.IsDialing);
      }
      assert woken[e.a.t] == threads[e.a.t];
      Pool.CountSet(woken, e.a.t, Pool.Away, Pool.IsDialing);
    } else {
      Pool.CountSet(threads, e.a.t, Pool.Next(s.pool, e.a).threads[e.a.t], Pool.IsDialing);
    }
  }

  lemma {:induction false} KeptRuns(run: seq<Shared>, events: seq<Event>, k: nat)
    requires Run(run, events) && k <= |events|
    ensures Kept(run[k])
    decreases k
  {
    if k == 0 {
      Pool.NobodyCounted(run[0].pool.threads, Pool.IsDialing);
    } else {
      KeptRuns(run, events, k - 1);
      PoolSound(run, events, k - 1);
      assert Enabled(run[k - 1], events[k - 1]) && run[k - 1 + 1] == Next(run[k - 1], events[k - 1]);
      KeptStep(run[k - 1], events[k - 1]);
      hide *;
    }
  }

  lemma {:induction false} Below(stuck: set<nat>, n: nat)
    requires forall c :: c in stuck ==> c < n
    ensures |stuck| <= n
    ensures |stuck| == n ==> forall c: nat :: c < n ==> c in stuck
    decreases n
  {
    if n == 0 {
      assert stuck == {};
    } else {
      var rest := stuck - {n - 1};
      Below(rest, n - 1);
      if n - 1 in stuck {
        assert rest + {n - 1} == stuck;
      } else {
        assert rest == stuck;
      }
    }
  }

  /** Stuck connections count against the size of the pool. Once as many are stuck as the
      pool may open, none is left to dial or wait for: any thread that holds a connection
      holds a stuck one, and no transaction begins. */
  lemma CapacityLost(run: seq<Shared>, events: seq<Event>, k: nat, t: nat, a: Attempt)
    requires Run(run, events) && k <= |events|
    requires t < |run[k].pool.threads| && run[k].pool.threads[t].Using?
    ensures |run[k].stuck| <= run[k].pool.inner.open <= run[k].pool.max == run[0].pool.max
    ensures |run[k].stuck| == run[k].pool.max ==>
      run[k].pool.threads[t].c in run[k].stuck
      && Transacted(AsConnection(run[k].pool.threads[t].c in run[k].stuck), [], a).0 == NotBegun
  {
    KeptRuns(run, events, k);
    PoolSound(run, events, k);
    Below(run[k].stuck, run[k].pool.next);
  }

  /** The thread that next takes the lock to check out gets the very connection the last
      use left open, even when clean ones lie below it, and its transaction is refused. */
  lemma StuckServedNext(s: Shared, e: Event, turn: Event, a: Attempt)
    requires Enabled(s, e) && e.a.Checkin? && Opens(e.u)
    requires turn.a.Turn? && Enabled(Next(s, e), turn)
    ensures var after := Next(Next(s, e), turn);
      var c := s.pool.threads[e.a.t].c;
      && after.pool.threads[turn.a.t] == Pool.Using(c) && c in after.stuck
      && Transacted(AsConnection(c in after.stuck), [], a).0 == NotBegun
      && after.pool.inner.idle == s.pool.inner.idle
  {
    assert Pool.Returned(s.pool.inner, s.pool.threads[e.a.t].c).idle[..|s.pool.inner.idle|] == s.pool.inner.idle;
  }
}
