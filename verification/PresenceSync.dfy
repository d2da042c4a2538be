/** Presence across pods. Changing the local members, publishing what that calls for and
    handling what arrives are separate steps, in any order: messages may overtake. */
module PresenceSync {
  import opened Wrappers
  import opened Presence
  import J = Json

  datatype Packet = Packet(origin: Pod, msg: Msg)

  /** `outbox`: messages some thread of the pod is about to publish. */
  datatype Node = Node(topic: Option<Topic>, outbox: multiset<Msg>, inbox: multiset<Packet>) {
    function Here(): Topic {
      if topic.Some? then topic.value else NOBODY
    }
  }

  type System = seq<Node>

  datatype Action =
    | Track(p: Pod, c: Conn, e: Entry)
    | Untrack(p: Pod, c: Conn)
    | Beat(p: Pod, v: View)
    | Expire(p: Pod, now: int, interval: nat)
    | Publish(p: Pod, m: Msg)
    | Deliver(p: Pod, k: Packet, now: int, v: View)

  ghost predicate IsSnapshot(v: View, local: map<Conn, Entry>) {
    forall e :: Count(v, e) == LocalCount(local, e)
  }

  function LeaveSends(t: Topic, c: Conn): multiset<Msg> {
    if c in t.local then multiset{Leave(t.local[c])} else multiset{}
  }

  /** Handling one packet; `v` is the snapshot a request is answered with. */
  function Handled(n: Node, k: Packet, now: int, v: View): Node {
    var n' := n.(inbox := n.inbox - multiset{k});
    if k.msg.Req? then (if n.topic.Some? then n'.(outbox := n.outbox + multiset{State(v)}) else n')
    else n'.(topic := Some(Received(n.Here(), k.origin, k.msg, now)))
  }

  /** What an action needs of the pod that takes it. */
  ghost predicate Enabled(n: Node, a: Action) {
    match a
    case Track(_, _, _) => true
    case Untrack(_, _) => n.topic.Some?
    case Beat(_, v) => n.topic.Some? && IsSnapshot(v, n.Here().local)
    case Expire(_, _, _) => n.topic.Some?
    case Publish(_, m) => m in n.outbox
    case Deliver(_, k, _, v) => k in n.inbox && (k.msg.Req? ==> IsSnapshot(v, n.Here().local))
  }

  /** The pod that takes the action, afterwards. */
  function Own(n: Node, a: Action): Node {
    match a
    case Track(_, c, e) =>
      n.(topic := Some(Tracked(n.Here(), c, e)), outbox := n.outbox + multiset(TrackSends(n.Here(), c, e)))
    case Untrack(_, c) => n.(topic := Untracked(n.Here(), c), outbox := n.outbox + LeaveSends(n.Here(), c))
    case Beat(_, v) => n.(outbox := n.outbox + multiset{State(v)})
    case Expire(_, now, interval) => n.(topic := Some(Kept(n.Here(), now, interval)))
    case Publish(_, m) => n.(outbox := n.outbox - multiset{m})
    case Deliver(_, k, now, v) => Handled(n, k, now, v)
  }

  /** Any other pod: it receives what is published, if it is subscribed. */
  function Other(n: Node, a: Action): Node {
    if a.Publish? && n.Here().subscribed then n.(inbox := n.inbox + multiset{Packet(a.p, a.m)}) else n
  }

  ghost predicate Next(s: System, a: Action, s': System) {
    && a.p < |s| == |s'| && Enabled(s[a.p], a)
    && forall q :: 0 <= q < |s| ==> s'[q] == if q == a.p then Own(s[q], a) else Other(s[q], a)
  }

  ghost predicate Run(run: seq<System>, acts: seq<Action>) {
    |run| == |acts| + 1 && forall i :: 0 <= i < |acts| ==> Next(run[i], acts[i], run[i + 1])
  }

  lemma RunStep(run: seq<System>, acts: seq<Action>, i: nat)
    requires Run(run, acts) && i < |acts|
    ensures |run| == |acts| + 1 && Next(run[i], acts[i], run[i + 1])
  {
    hide Next;
  }

  // ---- what is published ----

  /** How often an action makes its pod owe its peers a message: a join for each track, a
      leave for each membership replaced or dropped, a request before the first, and a state
      for each beat and each request answered. */
  ghost function Owed(n: Node, a: Action, m: Msg): nat {
    match m
    case Join(e) => if a.Track? && a.e == e then 1 else 0
    case Leave(e) => if (a.Track? || a.Untrack?) && a.c in n.Here().local && n.Here().local[a.c] == e then 1 else 0
    case Req => if a.Track? && n.Here().local == map[] && !n.Here().subscribed then 1 else 0
    case State(v) => if (a.Beat? || (a.Deliver? && a.k.msg.Req? && n.topic.Some?)) && a.v == v then 1 else 0
  }

  /** How often pod `p` came to owe the message, and published it, in the first `k` steps. */
  ghost function Due(run: seq<System>, acts: seq<Action>, p: Pod, m: Msg, k: nat): nat
    requires k <= |acts| < |run| && forall i :: 0 <= i < |run| ==> p < |run[i]|
  {
    if k == 0 then 0
    else Due(run, acts, p, m, k - 1) + (if acts[k - 1].p == p then Owed(run[k - 1][p], acts[k - 1], m) else 0)
  }

  ghost function Published(acts: seq<Action>, p: Pod, m: Msg, k: nat): nat
    requires k <= |acts|
  {
    if k == 0 then 0 else Published(acts, p, m, k - 1) + (if acts[k - 1] == Publish(p, m) then 1 else 0)
  }

  /** How often the message was published by `p` while `q` listened, and handled by `q`. */
  ghost function Listened(run: seq<System>, acts: seq<Action>, p: Pod, q: Pod, m: Msg, k: nat): nat
    requires k <= |acts| < |run| && forall i :: 0 <= i < |run| ==> q < |run[i]|
  {
    if k == 0 then 0
    else
      Listened(run, acts, p, q, m, k - 1)
      + (if acts[k - 1] == Publish(p, m) && q != p && run[k - 1][q].Here().subscribed then 1 else 0)
  }

  ghost function Consumed(acts: seq<Action>, p: Pod, q: Pod, m: Msg, k: nat): nat
    requires k <= |acts|
  {
    if k == 0 then 0
    else
      Consumed(acts, p, q, m, k - 1)
      + (if acts[k - 1].Deliver? && acts[k - 1].p == q && acts[k - 1].k == Packet(p, m) then 1 else 0)
  }

  lemma TrackOwed(t: Topic, c: Conn, e: Entry, m: Msg)
    ensures multiset(TrackSends(t, c, e))[m]
      == (if c in t.local && m == Leave(t.local[c]) then 1 else 0)
         + (if t.local == map[] && !t.subscribed && m == Req then 1 else 0) + (if m == Join(e) then 1 else 0)
  {
    var a := if c in t.local then [Leave(t.local[c])] else [];
    var b := if t.local == map[] && !t.subscribed then [Req] else [];
    assert TrackSends(t, c, e) == a + b + [Join(e)];
    hide *;
    assert multiset(a + b + [Join(e)]) == multiset(a) + multiset(b) + multiset{Join(e)};
  }

  function Sends(n: Node, a: Action): multiset<Msg> {
    match a
    case Track(_, c, e) => multiset(TrackSends(n.Here(), c, e))
    case Untrack(_, c) => LeaveSends(n.Here(), c)
    case Beat(_, v) => multiset{State(v)}
    case Deliver(_, k, _, v) => if k.msg.Req? && n.topic.Some? then multiset{State(v)} else multiset{}
    case _ => multiset{}
  }

  lemma OutboxIs(n: Node, a: Action)
    ensures !a.Publish? ==> Own(n, a).outbox == n.outbox + Sends(n, a)
    ensures a.Publish? ==> Own(n, a).outbox == n.outbox - multiset{a.m} && Sends(n, a) == multiset{}
  {
    hide TrackSends, LeaveSends, Tracked, Untracked, Kept, Received;
    match a
    case Track(_, _, _) =>
    case Untrack(_, _) =>
    case Beat(_, _) =>
    case Expire(_, _, _) =>
    case Publish(_, _) =>
    case Deliver(_, _, _, _) =>
  }

  lemma SendsOwed(n: Node, a: Action, m: Msg)
    ensures Sends(n, a)[m] == Owed(n, a, m)
  {
    if a.Track? { TrackOwed(n.Here(), a.c, a.e, m); }
    hide TrackSends;
  }

  lemma PublishEnabled(n: Node, a: Action)
    requires Enabled(n, a)
    ensures a.Publish? ==> a.m in n.outbox
  {
    hide IsSnapshot;
  }

  lemma OutboxOf(n: Node, a: Action, m: Msg)
    requires Enabled(n, a)
    ensures Own(n, a).outbox[m] + (if a.Publish? && a.m == m then 1 else 0) == n.outbox[m] + Owed(n, a, m)
  {
    hide *;
    PublishEnabled(n, a);
    OutboxIs(n, a);
    SendsOwed(n, a, m);
  }

  lemma InboxOf(n: Node, a: Action, k: Packet)
    requires Enabled(n, a)
    ensures Own(n, a).inbox[k] + (if a.Deliver? && a.k == k then 1 else 0) == n.inbox[k]
  {
    hide IsSnapshot, Received, Kept, Tracked, Untracked, TrackSends, LeaveSends;
  }

  lemma OtherBoxes(n: Node, a: Action, m: Msg, k: Packet)
    ensures Other(n, a).outbox[m] == n.outbox[m]
    ensures Other(n, a).inbox[k]
      == n.inbox[k] + (if a.Publish? && k == Packet(a.p, a.m) && n.Here().subscribed then 1 else 0)
  {
  }

  lemma NextAt(s: System, a: Action, s': System, q: Pod)
    requires Next(s, a, s') && q < |s|
    ensures |s'| == |s| && a.p < |s| && Enabled(s[a.p], a)
    ensures s'[q] == if q == a.p then Own(s[q], a) else Other(s[q], a)
  {
    hide Own, Other, Enabled;
  }

  lemma RunSize(run: seq<System>, acts: seq<Action>)
    requires Run(run, acts)
    ensures |run| == |acts| + 1
  {
    hide Next;
  }

  lemma {:induction false} SystemSize(run: seq<System>, acts: seq<Action>, k: nat)
    requires Run(run, acts) && k < |run|
    ensures |run[k]| == |run[0]|
    decreases k
  {
    hide *;
    RunSize(run, acts);
    if k > 0 {
      SystemSize(run, acts, k - 1);
      RunStep(run, acts, k - 1);
      if |run[0]| > 0 {
        NextAt(run[k - 1], acts[k - 1], run[k], 0);
      } else {
        NoPods(run[k - 1], acts[k - 1], run[k]);
      }
    }
  }

  lemma NoPods(s: System, a: Action, s': System)
    requires Next(s, a, s')
    ensures |s| > 0
  {
    hide Own, Other, Enabled;
  }

  lemma DueStep(run: seq<System>, acts: seq<Action>, p: Pod, m: Msg, k: nat)
    requires 0 < k <= |acts| < |run| && forall i :: 0 <= i < |run| ==> p < |run[i]|
    ensures Due(run, acts, p, m, k)
      == Due(run, acts, p, m, k - 1) + (if acts[k - 1].p == p then Owed(run[k - 1][p], acts[k - 1], m) else 0)
    ensures Published(acts, p, m, k)
      == Published(acts, p, m, k - 1) + (if acts[k - 1] == Publish(p, m) then 1 else 0)
  {
    hide Owed;
  }

  lemma HeardStep(run: seq<System>, acts: seq<Action>, p: Pod, q: Pod, m: Msg, k: nat)
    requires 0 < k <= |acts| < |run| && forall i :: 0 <= i < |run| ==> q < |run[i]|
    ensures Listened(run, acts, p, q, m, k)
      == Listened(run, acts, p, q, m, k - 1)
         + (if acts[k - 1] == Publish(p, m) && q != p && run[k - 1][q].Here().subscribed then 1 else 0)
    ensures Consumed(acts, p, q, m, k)
      == Consumed(acts, p, q, m, k - 1)
         + (if acts[k - 1].Deliver? && acts[k - 1].p == q && acts[k - 1].k == Packet(p, m) then 1 else 0)
  {
  }

  lemma EveryPod(run: seq<System>, acts: seq<Action>, p: Pod)
    requires Run(run, acts) && |run| > 0 && p < |run[0]|
    ensures |run| == |acts| + 1 && forall i :: 0 <= i < |run| ==> p < |run[i]|
  {
    hide *;
    RunSize(run, acts);
    forall i | 0 <= i < |run|
      ensures p < |run[i]|
    {
      SystemSize(run, acts, i);
    }
  }

  /** In every run no message is lost, none is published twice, and none is made up: what a
      pod came to owe it has published or is about to. */
  lemma {:induction false} OutboxConserved(run: seq<System>, acts: seq<Action>, p: Pod, m: Msg, k: nat)
    requires Run(run, acts) && |run| > 0 && p < |run[0]| && run[0][p].outbox == multiset{} && k <= |acts|
    ensures |run| == |acts| + 1 && forall i :: 0 <= i < |run| ==> p < |run[i]|
    ensures run[k][p].outbox[m] + Published(acts, p, m, k) == Due(run, acts, p, m, k)
    decreases k
  {
    hide *;
    EveryPod(run, acts, p);
    if k > 0 {
      var a := acts[k - 1];
      DueStep(run, acts, p, m, k);
      OutboxConserved(run, acts, p, m, k - 1);
      RunStep(run, acts, k - 1);
      NextAt(run[k - 1], a, run[k], p);
      OutboxOf(run[k - 1][a.p], a, m);
      OtherBoxes(run[k - 1][p], a, m, Packet(p, m));
    } else {
      NothingYet(run, acts, p, m);
    }
  }

  lemma NothingYet(run: seq<System>, acts: seq<Action>, p: Pod, m: Msg)
    requires |acts| < |run| && forall i :: 0 <= i < |run| ==> p < |run[i]|
    ensures Due(run, acts, p, m, 0) == 0 && Published(acts, p, m, 0) == 0
    ensures forall q :: Consumed(acts, q, p, m, 0) == 0 && Listened(run, acts, q, p, m, 0) == 0
  {
  }

  /** And each message published while a pod listens is with it once, until it is handled. */
  lemma {:induction false} InboxConserved(run: seq<System>, acts: seq<Action>, p: Pod, q: Pod, m: Msg, k: nat)
    requires Run(run, acts) && |run| > 0 && q < |run[0]| && run[0][q].inbox == multiset{} && k <= |acts|
    ensures |run| == |acts| + 1 && forall i :: 0 <= i < |run| ==> q < |run[i]|
    ensures run[k][q].inbox[Packet(p, m)] + Consumed(acts, p, q, m, k) == Listened(run, acts, p, q, m, k)
    decreases k
  {
    hide *;
    EveryPod(run, acts, q);
    if k > 0 {
      var a := acts[k - 1];
      HeardStep(run, acts, p, q, m, k);
      InboxConserved(run, acts, p, q, m, k - 1);
      RunStep(run, acts, k - 1);
      NextAt(run[k - 1], a, run[k], q);
      InboxOf(run[k - 1][a.p], a, Packet(p, m));
      OtherBoxes(run[k - 1][q], a, m, Packet(p, m));
    } else {
      NothingYet(run, acts, q, m);
    }
  }

  // ---- every run ----

  /** A pod with members hears its peers, and nobody caches itself. */
  ghost predicate TopicSound(t: Topic, p: Pod, pods: nat) {
    (t.local != map[] ==> t.subscribed) && forall q :: q in t.remote ==> q < pods && q != p
  }

  /** Nor does a pod receive its own messages. */
  ghost predicate Sound(n: Node, p: Pod, pods: nat) {
    TopicSound(n.Here(), p, pods) && forall k :: k in n.inbox ==> k.origin < pods && k.origin != p
  }

  ghost predicate AllSound(s: System) {
    forall p :: 0 <= p < |s| ==> Sound(s[p], p, |s|)
  }

  lemma ReceivedSound(t: Topic, q: Pod, m: Msg, now: int, p: Pod, pods: nat)
    requires TopicSound(t, p, pods) && q < pods && q != p
    ensures TopicSound(Received(t, q, m, now), p, pods)
  {
    hide WithMeta, WithoutMeta, Cached;
  }

  lemma TrackSound(t: Topic, c: Conn, e: Entry, now: int, interval: nat, p: Pod, pods: nat)
    requires TopicSound(t, p, pods)
    ensures TopicSound(Tracked(t, c, e), p, pods) && TopicSound(Kept(t, now, interval), p, pods)
    ensures Untracked(t, c).Some? ==> TopicSound(Untracked(t, c).value, p, pods)
  {
  }

  lemma OwnTopicSound(n: Node, a: Action, p: Pod, pods: nat)
    requires TopicSound(n.Here(), p, pods) && Enabled(n, a) && (a.Deliver? ==> a.k.origin < pods && a.k.origin != p)
    ensures TopicSound(Own(n, a).Here(), p, pods)
  {
    var t := n.Here();
    assert TopicSound(NOBODY, p, pods);
    hide IsSnapshot, Received, TrackSends, LeaveSends, Kept, Tracked, Untracked, TopicSound;
    if a.Track? {
      TrackSound(t, a.c, a.e, 0, 0, p, pods);
    } else if a.Untrack? {
      TrackSound(t, a.c, Entry("", J.Null), 0, 0, p, pods);
    } else if a.Expire? {
      TrackSound(t, 0, Entry("", J.Null), a.now, a.interval, p, pods);
    } else if a.Deliver? {
      ReceivedSound(t, a.k.origin, a.k.msg, a.now, p, pods);
    }
  }

  lemma OwnInbox(n: Node, a: Action)
    requires Enabled(n, a)
    ensures Own(n, a).inbox <= n.inbox
  {
    hide IsSnapshot, Received, TrackSends, LeaveSends, Kept, Tracked, Untracked;
  }

  lemma OwnSound(n: Node, a: Action, p: Pod, pods: nat)
    requires Sound(n, p, pods) && Enabled(n, a)
    ensures Sound(Own(n, a), p, pods)
  {
    DeliverEnabled(n, a);
    assert TopicSound(n.Here(), p, pods) && forall k :: k in n.inbox ==> k.origin < pods && k.origin != p;
    hide *;
    OwnTopicSound(n, a, p, pods);
    OwnInbox(n, a);
    assert forall k :: k in Own(n, a).inbox ==> k in n.inbox;
    SoundIs(Own(n, a), p, pods);
  }

  lemma DeliverEnabled(n: Node, a: Action)
    requires Enabled(n, a)
    ensures a.Deliver? ==> a.k in n.inbox
  {
    hide IsSnapshot;
  }

  lemma SoundIs(n: Node, p: Pod, pods: nat)
    requires TopicSound(n.Here(), p, pods) && forall k :: k in n.inbox ==> k.origin < pods && k.origin != p
    ensures Sound(n, p, pods)
  {
    hide TopicSound;
  }

  lemma OtherSound(n: Node, a: Action, p: Pod, pods: nat)
    requires Sound(n, p, pods) && a.p < pods && a.p != p
    ensures Sound(Other(n, a), p, pods)
  {
  }

  lemma StepSound(s: System, a: Action, s': System)
    requires AllSound(s) && Next(s, a, s')
    ensures AllSound(s') && |s'| == |s|
  {
    forall p | 0 <= p < |s'|
      ensures Sound(s'[p], p, |s'|)
    {
      assert Sound(s[p], p, |s|);
      hide AllSound, Own, Other, Enabled, Sound;
      if p == a.p {
        OwnSound(s[p], a, p, |s|);
      } else {
        OtherSound(s[p], a, p, |s|);
      }
    }
  }

  lemma {:induction false} SoundRun(run: seq<System>, acts: seq<Action>, k: nat)
    requires Run(run, acts) && k <= |acts| && AllSound(run[0])
    ensures AllSound(run[k]) && |run[k]| == |run[0]|
    decreases k
  {
    hide *;
    if k > 0 {
      SoundRun(run, acts, k - 1);
      RunStep(run, acts, k - 1);
      StepSound(run[k - 1], acts[k - 1], run[k]);
    }
  }

  // ---- convergence ----

  /** Nothing older is in flight: only requests and the sender's current snapshot. */
  ghost predicate Current(m: Msg, n: Node) {
    m.Req? || (m.State? && IsSnapshot(m.view, n.Here().local))
  }

  ghost predicate CurrentOut(s: System, p: Pod)
    requires p < |s|
  {
    forall m :: m in s[p].outbox ==> Current(m, s[p])
  }

  ghost predicate CurrentIn(s: System, p: Pod)
    requires p < |s|
  {
    forall k :: k in s[p].inbox ==> k.origin < |s| && k.origin != p && Current(k.msg, s[k.origin])
  }

  ghost predicate Quiet(s: System) {
    forall p :: 0 <= p < |s| ==> CurrentOut(s, p) && CurrentIn(s, p)
  }

  predicate LocalsStable(a: Action) {
    !a.Track? && !a.Untrack?
  }

  ghost predicate SameLocals(s: System, s': System) {
    |s'| == |s| && forall p :: 0 <= p < |s| ==> s'[p].Here().local == s[p].Here().local
  }

  /** What is kept of the topic by an action that tracks and untracks nobody. */
  ghost predicate OnlyRemote(n: Node, a: Action, n': Node) {
    && n'.Here().local == n.Here().local
    && (n'.Here().remote == n.Here().remote
        || (a.Expire? && n'.Here() == Kept(n.Here(), a.now, a.interval))
        || (a.Deliver? && n'.Here() == Received(n.Here(), a.k.origin, a.k.msg, a.now)))
  }

  lemma OwnTopic(n: Node, a: Action)
    requires LocalsStable(a) && Enabled(n, a)
    ensures OnlyRemote(n, a, Own(n, a))
  {
    hide IsSnapshot, Tracked, TrackSends, Untracked, Kept, LeaveSends, Received;
    if a.Expire? {
      KeptLocal(n.Here(), a.now, a.interval);
    } else if a.Deliver? {
      ReceivedLocal(n.Here(), a.k.origin, a.k.msg, a.now);
    }
  }

  lemma KeptLocal(t: Topic, now: int, interval: nat)
    ensures Kept(t, now, interval).local == t.local
  {
  }

  lemma ReceivedLocal(t: Topic, q: Pod, m: Msg, now: int)
    ensures Received(t, q, m, now).local == t.local && (m.Req? ==> Received(t, q, m, now) == t)
  {
    hide WithMeta, WithoutMeta, Cached;
  }

  lemma ReceivedOthers(t: Topic, q: Pod, m: Msg, now: int, x: Pod)
    requires x != q
    ensures Cached(Received(t, q, m, now), x) == Cached(t, x)
  {
    hide WithMeta, WithoutMeta;
  }

  lemma KeptOthers(t: Topic, now: int, interval: nat, x: Pod)
    requires x in Kept(t, now, interval).remote
    ensures Cached(Kept(t, now, interval), x) == Cached(t, x)
  {
  }

  lemma OwnMail(n: Node, a: Action)
    requires LocalsStable(a) && Enabled(n, a)
    ensures Own(n, a).inbox <= n.inbox
    ensures forall m :: m in Own(n, a).outbox ==> m in n.outbox || (m.State? && IsSnapshot(m.view, n.Here().local))
  {
    hide IsSnapshot, Received, Kept;
  }

  lemma StableKeepsLocals(s: System, a: Action, s': System)
    requires Next(s, a, s') && LocalsStable(a)
    ensures SameLocals(s, s')
  {
    OwnTopic(s[a.p], a);
    hide Own, Enabled, LocalsStable, Received, Kept;
  }

  lemma CurrentMoves(m: Msg, n: Node, n': Node)
    requires Current(m, n) && n'.Here().local == n.Here().local
    ensures Current(m, n')
  {
  }

  lemma QuietStep(s: System, a: Action, s': System)
    requires Quiet(s) && Next(s, a, s') && LocalsStable(a)
    ensures Quiet(s') && SameLocals(s, s')
  {
    StableKeepsLocals(s, a, s');
    forall p | 0 <= p < |s'|
      ensures CurrentOut(s', p) && CurrentIn(s', p)
    {
      OutStep(s, a, s', p);
      InStep(s, a, s', p);
    }
    hide Next, CurrentOut, CurrentIn, SameLocals;
  }

  lemma OutStep(s: System, a: Action, s': System, p: Pod)
    requires Quiet(s) && Next(s, a, s') && LocalsStable(a) && SameLocals(s, s') && p < |s|
    ensures CurrentOut(s', p)
  {
    assert CurrentOut(s, p);
    OwnMail(s[a.p], a);
    hide IsSnapshot, Own, Enabled, Quiet, LocalsStable;
    forall m | m in s'[p].outbox
      ensures Current(m, s'[p])
    {
      if m in s[p].outbox {
        CurrentMoves(m, s[p], s'[p]);
      }
    }
  }

  lemma InStep(s: System, a: Action, s': System, p: Pod)
    requires Quiet(s) && Next(s, a, s') && LocalsStable(a) && SameLocals(s, s') && p < |s|
    ensures CurrentIn(s', p)
  {
    assert CurrentIn(s, p) && CurrentOut(s, a.p);
    OwnMail(s[a.p], a);
    hide IsSnapshot, Own, Quiet, LocalsStable, Current;
    forall k | k in s'[p].inbox
      ensures k.origin < |s'| && k.origin != p && Current(k.msg, s'[k.origin])
    {
      if k in s[p].inbox {
        CurrentMoves(k.msg, s[k.origin], s'[k.origin]);
      } else {
        assert a.Publish? && k == Packet(a.p, a.m);
        CurrentMoves(a.m, s[a.p], s'[a.p]);
      }
    }
  }

  /** Since the start of the run, `p` has handled a state message of `q`, and has not
      expired `q` since. */
  ghost predicate Heard(run: seq<System>, acts: seq<Action>, k: nat, p: Pod, q: Pod)
    requires Run(run, acts) && k <= |acts|
  {
    k > 0 && p < |run[k]|
    && ((acts[k - 1].Deliver? && acts[k - 1].p == p && acts[k - 1].k.origin == q && acts[k - 1].k.msg.State?)
        || (Heard(run, acts, k - 1, p, q) && q in run[k][p].Here().remote))
  }

  ghost predicate Synced(s: System, p: Pod, q: Pod)
    requires p < |s| && q < |s|
  {
    IsSnapshot(Cached(s[p].Here(), q), s[q].Here().local)
  }

  lemma {:induction false} QuietRun(run: seq<System>, acts: seq<Action>, k: nat)
    requires Run(run, acts) && Quiet(run[0]) && k <= |acts|
    requires forall i :: 0 <= i < |acts| ==> LocalsStable(acts[i])
    ensures Quiet(run[k]) && SameLocals(run[0], run[k])
    decreases k
  {
    if k > 0 {
      QuietRun(run, acts, k - 1);
      assert Next(run[k - 1], acts[k - 1], run[k - 1 + 1]);
      hide Next, Quiet;
      QuietStep(run[k - 1], acts[k - 1], run[k]);
    }
  }

  /** Handling a state message syncs, whatever the cache held before. */
  lemma StateSyncs(s: System, a: Action, s': System, q: Pod)
    requires Quiet(s) && Next(s, a, s') && a.Deliver? && a.k.origin == q && a.k.msg.State?
    ensures q < |s'| && Synced(s', a.p, q)
  {
    assert CurrentIn(s, a.p);
    hide IsSnapshot;
    assert q < |s| && q != a.p;
  }

  lemma SyncStays(s: System, a: Action, s': System, p: Pod, q: Pod)
    requires Quiet(s) && Next(s, a, s') && LocalsStable(a) && p < |s| && q < |s|
    requires Synced(s, p, q) && q in s'[p].Here().remote
    ensures Synced(s', p, q)
  {
    StableKeepsLocals(s, a, s');
    if a.Deliver? && a.p == p && a.k.origin == q && a.k.msg.State? {
      StateSyncs(s, a, s', q);
    } else {
      CacheStays(s, a, s', p, q);
    }
  }

  /** Nothing but a state message of `q`, or expiring it, changes what is cached of `q`. */
  lemma CacheStays(s: System, a: Action, s': System, p: Pod, q: Pod)
    requires Quiet(s) && Next(s, a, s') && LocalsStable(a) && p < |s| && q in s'[p].Here().remote
    requires !(a.Deliver? && a.p == p && a.k.origin == q && a.k.msg.State?)
    ensures Cached(s'[p].Here(), q) == Cached(s[p].Here(), q)
  {
    if p == a.p {
      assert CurrentIn(s, p);
      if a.Deliver? {
        assert Current(a.k.msg, s[a.k.origin]);
      }
      hide Quiet, Own, Received, Enabled, LocalsStable;
      OwnCacheStays(s[p], a, q);
    }
  }

  lemma OwnCacheStays(n: Node, a: Action, q: Pod)
    requires Enabled(n, a) && LocalsStable(a) && q in Own(n, a).Here().remote
    requires a.Deliver? ==> a.k.msg.Req? || (a.k.msg.State? && a.k.origin != q)
    ensures Cached(Own(n, a).Here(), q) == Cached(n.Here(), q)
  {
    OwnTopic(n, a);
    hide Own, Enabled, LocalsStable, Received, Kept;
    var t := n.Here();
    if a.Deliver? {
      ReceivedLocal(t, a.k.origin, a.k.msg, a.now);
      if a.k.origin != q { ReceivedOthers(t, a.k.origin, a.k.msg, a.now, q); }
    } else if a.Expire? && Own(n, a).Here() == Kept(t, a.now, a.interval) {
      KeptOthers(t, a.now, a.interval, q);
    }
  }

  lemma {:induction false} HeardSyncs(run: seq<System>, acts: seq<Action>, k: nat, p: Pod, q: Pod)
    requires Run(run, acts) && Quiet(run[0]) && k <= |acts|
    requires forall i :: 0 <= i < |acts| ==> LocalsStable(acts[i])
    requires Heard(run, acts, k, p, q)
    ensures p < |run[k]| && q < |run[k]| && Synced(run[k], p, q)
    decreases k
  {
    QuietRun(run, acts, k - 1);
    assert Next(run[k - 1], acts[k - 1], run[k - 1 + 1]);
    var a := acts[k - 1];
    if a.Deliver? && a.p == p && a.k.origin == q && a.k.msg.State? {
      StateSyncs(run[k - 1], a, run[k], q);
    } else {
      HeardSyncs(run, acts, k - 1, p, q);
      assert LocalsStable(a);
      assert |run[k]| == |run[k - 1]|;
      hide Next, Quiet, Synced;
      SyncStays(run[k - 1], a, run[k], p, q);
    }
  }

  // ---- expiry ----

  /** When the pod last handled a message of the other one that says anything of its members. */
  function LastHeard(acts: seq<Action>, p: Pod, q: Pod): Option<int> {
    if acts == [] then None
    else
      var a := acts[|acts| - 1];
      if a.Deliver? && a.p == p && a.k.origin == q && !a.k.msg.Req? then Some(a.now)
      else LastHeard(acts[..|acts| - 1], p, q)
  }

  /** A cached pod is dated with the clock reading of its last message. */
  ghost predicate Dated(n: Node, acts: seq<Action>, p: Pod, q: Pod) {
    q in n.Here().remote ==> LastHeard(acts, p, q) == Some(n.Here().remote[q].lastSeen)
  }

  lemma ReceivedSeen(t: Topic, q0: Pod, m: Msg, now: int, q: Pod)
    requires q in Received(t, q0, m, now).remote
    ensures var r := Received(t, q0, m, now).remote[q].lastSeen;
      if q == q0 && !m.Req? then r == now else q in t.remote && r == t.remote[q].lastSeen
  {
    hide WithMeta, WithoutMeta, Cached;
  }

  lemma OwnSeen(n: Node, a: Action, q: Pod)
    requires Enabled(n, a) && q in Own(n, a).Here().remote
    ensures var r := Own(n, a).Here().remote[q].lastSeen;
      if a.Deliver? && a.k.origin == q && !a.k.msg.Req? then r == a.now
      else q in n.Here().remote && r == n.Here().remote[q].lastSeen
  {
    hide IsSnapshot, TrackSends, LeaveSends;
    if a.Deliver? {
      hide Received;
      ReceivedSeen(n.Here(), a.k.origin, a.k.msg, a.now, q);
    }
  }

  lemma OwnDated(n: Node, a: Action, acts: seq<Action>, p: Pod, q: Pod)
    requires Enabled(n, a) && a.p == p && Dated(n, acts, p, q)
    ensures Dated(Own(n, a), acts + [a], p, q)
  {
    assert (acts + [a])[..|acts|] == acts;
    hide Own, Enabled;
    if q in Own(n, a).Here().remote {
      OwnSeen(n, a, q);
    }
  }

  lemma OtherDated(n: Node, a: Action, acts: seq<Action>, p: Pod, q: Pod)
    requires a.p != p && Dated(n, acts, p, q)
    ensures Dated(Other(n, a), acts + [a], p, q)
  {
    assert (acts + [a])[..|acts|] == acts;
  }

  lemma {:induction false} DatedRun(run: seq<System>, acts: seq<Action>, k: nat, p: Pod, q: Pod)
    requires Run(run, acts) && k <= |acts| && p < |run[0]| && run[0][p].topic == None
    ensures p < |run[k]| && Dated(run[k][p], acts[..k], p, q)
    decreases k
  {
    hide *;
    RunSize(run, acts);
    if k > 0 {
      DatedRun(run, acts, k - 1, p, q);
      RunStep(run, acts, k - 1);
      DatedStep(run[k - 1], acts[k - 1], run[k], acts[..k - 1], p, q);
      assert acts[..k] == acts[..k - 1] + [acts[k - 1]];
    } else {
      NothingDated(run[0][p], acts[..0], p, q);
    }
  }

  lemma NothingDated(n: Node, acts: seq<Action>, p: Pod, q: Pod)
    requires n.topic == None
    ensures Dated(n, acts, p, q)
  {
  }

  lemma DatedStep(s: System, a: Action, s': System, acts: seq<Action>, p: Pod, q: Pod)
    requires Next(s, a, s') && p < |s| && Dated(s[p], acts, p, q)
    ensures p < |s'| && Dated(s'[p], acts + [a], p, q)
  {
    hide Own, Other, Enabled, Dated;
    if a.p == p {
      OwnDated(s[p], a, acts, p, q);
    } else {
      OtherDated(s[p], a, acts, p, q);
    }
  }

  /** In every run from empty pods, a tick drops exactly the pods whose last message is more
      than two and a half intervals old, and keeps the others as they are. */
  lemma ExpiryExact(run: seq<System>, acts: seq<Action>, k: nat, p: Pod, q: Pod, now: int, interval: nat)
    requires Run(run, acts) && k < |acts| && p < |run[0]| && run[0][p].topic == None
    requires acts[k] == Expire(p, now, interval)
    ensures p < |run[k]| == |run[k + 1]|
    ensures q in run[k][p].Here().remote ==> LastHeard(acts[..k], p, q).Some?
    ensures q in run[k + 1][p].Here().remote <==>
      q in run[k][p].Here().remote && 2 * (now - LastHeard(acts[..k], p, q).value) <= 5 * interval
    ensures q in run[k + 1][p].Here().remote ==> run[k + 1][p].Here().remote[q] == run[k][p].Here().remote[q]
  {
    DatedRun(run, acts, k, p, q);
    assert Next(run[k], acts[k], run[k + 1]);
    hide Run, LastHeard;
  }

  /** How many members everywhere are tracked as `e`. */
  function Everyone(s: System, n: nat, e: Entry): nat
    requires n <= |s|
  {
    if n == 0 then 0 else Everyone(s, n - 1, e) + LocalCount(s[n - 1].Here().local, e)
  }

  lemma NoRemotes(remote: map<Pod, Remote>, e: Entry)
    requires forall q :: q !in remote
    ensures RemoteCount(remote, e) == 0
  {
    assert remote == map[];
  }

  function CountOf(remote: map<Pod, Remote>, q: Pod, e: Entry): nat {
    if q in remote then Count(remote[q].entries, e) else 0
  }

  /** A cache that is right about each pod below `n` sums to their members. */
  lemma {:induction false} CacheSum(s: System, p: Pod, remote: map<Pod, Remote>, n: nat, e: Entry)
    requires p < |s| && n <= |s| && p !in remote
    requires forall q :: q in remote ==> q < n
    requires forall q :: 0 <= q < n && q != p ==> CountOf(remote, q, e) == LocalCount(s[q].Here().local, e)
    ensures RemoteCount(remote, e) + (if p < n then LocalCount(s[p].Here().local, e) else 0) == Everyone(s, n, e)
    decreases n
  {
    hide LocalCount, Count, RemoteCount;
    if n == 0 {
      NoRemotes(remote, e);
    } else if n - 1 in remote {
      RemoteCountPick(remote, n - 1, e);
      var rest := remote - {n - 1};
      assert forall q :: q != n - 1 ==> CountOf(rest, q, e) == CountOf(remote, q, e);
      CacheSum(s, p, rest, n - 1, e);
    } else {
      CacheSum(s, p, remote, n - 1, e);
    }
  }

  /** Once locals are stable, nothing older is in flight and pod `p` has handled one state
      message of every pod with members, its list is the union of all locals. A pod
      without members must have been heard or have expired. */
  lemma Converged(run: seq<System>, acts: seq<Action>, k: nat, p: Pod, e: Entry)
    requires Run(run, acts) && AllSound(run[0]) && Quiet(run[0]) && k <= |acts| && p < |run[k]|
    requires forall i :: 0 <= i < |acts| ==> LocalsStable(acts[i])
    requires forall q :: 0 <= q < |run[k]| && q != p ==>
      Heard(run, acts, k, p, q) || (run[k][q].Here().local == map[] && q !in run[k][p].Here().remote)
    ensures Listed(run[k][p].Here(), e) == Everyone(run[k], |run[k]|, e)
  {
    var s := run[k];
    var t := s[p].Here();
    QuietRun(run, acts, k);
    SoundRun(run, acts, k);
    assert Sound(s[p], p, |s|);
    forall q | 0 <= q < |s| && q != p
      ensures CountOf(t.remote, q, e) == LocalCount(s[q].Here().local, e)
    {
      PodRight(run, acts, k, p, q, e);
    }
    hide Heard, Run, Quiet, LocalCount, Count, RemoteCount;
    CacheSum(s, p, t.remote, |s|, e);
  }

  lemma PodRight(run: seq<System>, acts: seq<Action>, k: nat, p: Pod, q: Pod, e: Entry)
    requires Run(run, acts) && Quiet(run[0]) && k <= |acts| && p < |run[k]| && q < |run[k]|
    requires forall i :: 0 <= i < |acts| ==> LocalsStable(acts[i])
    requires Heard(run, acts, k, p, q) || (run[k][q].Here().local == map[] && q !in run[k][p].Here().remote)
    ensures Count(Cached(run[k][p].Here(), q), e) == LocalCount(run[k][q].Here().local, e)
  {
    if Heard(run, acts, k, p, q) {
      HeardSyncs(run, acts, k, p, q);
    } else {
      assert Holders(map[], e) == {};
    }
  }

  // ---- one incremental message ----

  /** A join brings the cache in line with the members after the track if and only if it
      was in line with the members before it. */
  lemma JoinSyncsIff(t: Topic, q: Pod, local: map<Conn, Entry>, c: Conn, x: Entry, now: int)
    requires c !in local
    ensures IsSnapshot(Cached(Received(t, q, Join(x), now), q), local[c := x]) <==> IsSnapshot(Cached(t, q), local)
  {
    var before, after := Cached(t, q), WithMeta(Cached(t, q), x);
    forall e
      ensures Count(after, e) == LocalCount(local[c := x], e) <==> Count(before, e) == LocalCount(local, e)
    {
      hide LocalCount, Count, WithMeta;
      WithMetaCount(before, x, e);
      LocalCountSet(local, c, x, e);
    }
    hide LocalCount, Count, WithMeta;
  }

  /** The same for a leave, as long as the meta is cached. */
  lemma LeaveSyncsIff(t: Topic, q: Pod, local: map<Conn, Entry>, c: Conn, now: int)
    requires c in local && Count(Cached(t, q), local[c]) > 0
    ensures IsSnapshot(Cached(Received(t, q, Leave(local[c]), now), q), local - {c}) <==>
      IsSnapshot(Cached(t, q), local)
  {
    var before, after := Cached(t, q), WithoutMeta(Cached(t, q), local[c]);
    forall e
      ensures Count(after, e) == LocalCount(local - {c}, e) <==> Count(before, e) == LocalCount(local, e)
    {
      hide LocalCount, Count, WithoutMeta;
      WithoutMetaCount(before, local[c], e);
      LocalCountDrop(local, c, e);
    }
    hide LocalCount, Count, WithoutMeta;
  }

  // ---- a request between a track and its join ----

  lemma Alone(c: Conn, e: Entry)
    ensures IsSnapshot(One(e), map[c := e])
  {
    forall x
      ensures Count(One(e), x) == LocalCount(map[c := e], x)
    {
      AloneAt(c, e, x);
    }
    hide LocalCount, Count;
  }

  lemma AloneAt(c: Conn, e: Entry, x: Entry)
    ensures Count(One(e), x) == LocalCount(map[c := e], x)
  {
    var nobody: map<Conn, Entry> := map[];
    assert Holders(nobody, x) == {};
    assert LocalCount(nobody, x) == 0 && map[c := e] == nobody[c := e];
    hide LocalCount;
    LocalCountSet(nobody, c, e, x);
  }

  /** One more step of a run of two pods. */
  lemma PairNext(run: seq<System>, acts: seq<Action>, n0: Node, n1: Node, a: Action, m0: Node, m1: Node)
    returns (run': seq<System>, acts': seq<Action>)
    requires Run(run, acts) && run[|acts|] == [n0, n1]
    requires a.p == 0 || a.p == 1
    requires a.p == 0 ==> Enabled(n0, a) && m0 == Own(n0, a) && m1 == Other(n1, a)
    requires a.p == 1 ==> Enabled(n1, a) && m0 == Other(n0, a) && m1 == Own(n1, a)
    ensures run' == run + [[m0, m1]] && acts' == acts + [a]
    ensures Run(run', acts') && run'[|acts'|] == [m0, m1] && run'[0] == run[0]
  {
    run', acts' := run + [[m0, m1]], acts + [a];
    hide Own, Other, Enabled, Run;
    assert Next([n0, n1], a, [m0, m1]);
    RunMore(run, acts, a, [m0, m1]);
  }

  lemma RunMore(run: seq<System>, acts: seq<Action>, a: Action, s: System)
    requires Run(run, acts) && Next(run[|acts|], a, s)
    ensures Run(run + [s], acts + [a]) && |run| == |acts| + 1
  {
    hide Next;
    var run', acts' := run + [s], acts + [a];
    forall i | 0 <= i < |acts'|
      ensures Next(run'[i], acts'[i], run'[i + 1])
    {
      if i < |acts| {
        assert run'[i] == run[i] && run'[i + 1] == run[i + 1] && acts'[i] == acts[i];
      }
    }
  }

  /** Two pods: the peer's request reaches pod 1 after it inserted a track and before it
      published the join. Pod 0 then lists that member twice, with nothing of pod 1 left
      in flight but a request. */
  lemma DoubleCount(a: Entry, b: Entry) returns (run: seq<System>, acts: seq<Action>)
    requires a != b
    ensures Run(run, acts) && run[0] == [Node(None, multiset{}, multiset{}), Node(None, multiset{}, multiset{})]
    ensures var s := run[|acts|];
      && |s| == 2 && s[1].outbox == multiset{Req} && s[0].inbox == multiset{}
      && Listed(s[0].Here(), b) == 2 && Everyone(s, 2, b) == 1
  {
    var n, v := Node(None, multiset{}, multiset{}), One(b);
    var t0, t1 := Topic(map[0 := a], map[], true), Topic(map[0 := b], map[], true);
    run, acts := BothTrack(a, b, n, t0, t1);
    run, acts := RequestAnswered(run, acts, a, b, t0, t1);
    run, acts := StateThenJoin(run, acts, a, b, t0, t1);
    var t := t0.(remote := map[1 := Remote(0, WithMeta(v, b))]);
    hide Run, Listed, Everyone, WithMeta;
    TwiceListed(t, a, b);
    OnceEverywhere(run[|acts|], a, b);
  }

  lemma BothTrack(a: Entry, b: Entry, n: Node, t0: Topic, t1: Topic) returns (run: seq<System>, acts: seq<Action>)
    requires n == Node(None, multiset{}, multiset{})
    requires t0 == Topic(map[0 := a], map[], true) && t1 == Topic(map[0 := b], map[], true)
    ensures Run(run, acts) && run[0] == [n, n]
    ensures run[|acts|] == [Node(Some(t0), multiset{Req, Join(a)}, multiset{}),
      Node(Some(t1), multiset{Req, Join(b)}, multiset{})]
  {
    FirstTrack(n, 0, a);
    FirstTrack(n, 0, b);
    run, acts := [[n, n]], [];
    assert Run(run, acts);
    hide Run, Tracked, TrackSends;
    var n0, n1 := Node(Some(t0), multiset{Req, Join(a)}, multiset{}),
      Node(Some(t1), multiset{Req, Join(b)}, multiset{});
    run, acts := PairNext(run, acts, n, n, Track(0, 0, a), n0, n);
    run, acts := PairNext(run, acts, n0, n, Track(1, 0, b), n0, n1);
  }

  /** Pod 0's request, answered by pod 1 before its own join is published. */
  lemma RequestAnswered(run0: seq<System>, acts0: seq<Action>, a: Entry, b: Entry, t0: Topic, t1: Topic)
    returns (run: seq<System>, acts: seq<Action>)
    requires t0 == Topic(map[0 := a], map[], true) && t1 == Topic(map[0 := b], map[], true)
    requires Run(run0, acts0)
    requires run0[|acts0|] == [Node(Some(t0), multiset{Req, Join(a)}, multiset{}),
      Node(Some(t1), multiset{Req, Join(b)}, multiset{})]
    ensures Run(run, acts) && run[0] == run0[0]
    ensures run[|acts|] == [Node(Some(t0), multiset{Join(a)}, multiset{}),
      Node(Some(t1), multiset{Req, Join(b), State(One(b))}, multiset{})]
  {
    var n0, n1 := Node(Some(t0), multiset{Req, Join(a)}, multiset{}),
      Node(Some(t1), multiset{Req, Join(b)}, multiset{});
    var m0, m1 := Node(Some(t0), multiset{Join(a)}, multiset{}),
      Node(Some(t1), multiset{Req, Join(b)}, multiset{Packet(0, Req)});
    var k1 := Node(Some(t1), multiset{Req, Join(b), State(One(b))}, multiset{});
    RequestSent(n0, n1, m0, m1, a);
    RequestHandled(m0, m1, k1, b);
    hide Run, Own, Other, Enabled, IsSnapshot;
    run, acts := PairNext(run0, acts0, n0, n1, Publish(0, Req), m0, m1);
    run, acts := PairNext(run, acts, m0, m1, Deliver(1, Packet(0, Req), 0, One(b)), m0, k1);
  }

  lemma RequestSent(n0: Node, n1: Node, m0: Node, m1: Node, a: Entry)
    requires n0.outbox == multiset{Req, Join(a)} && m0 == n0.(outbox := multiset{Join(a)})
    requires n1.Here().subscribed && n1.inbox == multiset{} && m1 == n1.(inbox := multiset{Packet(0, Req)})
    ensures Enabled(n0, Publish(0, Req)) && Own(n0, Publish(0, Req)) == m0 && Other(n1, Publish(0, Req)) == m1
  {
    assert n0.outbox - multiset{Req} == m0.outbox;
  }

  lemma RequestHandled(m0: Node, m1: Node, k1: Node, b: Entry)
    requires m1 == Node(Some(Topic(map[0 := b], map[], true)), multiset{Req, Join(b)}, multiset{Packet(0, Req)})
    requires k1 == m1.(outbox := multiset{Req, Join(b), State(One(b))}, inbox := multiset{})
    ensures var d := Deliver(1, Packet(0, Req), 0, One(b)); Enabled(m1, d) && Own(m1, d) == k1 && Other(m0, d) == m0
  {
    Alone(0, b);
    hide IsSnapshot;
    assert m1.inbox - multiset{Packet(0, Req)} == k1.inbox;
  }

  /** The answer, then the join, reach pod 0. */
  lemma StateThenJoin(run0: seq<System>, acts0: seq<Action>, a: Entry, b: Entry, t0: Topic, t1: Topic)
    returns (run: seq<System>, acts: seq<Action>)
    requires t0 == Topic(map[0 := a], map[], true) && t1 == Topic(map[0 := b], map[], true)
    requires Run(run0, acts0)
    requires run0[|acts0|] == [Node(Some(t0), multiset{Join(a)}, multiset{}),
      Node(Some(t1), multiset{Req, Join(b), State(One(b))}, multiset{})]
    ensures Run(run, acts) && run[0] == run0[0]
    ensures run[|acts|] == [
      Node(Some(t0.(remote := map[1 := Remote(0, WithMeta(One(b), b))])), multiset{Join(a)}, multiset{}),
      Node(Some(t1), multiset{Req}, multiset{})]
  {
    var v := One(b);
    hide Run;
    run, acts := Posted(run0, acts0, t0, multiset{Join(a)}, t1, multiset{Req, Join(b), State(v)}, State(v));
    assert multiset{Req, Join(b), State(v)} - multiset{State(v)} == multiset{Req, Join(b)};
    var t2 := Received(t0, 1, State(v), 0);
    assert t2 == t0.(remote := map[1 := Remote(0, v)]);
    run, acts := Posted(run, acts, t2, multiset{Join(a)}, t1, multiset{Req, Join(b)}, Join(b));
    assert multiset{Req, Join(b)} - multiset{Join(b)} == multiset{Req};
    assert Received(t2, 1, Join(b), 0).remote == map[1 := Remote(0, WithMeta(v, b))];
  }

  /** Pod 1 publishes `m` and pod 0 handles it. */
  lemma Posted(run0: seq<System>, acts0: seq<Action>, t0: Topic, out0: multiset<Msg>, t1: Topic, out1: multiset<Msg>,
               m: Msg)
    returns (run: seq<System>, acts: seq<Action>)
    requires Run(run0, acts0) && m in out1 && !m.Req? && t0.subscribed
    requires run0[|acts0|] == [Node(Some(t0), out0, multiset{}), Node(Some(t1), out1, multiset{})]
    ensures Run(run, acts) && run[0] == run0[0]
    ensures run[|acts|] == [Node(Some(Received(t0, 1, m, 0)), out0, multiset{}),
      Node(Some(t1), out1 - multiset{m}, multiset{})]
  {
    hide Run, Received;
    var n0, n1 := Node(Some(t0), out0, multiset{}), Node(Some(t1), out1, multiset{});
    var m0, m1 := Node(Some(t0), out0, multiset{Packet(1, m)}), Node(Some(t1), out1 - multiset{m}, multiset{});
    run, acts := PairNext(run0, acts0, n0, n1, Publish(1, m), m0, m1);
    var k0 := Node(Some(Received(t0, 1, m, 0)), out0, multiset{});
    run, acts := PairNext(run, acts, m0, m1, Deliver(0, Packet(1, m), 0, map[]), k0, m1);
  }

  lemma FirstTrack(n: Node, c: Conn, e: Entry)
    requires n.topic == None && n.outbox == multiset{}
    ensures Tracked(n.Here(), c, e) == Topic(map[c := e], map[], true)
    ensures n.outbox + multiset(TrackSends(n.Here(), c, e)) == multiset{Req, Join(e)}
  {
    assert TrackSends(n.Here(), c, e) == [Req, Join(e)];
  }

  lemma TwiceListed(t: Topic, a: Entry, b: Entry)
    requires a != b && t.local == map[0 := a] && t.remote == map[1 := Remote(0, WithMeta(One(b), b))]
    ensures Listed(t, b) == 2
  {
    WithMetaCount(One(b), b, b);
    RemoteCountPick(t.remote, 1, b);
    assert t.remote - {1} == map[];
    assert Holders(t.local, b) == {};
  }

  lemma OnceEverywhere(s: System, a: Entry, b: Entry)
    requires a != b && |s| == 2 && s[0].Here().local == map[0 := a] && s[1].Here().local == map[0 := b]
    ensures Everyone(s, 2, b) == 1
  {
    assert Holders(map[0 := a], b) == {};
    assert Holders(map[0 := b], b) == {0};
    assert Everyone(s, 1, b) == Everyone(s, 0, b) + LocalCount(map[0 := a], b);
  }
}
