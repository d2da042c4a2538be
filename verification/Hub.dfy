/** The channel hub: who joined what, who is in which topic, and which broker
    subscriptions are live, changed in separate lock sections by many threads. */
module Hub {
  import opened Wrappers

  type Conn = nat
  type Topic = string
  /** One admitted membership, numbered in order of admission. */
  type Mid = nat
  type Sub = nat

  datatype Reason = Left | Rejoined | Kicked | Disconnected
  datatype Key = Key(c: Conn, t: Topic)
  datatype Entry = Entry(sub: Sub, members: set<Conn>)

  /** A teardown that has removed its join: the topic map, the broker and the leave
      callback are still to come. */
  datatype Phase = Forget | Unsub(sub: Sub) | Callback
  datatype Teardown = Teardown(k: Key, phase: Phase, reason: Reason)

  /** Where a connection's own thread stands; its messages are handled one at a time. */
  datatype Own = Ready | Joining(t: Topic) | Admitting(t: Topic) | Closing(rest: set<Topic>)

  /** `own`: the open connections. `subs`: the live subscriptions. `left`: the leave
      callbacks that have run. */
  datatype Hub = Hub(own: map<Conn, Own>, joins: map<Key, Mid>, topics: map<Topic, Entry>, subs: map<Sub, Topic>,
                     flight: map<Mid, Teardown>, left: seq<(Mid, Reason)>, nextMid: Mid, nextSub: Sub)

  const START := Hub(map[], map[], map[], map[], map[], [], 0, 0)

  // ---- the lock sections ----

  /** The first lock section of `teardown`: no join, nothing to tear down. */
  function Detach(h: Hub, k: Key, reason: Reason): Hub {
    if k in h.joins then
      h.(joins := h.joins - {k}, flight := h.flight[h.joins[k] := Teardown(k, Forget, reason)])
    else h
  }

  /** `forget_member`, under the topics lock: the last member takes the entry with it. */
  function Forgotten(topics: map<Topic, Entry>, k: Key): (map<Topic, Entry>, Phase) {
    if k.t !in topics then (topics, Callback)
    else
      var e := topics[k.t];
      var members := e.members - {k.c};
      if members == {} then (topics - {k.t}, Unsub(e.sub)) else (topics[k.t := e.(members := members)], Callback)
  }

  /** The second half of `admit`: the entry, with a subscription if it is new. */
  function Entered(h: Hub, k: Key): Hub {
    if k.t in h.topics then h.(topics := h.topics[k.t := h.topics[k.t].(members := h.topics[k.t].members + {k.c})])
    else
      h.(topics := h.topics[k.t := Entry(h.nextSub, {k.c})], subs := h.subs[h.nextSub := k.t],
         nextSub := h.nextSub + 1)
  }

  datatype Action =
    | Open(c: Conn)
    | Join(c: Conn, t: Topic)
    | Refuse(c: Conn)
    | AdmitConn(c: Conn)
    | AdmitTopic(c: Conn)
    | Leave(c: Conn, t: Topic)
    | Kick(k: Key)
    | StartClose(c: Conn)
    | CloseOne(c: Conn, t: Topic)
    | EndClose(c: Conn)
    | DoForget(m: Mid)
    | DoUnsub(m: Mid)
    | DoCallback(m: Mid)

  /** The order of a thread's own steps. */
  predicate Enabled(h: Hub, a: Action) {
    match a
    case Open(c) => c !in h.own
    case Join(c, _) => c in h.own && h.own[c].Ready?
    case Refuse(c) => c in h.own && h.own[c].Joining?
    case AdmitConn(c) => c in h.own && h.own[c].Joining?
    case AdmitTopic(c) => c in h.own && h.own[c].Admitting?
    case Leave(c, _) => c in h.own && h.own[c].Ready?
    case Kick(_) => true
    case StartClose(c) => c in h.own && h.own[c].Ready?
    case CloseOne(c, t) => c in h.own && h.own[c].Closing? && t in h.own[c].rest
    case EndClose(c) => c in h.own && h.own[c] == Closing({})
    case DoForget(m) => m in h.flight && h.flight[m].phase.Forget?
    case DoUnsub(m) => m in h.flight && h.flight[m].phase.Unsub?
    case DoCallback(m) => m in h.flight && h.flight[m].phase.Callback?
  }

  /** The topics a connection holds: what closing goes through. */
  function Held(h: Hub, c: Conn): set<Topic> {
    set k | k in h.joins && k.c == c :: k.t
  }

  function Next(h: Hub, a: Action): Hub
    requires Enabled(h, a)
  {
    match a
    case Open(c) => h.(own := h.own[c := Ready])
    case Join(c, t) => Detach(h, Key(c, t), Rejoined).(own := h.own[c := Joining(t)])
    case Refuse(c) => h.(own := h.own[c := Ready])
    case AdmitConn(c) =>
      h.(own := h.own[c := Admitting(h.own[c].t)], joins := h.joins[Key(c, h.own[c].t) := h.nextMid],
        nextMid := h.nextMid + 1)
    case AdmitTopic(c) => Entered(h, Key(c, h.own[c].t)).(own := h.own[c := Ready])
    case Leave(c, t) => Detach(h, Key(c, t), Left)
    case Kick(k) => Detach(h, k, Kicked)
    case StartClose(c) => h.(own := h.own[c := Closing(Held(h, c))])
    case CloseOne(c, t) => Detach(h, Key(c, t), Disconnected).(own := h.own[c := Closing(h.own[c].rest - {t})])
    case EndClose(c) => h.(own := h.own - {c}, joins := map k | k in h.joins && k.c != c :: h.joins[k])
    case DoForget(m) =>
      var (topics, phase) := Forgotten(h.topics, h.flight[m].k);
      h.(topics := topics, flight := h.flight[m := h.flight[m].(phase := phase)])
    case DoUnsub(m) =>
      h.(subs := h.subs - {h.flight[m].phase.sub}, flight := h.flight[m := h.flight[m].(phase := Callback)])
    case DoCallback(m) => h.(flight := h.flight - {m}, left := h.left + [(m, h.flight[m].reason)])
  }

  ghost predicate Run(run: seq<Hub>, acts: seq<Action>) {
    && |run| == |acts| + 1 && run[0] == START
    && forall i :: 0 <= i < |acts| ==> Enabled(run[i], acts[i]) && run[i + 1] == Next(run[i], acts[i])
  }

  // ---- where one membership stands ----

  predicate Member(h: Hub, k: Key) {
    k.t in h.topics && k.c in h.topics[k.t].members
  }

  /** Between the two halves of the admission. */
  predicate Entering(h: Hub, k: Key) {
    k.c in h.own && h.own[k.c] == Admitting(k.t)
  }

  predicate IsForget(d: Teardown, k: Key) {
    d.phase.Forget? && d.k == k
  }

  /** Between the join going and the member being forgotten. */
  ghost predicate Forgetting(h: Hub, k: Key) {
    exists m :: m in h.flight && IsForget(h.flight[m], k)
  }

  // ---- what every run keeps, whatever overlaps ----

  /** A join belongs to an open connection and fits what its thread is doing. */
  predicate Tidy(h: Hub) {
    && (forall k :: k in h.joins ==> k.c in h.own && h.own[k.c] != Joining(k.t))
    && (forall k :: k in h.joins && h.own[k.c].Closing? ==> k.t in h.own[k.c].rest)
  }

  predicate Inhabited(h: Hub) {
    forall t :: t in h.topics ==> h.topics[t].members != {}
  }

  // ---- memberships ----

  ghost predicate Numbered(h: Hub) {
    && (forall k :: k in h.joins ==> h.joins[k] < h.nextMid && h.joins[k] !in h.flight)
    && (forall k, l :: k in h.joins && l in h.joins && h.joins[k] == h.joins[l] ==> k == l)
    && (forall m :: m in h.flight ==> m < h.nextMid)
  }

  ghost predicate LeftOnce(h: Hub) {
    && (forall i :: 0 <= i < |h.left| ==> h.left[i].0 < h.nextMid && h.left[i].0 !in h.flight)
    && (forall i, k :: 0 <= i < |h.left| && k in h.joins ==> h.left[i].0 != h.joins[k])
    && (forall i, j :: 0 <= i < j < |h.left| ==> h.left[i].0 != h.left[j].0)
  }

  ghost predicate Holds(h: Hub, m: Mid) {
    exists k :: k in h.joins && h.joins[k] == m
  }

  ghost predicate HasLeft(h: Hub, m: Mid) {
    exists i :: 0 <= i < |h.left| && h.left[i].0 == m
  }

  /** Every membership ever admitted is held, being torn down, or has had its callback. */
  ghost predicate AllThere(h: Hub) {
    forall m: Mid :: m < h.nextMid ==> Holds(h, m) || m in h.flight || HasLeft(h, m)
  }

  // ---- subscriptions ----

  ghost predicate SubsOfTopics(h: Hub) {
    && (forall t :: t in h.topics ==> h.topics[t].sub in h.subs && h.subs[h.topics[t].sub] == t)
    && (forall s :: s in h.subs ==> s < h.nextSub)
  }

  predicate SameUnsub(a: Teardown, b: Teardown) {
    a.phase.Unsub? && a.phase == b.phase
  }

  ghost predicate SubsInFlight(h: Hub) {
    && (forall m :: m in h.flight && h.flight[m].phase.Unsub? ==> h.flight[m].phase.sub in h.subs)
    && (forall m, t :: m in h.flight && h.flight[m].phase.Unsub? && t in h.topics ==>
      h.flight[m].phase.sub != h.topics[t].sub)
    && (forall m, n :: m in h.flight && n in h.flight && SameUnsub(h.flight[m], h.flight[n]) ==> m == n)
  }

  ghost predicate Backs(h: Hub, s: Sub) {
    exists t :: t in h.topics && h.topics[t].sub == s
  }

  ghost predicate Ending(h: Hub, s: Sub) {
    exists m :: m in h.flight && h.flight[m].phase == Unsub(s)
  }

  ghost predicate NoStraySubs(h: Hub) {
    forall s :: s in h.subs ==> Backs(h, s) || Ending(h, s)
  }

  // ---- one step: joins and entries ----

  lemma StepTidy(h: Hub, a: Action)
    requires Tidy(h) && Enabled(h, a)
    ensures Tidy(Next(h, a))
  {
    hide Tidy, Detach, Entered, Forgotten;
    var h' := Next(h, a);
    match a
    case Join(c, t) => TidyDetach(h, Key(c, t), Rejoined); TidyOwn(Detach(h, Key(c, t), Rejoined), c, h');
    case CloseOne(c, t) => TidyDetach(h, Key(c, t), Disconnected); TidyOwn(Detach(h, Key(c, t), Disconnected), c, h');
    case Leave(c, t) => TidyDetach(h, Key(c, t), Left);
    case Kick(k) => TidyDetach(h, k, Kicked);
    case AdmitConn(c) => TidyAdmit(h, c);
    case EndClose(c) => TidyEnd(h, c);
    case Open(c) => TidyOwn(h, c, h');
    case Refuse(c) => TidyOwn(h, c, h');
    case AdmitTopic(c) => EnteredJoins(h, Key(c, h.own[c].t)); TidyOwn(h, c, h');
    case StartClose(c) => TidyOwn(h, c, h');
    case DoForget(m) => TidySame(h, h');
    case DoUnsub(m) => TidySame(h, h');
    case DoCallback(m) => TidySame(h, h');
  }

  lemma EnteredJoins(h: Hub, k: Key)
    ensures Entered(h, k).joins == h.joins && Entered(h, k).own == h.own
  {
  }

  lemma TidySame(h: Hub, h': Hub)
    requires Tidy(h) && h'.joins == h.joins && h'.own == h.own
    ensures Tidy(h')
  {
  }

  /** One thread moves on: to a topic it has not joined, or to close all it has. */
  lemma TidyOwn(h: Hub, c: Conn, h': Hub)
    requires Tidy(h) && h'.joins == h.joins && c in h'.own && h'.own == h.own[c := h'.own[c]]
    requires h'.own[c].Joining? ==> Key(c, h'.own[c].t) !in h.joins
    requires h'.own[c].Closing? ==>
      h'.own[c].rest == Held(h, c)
      || (c in h.own && h.own[c].Closing? && exists t :: Key(c, t) !in h.joins && h'.own[c].rest == h.own[c].rest - {t})
    ensures Tidy(h')
  {
    forall k | k in h'.joins && h'.own[k.c].Closing?
      ensures k.t in h'.own[k.c].rest
    {
      assert k.c == c ==> k.t in Held(h, c);
    }
  }

  lemma TidyAdmit(h: Hub, c: Conn)
    requires Tidy(h) && Enabled(h, AdmitConn(c))
    ensures Tidy(Next(h, AdmitConn(c)))
  {
  }

  lemma TidyEnd(h: Hub, c: Conn)
    requires Tidy(h) && Enabled(h, EndClose(c))
    ensures Tidy(Next(h, EndClose(c)))
  {
  }

  lemma TidyDetach(h: Hub, k: Key, reason: Reason)
    requires Tidy(h)
    ensures Tidy(Detach(h, k, reason)) && k !in Detach(h, k, reason).joins && Detach(h, k, reason).own == h.own
  {
  }

  /** All a connection's joins are gone when it is. */
  lemma ClosedEmpty(h: Hub, c: Conn)
    requires Tidy(h) && Enabled(h, EndClose(c))
    ensures Next(h, EndClose(c)).joins == h.joins
  {
  }

  lemma StepInhabited(h: Hub, a: Action)
    requires Inhabited(h) && Enabled(h, a)
    ensures Inhabited(Next(h, a))
  {
  }

  // ---- one step: memberships ----

  lemma NumberedDetach(h: Hub, k: Key, reason: Reason)
    requires Numbered(h)
    ensures Numbered(Detach(h, k, reason))
  {
  }

  ghost predicate OnceEach(h: Hub) {
    Numbered(h) && LeftOnce(h) && AllThere(h)
  }

  lemma OnceDetach(h: Hub, k0: Key, reason: Reason)
    requires OnceEach(h)
    ensures OnceEach(Detach(h, k0, reason))
  {
    NumberedDetach(h, k0, reason);
    if k0 in h.joins {
      var h' := Detach(h, k0, reason);
      assert LeftOnce(h') by { hide AllThere; }
      forall m: Mid | m < h'.nextMid
        ensures Holds(h', m) || m in h'.flight || HasLeft(h', m)
      {
        assert Holds(h, m) || m in h.flight || HasLeft(h, m);
        if Holds(h, m) && m !in h'.flight {
          var k :| k in h.joins && h.joins[k] == m;
          assert k in h'.joins && h'.joins[k] == m;
        }
      }
      hide Numbered, LeftOnce, Detach;
    }
  }

  lemma OnceAdmit(h: Hub, c: Conn)
    requires OnceEach(h) && Tidy(h) && Enabled(h, AdmitConn(c))
    ensures OnceEach(Next(h, AdmitConn(c)))
  {
    var k := Key(c, h.own[c].t);
    assert k !in h.joins by { hide OnceEach; }
    var h' := Next(h, AdmitConn(c));
    assert h'.joins == h.joins[k := h.nextMid] && h'.flight == h.flight && h'.left == h.left
      && h'.nextMid == h.nextMid + 1;
    hide Tidy, Numbered, LeftOnce, AllThere, Next, Enabled;
    AdmitNumbered(h, k, h');
    AdmitLeft(h, k, h');
    AdmitThere(h, k, h');
  }

  lemma AdmitNumbered(h: Hub, k0: Key, h': Hub)
    requires Numbered(h) && k0 !in h.joins
    requires h'.joins == h.joins[k0 := h.nextMid] && h'.flight == h.flight && h'.nextMid == h.nextMid + 1
    ensures Numbered(h')
  {
  }

  lemma AdmitLeft(h: Hub, k0: Key, h': Hub)
    requires LeftOnce(h) && k0 !in h.joins
    requires h'.joins == h.joins[k0 := h.nextMid] && h'.flight == h.flight && h'.left == h.left
      && h'.nextMid == h.nextMid + 1
    ensures LeftOnce(h')
  {
  }

  lemma AdmitThere(h: Hub, k0: Key, h': Hub)
    requires AllThere(h) && k0 !in h.joins
    requires h'.joins == h.joins[k0 := h.nextMid] && h'.flight == h.flight && h'.left == h.left
      && h'.nextMid == h.nextMid + 1
    ensures AllThere(h')
  {
    forall m: Mid | m < h'.nextMid
      ensures Holds(h', m) || m in h'.flight || HasLeft(h', m)
    {
      if m == h.nextMid {
        assert k0 in h'.joins && h'.joins[k0] == m;
      } else {
        assert Holds(h, m) || m in h.flight || HasLeft(h, m);
        if Holds(h, m) {
          var k :| k in h.joins && h.joins[k] == m;
          assert k in h'.joins && h'.joins[k] == m;
        }
      }
    }
    hide Holds, HasLeft;
  }

  lemma OnceCallback(h: Hub, m0: Mid)
    requires OnceEach(h) && Enabled(h, DoCallback(m0))
    ensures OnceEach(Next(h, DoCallback(m0)))
  {
    var h' := Next(h, DoCallback(m0));
    CallbackLeft(h, m0);
    assert Numbered(h') by { hide AllThere, LeftOnce; }
    hide Numbered, LeftOnce;
    forall m: Mid | m < h'.nextMid
      ensures Holds(h', m) || m in h'.flight || HasLeft(h', m)
    {
      assert Holds(h, m) || m in h.flight || HasLeft(h, m);
      if m == m0 {
        assert h'.left[|h.left|].0 == m;
      } else if HasLeft(h, m) {
        var i :| 0 <= i < |h.left| && h.left[i].0 == m;
        assert h'.left[i] == h.left[i];
      }
    }
  }

  lemma CallbackLeft(h: Hub, m0: Mid)
    requires Numbered(h) && LeftOnce(h) && Enabled(h, DoCallback(m0))
    ensures LeftOnce(Next(h, DoCallback(m0)))
  {
  }

  /** Nothing that concerns memberships changes. */
  lemma OnceSame(h: Hub, h': Hub)
    requires OnceEach(h) && h'.joins == h.joins && h'.flight.Keys == h.flight.Keys && h'.left == h.left
      && h'.nextMid == h.nextMid
    ensures OnceEach(h')
  {
    assert forall m :: m in h'.flight <==> m in h.flight.Keys;
    assert Numbered(h') by { hide AllThere, LeftOnce; }
    assert LeftOnce(h') by { hide AllThere, Numbered; }
    forall m: Mid | m < h'.nextMid
      ensures Holds(h', m) || m in h'.flight || HasLeft(h', m)
    {
      assert Holds(h, m) || m in h.flight || HasLeft(h, m);
    }
    hide Numbered, LeftOnce;
  }

  lemma StepOnce(h: Hub, a: Action)
    requires OnceEach(h) && Tidy(h) && Enabled(h, a)
    ensures OnceEach(Next(h, a))
  {
    hide OnceEach, Forgotten, Held, Tidy;
    match a
    case Join(c, t) =>
      OnceDetach(h, Key(c, t), Rejoined);
      OnceSame(Detach(h, Key(c, t), Rejoined), Next(h, a));
    case AdmitConn(c) => OnceAdmit(h, c);
    case Leave(c, t) => OnceDetach(h, Key(c, t), Left);
    case Kick(k) => OnceDetach(h, k, Kicked);
    case CloseOne(c, t) =>
      OnceDetach(h, Key(c, t), Disconnected);
      OnceSame(Detach(h, Key(c, t), Disconnected), Next(h, a));
    case EndClose(c) =>
      ClosedEmpty(h, c);
      OnceSame(h, Next(h, a));
    case DoCallback(m) => OnceCallback(h, m);
    case DoForget(m) => OnceSame(h, Next(h, a));
    case DoUnsub(m) => OnceSame(h, Next(h, a));
    case Open(c) => OnceSame(h, Next(h, a));
    case Refuse(c) => OnceSame(h, Next(h, a));
    case AdmitTopic(c) => OnceSame(h, Next(h, a));
    case StartClose(c) => OnceSame(h, Next(h, a));
  }

  // ---- one step: subscriptions ----

  ghost predicate Subscribed(h: Hub) {
    SubsOfTopics(h) && SubsInFlight(h) && NoStraySubs(h)
  }

  /** Nothing that concerns subscriptions changes: the topics, what is subscribed, and
      what is about to be unsubscribed. */
  lemma SubscribedSame(h: Hub, h': Hub)
    requires Subscribed(h) && h'.subs == h.subs && h'.nextSub == h.nextSub && h'.topics == h.topics
    requires forall m :: m in h'.flight && h'.flight[m].phase.Unsub? ==> m in h.flight && h'.flight[m] == h.flight[m]
    requires forall m :: m in h.flight && h.flight[m].phase.Unsub? ==> m in h'.flight && h'.flight[m] == h.flight[m]
    ensures Subscribed(h')
  {
    forall s | s in h'.subs
      ensures Backs(h', s) || Ending(h', s)
    {
      assert Backs(h, s) || Ending(h, s);
      if Ending(h, s) {
        var m :| m in h.flight && h.flight[m].phase == Unsub(s);
        assert m in h'.flight;
      }
    }
    hide Backs, Ending;
  }

  lemma SubscribedEnter(h: Hub, k: Key)
    requires Subscribed(h)
    ensures Subscribed(Entered(h, k))
  {
    EnterStray(h, k);
    EnterTopics(h, k);
    EnterFlight(h, k);
    hide Entered, NoStraySubs, SubsOfTopics, SubsInFlight;
  }

  lemma EnterTopics(h: Hub, k: Key)
    requires SubsOfTopics(h)
    ensures SubsOfTopics(Entered(h, k))
  {
  }

  lemma EnterFlight(h: Hub, k: Key)
    requires SubsInFlight(h) && SubsOfTopics(h)
    ensures SubsInFlight(Entered(h, k))
  {
    hide SameUnsub;
  }

  lemma EnterStray(h: Hub, k: Key)
    requires NoStraySubs(h)
    ensures NoStraySubs(Entered(h, k))
  {
    var h' := Entered(h, k);
    forall s | s in h'.subs
      ensures Backs(h', s) || Ending(h', s)
    {
      if s in h.subs {
        assert Backs(h, s) || Ending(h, s);
        if t :| t in h.topics && h.topics[t].sub == s {
          assert t in h'.topics && h'.topics[t].sub == s;
        } else {
          var m :| m in h.flight && h.flight[m].phase == Unsub(s);
          assert m in h'.flight;
        }
      } else {
        assert k.t in h'.topics && h'.topics[k.t].sub == s;
      }
    }
  }

  lemma SubscribedForget(h: Hub, m0: Mid)
    requires Subscribed(h) && Enabled(h, DoForget(m0))
    ensures Subscribed(Next(h, DoForget(m0)))
  {
    var h' := Next(h, DoForget(m0));
    ForgetSubs(h.topics, h.flight[m0].k);
    var phase := Forgotten(h.topics, h.flight[m0].k).1;
    assert h'.topics == Forgotten(h.topics, h.flight[m0].k).0 && h'.flight[m0].phase == phase;
    hide Forgotten;
    forall s | s in h'.subs
      ensures Backs(h', s) || Ending(h', s)
    {
      assert Backs(h, s) || Ending(h, s);
      if t :| t in h.topics && h.topics[t].sub == s {
        assert t in h'.topics || h'.flight[m0].phase == Unsub(s);
      } else {
        var m :| m in h.flight && h.flight[m].phase == Unsub(s);
        assert m in h'.flight && h'.flight[m] == h.flight[m];
      }
    }
    ForgetTopics(h, h');
    SubsForgotten(h, h', m0);
    hide Backs, Ending, SubsOfTopics, SubsInFlight, Next, Enabled;
  }

  lemma ForgetTopics(h: Hub, h': Hub)
    requires SubsOfTopics(h) && h'.subs == h.subs && h'.nextSub == h.nextSub
    requires forall t :: t in h'.topics ==> t in h.topics && h'.topics[t].sub == h.topics[t].sub
    ensures SubsOfTopics(h')
  {
  }

  /** What forgetting a member does to the entries: each keeps its subscription, and one
      that goes hands it over to be unsubscribed. */
  lemma ForgetSubs(topics: map<Topic, Entry>, k: Key)
    ensures var (r, phase) := Forgotten(topics, k);
      && (forall t :: t in r ==> t in topics && r[t].sub == topics[t].sub)
      && (forall t :: t in topics && t !in r ==> t == k.t && phase == Unsub(topics[t].sub))
      && (phase.Unsub? ==> k.t in topics && k.t !in r && phase.sub == topics[k.t].sub)
      && !phase.Forget?
  {
  }

  lemma SubsForgotten(h: Hub, h': Hub, m0: Mid)
    requires SubsOfTopics(h) && SubsInFlight(h) && m0 in h.flight && h.flight[m0].phase.Forget? && h'.subs == h.subs
    requires h'.flight.Keys == h.flight.Keys && forall m :: m in h.flight && m != m0 ==> h'.flight[m] == h.flight[m]
    requires forall t :: t in h'.topics ==> t in h.topics && h'.topics[t].sub == h.topics[t].sub
    requires h'.flight[m0].phase.Unsub? ==>
      h.flight[m0].k.t in h.topics && h.flight[m0].k.t !in h'.topics
        && h'.flight[m0].phase.sub == h.topics[h.flight[m0].k.t].sub
    ensures SubsInFlight(h')
  {
    assert forall m :: m in h'.flight <==> m in h.flight;
  }

  lemma SubscribedUnsub(h: Hub, m0: Mid)
    requires Subscribed(h) && Enabled(h, DoUnsub(m0))
    ensures Subscribed(Next(h, DoUnsub(m0)))
  {
    UnsubStray(h, m0);
    UnsubFlight(h, m0);
    hide NoStraySubs;
    assert h.flight[m0].phase.Unsub?;
    assert SubsOfTopics(Next(h, DoUnsub(m0)));
    hide SubsInFlight, SubsOfTopics, Next, Enabled;
  }

  lemma UnsubStray(h: Hub, m0: Mid)
    requires NoStraySubs(h) && Enabled(h, DoUnsub(m0))
    ensures NoStraySubs(Next(h, DoUnsub(m0)))
  {
    var h' := Next(h, DoUnsub(m0));
    forall s | s in h'.subs
      ensures Backs(h', s) || Ending(h', s)
    {
      assert Backs(h, s) || Ending(h, s);
      if t :| t in h.topics && h.topics[t].sub == s {
        assert t in h'.topics;
      } else {
        var m :| m in h.flight && h.flight[m].phase == Unsub(s);
        assert m in h'.flight && h'.flight[m] == h.flight[m];
      }
    }
  }

  lemma UnsubFlight(h: Hub, m0: Mid)
    requires SubsInFlight(h) && Enabled(h, DoUnsub(m0))
    ensures SubsInFlight(Next(h, DoUnsub(m0)))
  {
    assert forall m :: m in h.flight && h.flight[m].phase.Unsub? && m != m0 ==> !SameUnsub(h.flight[m], h.flight[m0]);
  }

  lemma SubscribedDetach(h: Hub, k: Key, reason: Reason)
    requires Subscribed(h) && Numbered(h)
    ensures Subscribed(Detach(h, k, reason))
  {
    hide Subscribed;
    SubscribedSame(h, Detach(h, k, reason));
  }

  /** Not even the teardowns change. */
  lemma SubscribedStill(h: Hub, h': Hub)
    requires Subscribed(h) && h'.subs == h.subs && h'.nextSub == h.nextSub && h'.topics == h.topics
      && h'.flight == h.flight
    ensures Subscribed(h')
  {
    hide Subscribed;
    SubscribedSame(h, h');
  }

  lemma StepSubscribed(h: Hub, a: Action)
    requires Subscribed(h) && Numbered(h) && Enabled(h, a)
    ensures Subscribed(Next(h, a))
  {
    hide Subscribed, Numbered, Forgotten, Held, Detach, Entered;
    match a
    case AdmitTopic(c) =>
      SubscribedEnter(h, Key(c, h.own[c].t));
      SubscribedStill(Entered(h, Key(c, h.own[c].t)), Next(h, a));
    case DoForget(m) => SubscribedForget(h, m);
    case DoUnsub(m) => SubscribedUnsub(h, m);
    case DoCallback(m) => SubscribedSame(h, Next(h, a));
    case Join(c, t) =>
      SubscribedDetach(h, Key(c, t), Rejoined);
      SubscribedStill(Detach(h, Key(c, t), Rejoined), Next(h, a));
    case Leave(c, t) => SubscribedDetach(h, Key(c, t), Left);
    case Kick(k) => SubscribedDetach(h, k, Kicked);
    case CloseOne(c, t) =>
      SubscribedDetach(h, Key(c, t), Disconnected);
      SubscribedStill(Detach(h, Key(c, t), Disconnected), Next(h, a));
    case Open(c) => SubscribedStill(h, Next(h, a));
    case Refuse(c) => SubscribedStill(h, Next(h, a));
    case AdmitConn(c) => SubscribedStill(h, Next(h, a));
    case StartClose(c) => SubscribedStill(h, Next(h, a));
    case EndClose(c) => SubscribedStill(h, Next(h, a));
  }

  // ---- every run ----

  ghost predicate Sound(h: Hub) {
    Tidy(h) && Inhabited(h) && OnceEach(h) && Subscribed(h)
  }

  lemma StepSound(h: Hub, a: Action)
    requires Sound(h) && Enabled(h, a)
    ensures Sound(Next(h, a))
  {
    StepTidy(h, a);
    StepInhabited(h, a);
    StepOnce(h, a);
    assert Numbered(h);
    StepSubscribed(h, a);
    hide Tidy, Inhabited, OnceEach, Subscribed, Next, Enabled;
  }

  /** In every run, whatever overlaps: joins belong to open connections, entries have
      members, each membership is in one place, and subscriptions are accounted for. */
  lemma {:induction false} HubRuns(run: seq<Hub>, acts: seq<Action>, n: nat)
    requires Run(run, acts) && n <= |acts|
    ensures Sound(run[n])
    decreases n
  {
    if n == 0 {
      StartSound();
    } else {
      HubRuns(run, acts, n - 1);
      var h, a := run[n - 1], acts[n - 1];
      assert Enabled(h, a) && run[n - 1 + 1] == Next(h, a);
      hide Run, Enabled, Sound, Next;
      StepSound(h, a);
    }
  }

  lemma StartSound()
    ensures Sound(START)
  {
    assert Tidy(START) && OnceEach(START) && Subscribed(START);
  }

  // ---- one step and one membership ----

  lemma KeyDetached(h: Hub, k0: Key, reason: Reason, k: Key)
    requires Numbered(h)
    ensures var h' := Detach(h, k0, reason);
      && h'.own == h.own
      && (Member(h', k) <==> Member(h, k)) && (Entering(h', k) <==> Entering(h, k))
      && (k in h'.joins <==> k in h.joins && k != k0)
      && (Forgetting(h', k) <==> Forgetting(h, k) || (k == k0 && k in h.joins))
  {
    var h' := Detach(h, k0, reason);
    if m :| m in h.flight && IsForget(h.flight[m], k) {
      assert m in h'.flight && IsForget(h'.flight[m], k);
    }
    if k0 in h.joins && k == k0 {
      assert IsForget(h'.flight[h.joins[k0]], k);
    }
  }

  /** A teardown moves on; the others stay where they were. */
  lemma KeyMoved(h: Hub, h': Hub, m: Mid, k: Key)
    requires m in h.flight && (m in h'.flight ==> !h'.flight[m].phase.Forget?)
    requires forall n :: n != m ==> (n in h'.flight <==> n in h.flight)
    requires forall n :: n != m && n in h.flight ==> h'.flight[n] == h.flight[n]
    ensures Forgetting(h', k) ==> Forgetting(h, k)
    ensures Forgetting(h, k) && !IsForget(h.flight[m], k) ==> Forgetting(h', k)
  {
    if n :| n in h'.flight && IsForget(h'.flight[n], k) {
      assert n != m && n in h.flight && IsForget(h.flight[n], k);
    }
    if n :| n in h.flight && IsForget(h.flight[n], k) && !IsForget(h.flight[m], k) {
      assert n in h'.flight && IsForget(h'.flight[n], k);
    }
  }

  lemma ForgottenMember(topics: map<Topic, Entry>, k0: Key, k: Key)
    ensures var r := Forgotten(topics, k0).0;
      (k.t in r && k.c in r[k.t].members) <==> (k.t in topics && k.c in topics[k.t].members && k != k0)
  {
    if k0.t in topics && k.t == k0.t {
      assert k.c in topics[k0.t].members - {k0.c} <==> k.c in topics[k0.t].members && k.c != k0.c;
    }
  }

  predicate Detaches(a: Action, k: Key) {
    match a
    case Join(c, t) => k == Key(c, t)
    case Leave(c, t) => k == Key(c, t)
    case CloseOne(c, t) => k == Key(c, t)
    case Kick(k0) => k == k0
    case _ => false
  }

  predicate Admits(h: Hub, a: Action, k: Key) {
    Enabled(h, a) && a.AdmitConn? && k == Key(a.c, h.own[a.c].t)
  }

  predicate Enters(h: Hub, a: Action, k: Key) {
    Enabled(h, a) && a.AdmitTopic? && k == Key(a.c, h.own[a.c].t)
  }

  predicate Forgets(h: Hub, a: Action, k: Key) {
    Enabled(h, a) && a.DoForget? && k == h.flight[a.m].k
  }

  /** How one step moves one membership. */
  ghost predicate Moved(h: Hub, a: Action, h': Hub, k: Key) {
    && (k in h'.joins <==> (k in h.joins && !Detaches(a, k)) || Admits(h, a, k))
    && (Entering(h', k) <==> (Entering(h, k) && !Enters(h, a, k)) || Admits(h, a, k))
    && (Member(h', k) <==> (Member(h, k) && !Forgets(h, a, k)) || Enters(h, a, k))
    && (Forgetting(h', k) ==> Forgetting(h, k) || (Detaches(a, k) && k in h.joins))
    && ((Forgetting(h, k) && !Forgets(h, a, k)) || (Detaches(a, k) && k in h.joins) ==> Forgetting(h', k))
  }

  lemma StepMoved(h: Hub, a: Action, k: Key)
    requires Tidy(h) && Numbered(h) && Enabled(h, a)
    ensures Moved(h, a, Next(h, a), k)
  {
    hide Tidy, Numbered, Moved, Next, Enabled;
    match a
    case Join(_, _) => MovedDetach(h, a, k);
    case Leave(_, _) => MovedDetach(h, a, k);
    case Kick(_) => MovedDetach(h, a, k);
    case CloseOne(_, _) => MovedDetach(h, a, k);
    case Open(_) => MovedOwn(h, a, k);
    case Refuse(_) => MovedOwn(h, a, k);
    case StartClose(_) => MovedOwn(h, a, k);
    case EndClose(_) => MovedOwn(h, a, k);
    case AdmitConn(c) => MovedAdmit(h, c, k);
    case AdmitTopic(c) => MovedEnter(h, c, k);
    case DoForget(m) => MovedForget(h, m, k);
    case DoUnsub(_) => MovedLater(h, a, k);
    case DoCallback(_) => MovedLater(h, a, k);
  }

  lemma MovedDetach(h: Hub, a: Action, k: Key)
    requires Numbered(h) && Enabled(h, a) && (a.Join? || a.Leave? || a.Kick? || a.CloseOne?)
    ensures Moved(h, a, Next(h, a), k)
  {
    var h' := Next(h, a);
    hide Numbered, Member, Entering, Forgetting, Detach;
    match a
    case Join(c, t) =>
      KeyDetached(h, Key(c, t), Rejoined, k);
      OwnOnly(Detach(h, Key(c, t), Rejoined), h', k);
    case Leave(c, t) => KeyDetached(h, Key(c, t), Left, k);
    case Kick(k0) => KeyDetached(h, k0, Kicked, k);
    case CloseOne(c, t) =>
      KeyDetached(h, Key(c, t), Disconnected, k);
      OwnOnly(Detach(h, Key(c, t), Disconnected), h', k);
  }

  lemma MovedOwn(h: Hub, a: Action, k: Key)
    requires Tidy(h) && Enabled(h, a) && (a.Open? || a.Refuse? || a.StartClose? || a.EndClose?)
    ensures Moved(h, a, Next(h, a), k)
  {
    if a.EndClose? {
      ClosedEmpty(h, a.c);
    }
    hide Tidy, Member, Entering, Forgetting, Held;
    OwnOnly(h, Next(h, a), k);
  }

  /** Only what a thread is doing changes, and the thread is not admitting anything. */
  lemma OwnOnly(h: Hub, h': Hub, k: Key)
    requires h'.joins == h.joins && h'.topics == h.topics && h'.flight == h.flight
    requires forall c :: c in h.own && h.own[c].Admitting? <==> c in h'.own && h'.own[c].Admitting?
    requires forall c :: c in h.own && h.own[c].Admitting? ==> h'.own[c] == h.own[c]
    ensures Member(h', k) <==> Member(h, k)
    ensures Entering(h', k) <==> Entering(h, k)
    ensures Forgetting(h', k) <==> Forgetting(h, k)
  {
  }

  lemma MovedAdmit(h: Hub, c: Conn, k: Key)
    requires Enabled(h, AdmitConn(c))
    ensures Moved(h, AdmitConn(c), Next(h, AdmitConn(c)), k)
  {
    assert Next(h, AdmitConn(c)).flight == h.flight;
  }

  lemma MovedEnter(h: Hub, c: Conn, k: Key)
    requires Enabled(h, AdmitTopic(c))
    ensures Moved(h, AdmitTopic(c), Next(h, AdmitTopic(c)), k)
  {
    assert Next(h, AdmitTopic(c)).flight == h.flight;
  }

  lemma MovedLater(h: Hub, a: Action, k: Key)
    requires Enabled(h, a) && (a.DoUnsub? || a.DoCallback?)
    ensures Moved(h, a, Next(h, a), k)
  {
    KeyMoved(h, Next(h, a), a.m, k);
    hide Forgetting;
  }

  lemma MovedForget(h: Hub, m: Mid, k: Key)
    requires Enabled(h, DoForget(m))
    ensures Moved(h, DoForget(m), Next(h, DoForget(m)), k)
  {
    KeyMoved(h, Next(h, DoForget(m)), m, k);
    ForgottenMember(h.topics, h.flight[m].k, k);
  }

  // ---- members and joins: exactly when they agree ----

  /** At most one teardown of the membership is still to forget it. */
  ghost predicate OneForget(h: Hub, k: Key) {
    forall m, n :: m in h.flight && n in h.flight && IsForget(h.flight[m], k) && IsForget(h.flight[n], k) ==> m == n
  }

  /** In the topic: joined and past the second half of the admission, or being forgotten;
      and never two of these at once. */
  ghost predicate Agreed(h: Hub, k: Key) {
    && (Member(h, k) <==> (k in h.joins && !Entering(h, k)) || Forgetting(h, k))
    && (k in h.joins ==> !Forgetting(h, k))
    && (Entering(h, k) ==> k in h.joins)
    && OneForget(h, k)
  }

  /** No teardown of the membership overlaps an admission to it: it is not kicked between
      the two halves, nor admitted again while a kick has yet to forget it. */
  ghost predicate Orderly(h: Hub, a: Action, k: Key) {
    && (Admits(h, a, k) ==> !Forgetting(h, k))
    && (a == Kick(k) ==> !Entering(h, k))
  }

  lemma StepOneForget(h: Hub, a: Action, k: Key)
    requires Numbered(h) && Enabled(h, a) && OneForget(h, k) && (Detaches(a, k) && k in h.joins ==> !Forgetting(h, k))
    ensures OneForget(Next(h, a), k)
    ensures Forgets(h, a, k) ==> !Forgetting(Next(h, a), k)
  {
    var h' := Next(h, a);
    forall m, n | m in h'.flight && n in h'.flight && IsForget(h'.flight[m], k) && IsForget(h'.flight[n], k)
      ensures m == n
    {
      if m in h.flight && n in h.flight {
        assert IsForget(h.flight[m], k) && IsForget(h.flight[n], k);
      } else {
        assert Detaches(a, k) && k in h.joins;
      }
    }
    if Forgets(h, a, k) {
      assert IsForget(h.flight[a.m], k);
      forall n | n in h'.flight
        ensures !IsForget(h'.flight[n], k)
      {
        assert n != a.m ==> h'.flight[n] == h.flight[n];
      }
    }
  }

  /** A step keeps the agreement on a membership exactly when it is orderly there; what
      happens to other memberships is of no concern. */
  lemma StepAgreedIff(h: Hub, a: Action, k: Key)
    requires Tidy(h) && Numbered(h) && Enabled(h, a) && Agreed(h, k)
    ensures Agreed(Next(h, a), k) <==> Orderly(h, a, k)
  {
    StepMoved(h, a, k);
    StepOneForget(h, a, k);
    OwnOrderly(h, a, k);
    hide Tidy, Numbered, Next, Member, Entering, Forgetting, OneForget, IsForget;
  }

  /** A connection's own messages are serial: what it tears down itself it is not admitting,
      and what it admits it does not hold. */
  lemma OwnOrderly(h: Hub, a: Action, k: Key)
    requires Tidy(h) && Enabled(h, a)
    ensures Detaches(a, k) && a != Kick(k) ==> !Entering(h, k)
    ensures Admits(h, a, k) ==> k !in h.joins && !Entering(h, k)
    ensures Enters(h, a, k) ==> Entering(h, k)
    ensures Forgets(h, a, k) ==> Forgetting(h, k)
  {
    if Forgets(h, a, k) {
      assert IsForget(h.flight[a.m], k);
    }
  }

  /** A membership on which every step so far was orderly is agreed on. */
  lemma {:induction false} OrderlyAgrees(run: seq<Hub>, acts: seq<Action>, k: Key, n: nat)
    requires Run(run, acts) && n <= |acts| && forall i :: 0 <= i < n ==> Orderly(run[i], acts[i], k)
    ensures Agreed(run[n], k)
    decreases n
  {
    if n > 0 {
      OrderlyAgrees(run, acts, k, n - 1);
      HubRuns(run, acts, n - 1);
      var h, a := run[n - 1], acts[n - 1];
      assert Enabled(h, a) && run[n - 1 + 1] == Next(h, a) && Orderly(h, a, k);
      assert Tidy(h) && Numbered(h);
      hide Run, Sound, Enabled, Next, Agreed, Orderly, Tidy, Numbered;
      StepAgreedIff(h, a, k);
    }
  }

  /** Nothing under way: no teardown in flight and every thread between messages. */
  predicate Quiet(h: Hub) {
    h.flight == map[] && forall c :: c in h.own ==> h.own[c].Ready?
  }

  /** The last step that changed whether the connection is in the topic was in order: it
      entered while the join was held, or was forgotten while it was not. */
  ghost predicate LastInOrder(run: seq<Hub>, acts: seq<Action>, k: Key, n: nat)
    requires n <= |acts| < |run|
    decreases n
  {
    n == 0 ||
    (if Enters(run[n - 1], acts[n - 1], k) then k in run[n - 1].joins
     else if Forgets(run[n - 1], acts[n - 1], k) then k !in run[n - 1].joins
     else LastInOrder(run, acts, k, n - 1))
  }

  lemma StepSettles(h: Hub, a: Action, k: Key, was: bool)
    requires Tidy(h) && Numbered(h) && Enabled(h, a)
    requires Entering(h, k) || Forgetting(h, k) || ((Member(h, k) <==> k in h.joins) <==> was)
    ensures var h' := Next(h, a);
      var settled := if Enters(h, a, k) then k in h.joins else if Forgets(h, a, k) then k !in h.joins else was;
      Entering(h', k) || Forgetting(h', k) || ((Member(h', k) <==> k in h'.joins) <==> settled)
  {
    StepMoved(h, a, k);
    OwnOrderly(h, a, k);
    hide Tidy, Numbered, Enabled, Next, Entering, Forgetting, Member, Detaches, Admits, Enters, Forgets;
  }

  lemma {:induction false} SettlesIff(run: seq<Hub>, acts: seq<Action>, k: Key, n: nat)
    requires Run(run, acts) && n <= |acts|
    ensures Entering(run[n], k) || Forgetting(run[n], k)
      || ((Member(run[n], k) <==> k in run[n].joins) <==> LastInOrder(run, acts, k, n))
    decreases n
  {
    if n == 0 {
      assert !Member(START, k);
    } else {
      SettlesIff(run, acts, k, n - 1);
      HubRuns(run, acts, n - 1);
      var h, a := run[n - 1], acts[n - 1];
      assert Enabled(h, a) && run[n - 1 + 1] == Next(h, a);
      assert Tidy(h) && Numbered(h);
      hide Run, Sound, Enabled, Next, Tidy, Numbered, Entering, Forgetting, Member, Enters, Forgets;
      StepSettles(h, a, k, LastInOrder(run, acts, k, n - 1));
    }
  }

  /** In every run, kicks overlapping admissions included, at every quiet point: a
      connection is in a topic's members if and only if it holds the join, exactly when
      the last step that entered or forgot it was in order; and orderly steps on that one
      membership are enough for it. */
  lemma QuietAgreesIff(run: seq<Hub>, acts: seq<Action>, k: Key, n: nat)
    requires Run(run, acts) && n <= |acts| && Quiet(run[n])
    ensures (Member(run[n], k) <==> k in run[n].joins) <==> LastInOrder(run, acts, k, n)
    ensures (forall i :: 0 <= i < n ==> Orderly(run[i], acts[i], k)) ==> LastInOrder(run, acts, k, n)
  {
    SettlesIff(run, acts, k, n);
    if forall i :: 0 <= i < n ==> Orderly(run[i], acts[i], k) {
      OrderlyAgrees(run, acts, k, n);
    }
    hide Run;
  }

  /** In every run, at every quiet point: a topic has an entry if and only if it has a
      member, and then exactly one live subscription, its own; and every membership ever
      admitted is held or has had its leave callback, once. */
  lemma QuietSound(run: seq<Hub>, acts: seq<Action>, n: nat)
    requires Run(run, acts) && n <= |acts| && Quiet(run[n])
    ensures var h := run[n];
      && (forall t :: t in h.topics <==> exists c :: Member(h, Key(c, t)))
      && (forall s :: s in h.subs <==> Backs(h, s))
      && (forall t :: t in h.topics ==> h.topics[t].sub in h.subs && h.subs[h.topics[t].sub] == t)
      && (forall m: Mid :: m < h.nextMid ==> Holds(h, m) != HasLeft(h, m))
      && (forall i, j :: 0 <= i < j < |h.left| ==> h.left[i].0 != h.left[j].0)
  {
    var h := run[n];
    HubRuns(run, acts, n);
    hide Run;
    QuietEntries(h);
    QuietSubs(h);
    QuietMemberships(h);
    hide *;
  }

  lemma QuietEntries(h: Hub)
    requires Inhabited(h)
    ensures forall t :: t in h.topics <==> exists c :: Member(h, Key(c, t))
  {
    forall t
      ensures t in h.topics <==> exists c :: Member(h, Key(c, t))
    {
      if t in h.topics {
        var c :| c in h.topics[t].members;
        assert Member(h, Key(c, t));
      }
    }
  }

  lemma QuietSubs(h: Hub)
    requires Subscribed(h) && Quiet(h)
    ensures forall s :: s in h.subs <==> Backs(h, s)
    ensures forall t :: t in h.topics ==> h.topics[t].sub in h.subs && h.subs[h.topics[t].sub] == t
  {
    assert SubsOfTopics(h) && NoStraySubs(h);
    forall s
      ensures s in h.subs <==> Backs(h, s)
    {
      assert !Ending(h, s);
    }
  }

  lemma QuietMemberships(h: Hub)
    requires OnceEach(h) && Quiet(h)
    ensures forall m: Mid :: m < h.nextMid ==> Holds(h, m) != HasLeft(h, m)
    ensures forall i, j :: 0 <= i < j < |h.left| ==> h.left[i].0 != h.left[j].0
  {
    assert AllThere(h) && LeftOnce(h);
    hide Numbered;
  }

  // ---- broadcasting ----

  /** Whom one live subscription of the topic delivers a broadcast to. */
  function Reached(h: Hub, t: Topic, exclude: Option<Conn>): set<Conn> {
    if t !in h.topics then {}
    else if exclude.Some? then h.topics[t].members - {exclude.value}
    else h.topics[t].members
  }

  /** At a quiet point of any run, a broadcast reaches a connection if and only if it is
      joined and not excluded, exactly when its last entering or forgetting was in order;
      and it is sent once, because the topic's live subscription is the only one. */
  lemma QuietBroadcast(run: seq<Hub>, acts: seq<Action>, n: nat, t: Topic, exclude: Option<Conn>, c: Conn, s: Sub,
                       s': Sub)
    requires Run(run, acts) && n <= |acts| && Quiet(run[n])
    ensures c in Reached(run[n], t, exclude) && exclude == Some(c) ==> false
    ensures exclude != Some(c) ==>
      ((c in Reached(run[n], t, exclude) <==> Key(c, t) in run[n].joins) <==> LastInOrder(run, acts, Key(c, t), n))
    ensures s in run[n].subs && s' in run[n].subs && run[n].subs[s] == t && run[n].subs[s'] == t ==> s == s'
    ensures Reached(run[n], t, None) != {} <==> exists s :: s in run[n].subs && run[n].subs[s] == t
  {
    var h := run[n];
    QuietAgreesIff(run, acts, Key(c, t), n);
    QuietSound(run, acts, n);
    hide Run, Quiet, LastInOrder;
    if s in h.subs && s' in h.subs {
      assert Backs(h, s) && Backs(h, s');
    }
    if x :| x in h.subs && h.subs[x] == t {
      assert Backs(h, x);
      var c' :| Member(h, Key(c', t));
      assert c' in Reached(h, t, None);
    }
  }

  // ---- two runs in which they do not agree ----

  /** The actions, done one after the other from the start, lead to this state. */
  ghost predicate Leads(acts: seq<Action>, h: Hub) {
    exists run :: Run(run, acts) && run[|acts|] == h
  }

  lemma LeadsOn(acts: seq<Action>, h: Hub, a: Action)
    requires Leads(acts, h) && Enabled(h, a)
    ensures Leads(acts + [a], Next(h, a))
  {
    var run :| Run(run, acts) && run[|acts|] == h;
    var more := run + [Next(h, a)];
    hide Enabled, Next;
    assert Run(more, acts + [a]) && more[|acts| + 1] == Next(h, a);
  }

  lemma LeadsNowhere()
    ensures Leads([], START)
  {
    assert Run([START], []) && [START][0] == START;
  }

  /** An open connection with one join admitted up to the topic, by these three messages. */
  lemma LeadsAdmitting(t: Topic)
    ensures Leads([Open(0), Join(0, t), AdmitConn(0)],
                  START.(own := map[0 := Admitting(t)], joins := map[Key(0, t) := 0], nextMid := 1))
  {
    var h1 := START.(own := map[0 := Ready]);
    var h2 := START.(own := map[0 := Joining(t)]);
    LeadsNowhere();
    assert Enabled(START, Open(0)) && Next(START, Open(0)) == h1;
    LeadsOn([], START, Open(0));
    assert Enabled(h1, Join(0, t)) && Next(h1, Join(0, t)) == h2;
    LeadsOn([Open(0)], h1, Join(0, t));
    assert Enabled(h2, AdmitConn(0));
    LeadsOn([Open(0), Join(0, t)], h2, AdmitConn(0));
    assert [] + [Open(0)] == [Open(0)] && [Open(0)] + [Join(0, t)] == [Open(0), Join(0, t)];
    assert [Open(0), Join(0, t)] + [AdmitConn(0)] == [Open(0), Join(0, t), AdmitConn(0)];
    hide Leads;
  }

  /** A kick between the two halves of an admission: everything settles, and the
      connection is left a member of a topic it has not joined. */
  lemma KickDuringAdmit(t: Topic) returns (acts: seq<Action>, h: Hub)
    ensures acts == [Open(0), Join(0, t), AdmitConn(0), Kick(Key(0, t)), DoForget(0), DoCallback(0), AdmitTopic(0)]
    ensures Leads(acts, h) && Quiet(h) && Member(h, Key(0, t)) && Key(0, t) !in h.joins
  {
    hide Leads;
    var k := Key(0, t);
    var h3 := START.(own := map[0 := Admitting(t)], joins := map[k := 0], nextMid := 1);
    var h4 := h3.(joins := map[], flight := map[0 := Teardown(k, Forget, Kicked)]);
    var h5 := h4.(flight := map[0 := Teardown(k, Callback, Kicked)]);
    var h6 := h5.(flight := map[], left := [(0, Kicked)]);
    h := h6.(own := map[0 := Ready], topics := map[t := Entry(0, {0})], subs := map[0 := t], nextSub := 1);
    LeadsAdmitting(t);
    KickSteps(k, h3, h4, h5);
    EnterSteps(k, h5, h6, h);
    hide Leads, Enabled, Next;
    acts := [Open(0), Join(0, t), AdmitConn(0)];
    acts := Then(acts, h3, Kick(k), h4);
    acts := Then(acts, h4, DoForget(0), h5);
    acts := Then(acts, h5, DoCallback(0), h6);
    acts := Then(acts, h6, AdmitTopic(0), h);
  }

  lemma KickSteps(k: Key, h3: Hub, h4: Hub, h5: Hub)
    requires k.c == 0 && h3.joins == map[k := 0] && h3.flight == map[] && h3.topics == map[]
    requires h4 == h3.(joins := map[], flight := map[0 := Teardown(k, Forget, Kicked)])
    requires h5 == h4.(flight := map[0 := Teardown(k, Callback, Kicked)])
    ensures Enabled(h3, Kick(k)) && Next(h3, Kick(k)) == h4
    ensures Enabled(h4, DoForget(0)) && Next(h4, DoForget(0)) == h5
  {
    assert h3.joins - {k} == map[];
  }

  lemma EnterSteps(k: Key, h5: Hub, h6: Hub, h: Hub)
    requires h5.own == map[0 := Admitting(k.t)] && h5.flight == map[0 := Teardown(k, Callback, Kicked)]
    requires h5.left == [] && h5.topics == map[] && h5.subs == map[] && h5.nextSub == 0
    requires h6 == h5.(flight := map[], left := [(0, Kicked)])
    requires h == h6.(own := map[0 := Ready], topics := map[k.t := Entry(0, {0})], subs := map[0 := k.t], nextSub := 1)
    ensures Enabled(h5, DoCallback(0)) && Next(h5, DoCallback(0)) == h6
    ensures Enabled(h6, AdmitTopic(0)) && Next(h6, AdmitTopic(0)) == h
  {
    assert h5.flight - {0} == map[];
  }

  lemma Then(acts: seq<Action>, h: Hub, a: Action, h': Hub) returns (more: seq<Action>)
    requires Leads(acts, h) && Enabled(h, a) && Next(h, a) == h'
    ensures more == acts + [a] && Leads(more, h')
  {
    LeadsOn(acts, h, a);
    more := acts + [a];
  }

  /** A kick takes the join, the client joins again, and only then does the kick forget the
      member: everything settles, and the connection is left joined to a topic that has no
      entry, no members and no subscription. */
  lemma KickBeforeRejoin(t: Topic) returns (acts: seq<Action>, h: Hub)
    ensures acts == [Open(0), Join(0, t), AdmitConn(0), AdmitTopic(0), Kick(Key(0, t)),
                     Join(0, t), AdmitConn(0), AdmitTopic(0), DoForget(0), DoUnsub(0), DoCallback(0)]
    ensures Leads(acts, h) && Quiet(h) && Key(0, t) in h.joins && h.topics == map[] && h.subs == map[]
  {
    hide Leads;
    var k := Key(0, t);
    var h3 := START.(own := map[0 := Admitting(t)], joins := map[k := 0], nextMid := 1);
    var h4 := h3.(own := map[0 := Ready], topics := map[t := Entry(0, {0})], subs := map[0 := t], nextSub := 1);
    var h5 := h4.(joins := map[], flight := map[0 := Teardown(k, Forget, Kicked)]);
    LeadsAdmitting(t);
    acts := [Open(0), Join(0, t), AdmitConn(0)];
    assert h3.joins - {k} == map[];
    assert Enabled(h3, AdmitTopic(0)) && Next(h3, AdmitTopic(0)) == h4;
    acts := Then(acts, h3, AdmitTopic(0), h4);
    assert Enabled(h4, Kick(k)) && Next(h4, Kick(k)) == h5;
    acts := Then(acts, h4, Kick(k), h5);
    acts, h := Rejoins(t, acts, h5);
  }

  lemma Rejoins(t: Topic, acts: seq<Action>, h5: Hub) returns (more: seq<Action>, h: Hub)
    requires Leads(acts, h5)
    requires h5 == Hub(map[0 := Ready], map[], map[t := Entry(0, {0})], map[0 := t],
                       map[0 := Teardown(Key(0, t), Forget, Kicked)], [], 1, 1)
    ensures more == acts + [Join(0, t), AdmitConn(0), AdmitTopic(0), DoForget(0), DoUnsub(0), DoCallback(0)]
    ensures Leads(more, h) && Quiet(h) && Key(0, t) in h.joins && h.topics == map[] && h.subs == map[]
  {
    hide Leads;
    var k := Key(0, t);
    var h6 := h5.(own := map[0 := Joining(t)]);
    var h7 := h5.(own := map[0 := Admitting(t)], joins := map[k := 1], nextMid := 2);
    var h8 := h7.(own := map[0 := Ready]);
    assert Enabled(h5, Join(0, t)) && Next(h5, Join(0, t)) == h6;
    more := Then(acts, h5, Join(0, t), h6);
    assert Enabled(h6, AdmitConn(0)) && Next(h6, AdmitConn(0)) == h7;
    more := Then(more, h6, AdmitConn(0), h7);
    assert {0} + {0} == {0};
    assert Enabled(h7, AdmitTopic(0)) && Next(h7, AdmitTopic(0)) == h8;
    more := Then(more, h7, AdmitTopic(0), h8);
    more, h := LateForget(t, more, h8);
  }

  lemma LateForget(t: Topic, acts: seq<Action>, h8: Hub) returns (more: seq<Action>, h: Hub)
    requires Leads(acts, h8)
    requires h8 == Hub(map[0 := Ready], map[Key(0, t) := 1], map[t := Entry(0, {0})], map[0 := t],
                       map[0 := Teardown(Key(0, t), Forget, Kicked)], [], 2, 1)
    ensures more == acts + [DoForget(0), DoUnsub(0), DoCallback(0)]
    ensures Leads(more, h) && Quiet(h) && Key(0, t) in h.joins && h.topics == map[] && h.subs == map[]
  {
    hide Leads;
    var h9 := h8.(topics := map[], flight := map[0 := Teardown(Key(0, t), Unsub(0), Kicked)]);
    var h10 := h9.(subs := map[], flight := map[0 := Teardown(Key(0, t), Callback, Kicked)]);
    h := h10.(flight := map[], left := [(0, Kicked)]);
    ForgetSteps(t, h8, h9, h10, h);
    hide Enabled, Next;
    more := Then(acts, h8, DoForget(0), h9);
    more := Then(more, h9, DoUnsub(0), h10);
    more := Then(more, h10, DoCallback(0), h);
  }

  lemma ForgetSteps(t: Topic, h8: Hub, h9: Hub, h10: Hub, h: Hub)
    requires h8.topics == map[t := Entry(0, {0})] && h8.subs == map[0 := t] && h8.left == []
    requires h8.flight == map[0 := Teardown(Key(0, t), Forget, Kicked)]
    requires h9 == h8.(topics := map[], flight := map[0 := Teardown(Key(0, t), Unsub(0), Kicked)])
    requires h10 == h9.(subs := map[], flight := map[0 := Teardown(Key(0, t), Callback, Kicked)])
    requires h == h10.(flight := map[], left := [(0, Kicked)])
    ensures Enabled(h8, DoForget(0)) && Next(h8, DoForget(0)) == h9
    ensures Enabled(h9, DoUnsub(0)) && Next(h9, DoUnsub(0)) == h10
    ensures Enabled(h10, DoCallback(0)) && Next(h10, DoCallback(0)) == h
  {
    assert h8.topics - {t} == map[] && {0} - {0} == {};
    assert h9.subs - {0} == map[];
    assert h10.flight - {0} == map[];
  }

  // ---- the maps themselves ----

  /** A teardown's lock sections, one after the other. */
  function TornDown(h: Hub, k: Key, reason: Reason): Hub
    requires k in h.joins && h.joins[k] !in h.flight
  {
    var m := h.joins[k];
    var detached := Detach(h, k, reason);
    var forgotten := Next(detached, DoForget(m));
    var ended := if forgotten.flight[m].phase.Unsub? then Next(forgotten, DoUnsub(m)) else forgotten;
    Next(ended, DoCallback(m))
  }

  lemma TornDownIs(h: Hub, k: Key, reason: Reason)
    requires k in h.joins && h.joins[k] !in h.flight
    ensures var (topics, phase) := Forgotten(h.topics, k);
      TornDown(h, k, reason) == h.(joins := h.joins - {k}, topics := topics,
        subs := if phase.Unsub? then h.subs - {phase.sub} else h.subs, left := h.left + [(h.joins[k], reason)])
  {
    var m, phase := h.joins[k], Forgotten(h.topics, k).1;
    hide Forgotten;
    assert h.flight[m := Teardown(k, Forget, reason)][m := Teardown(k, phase, reason)]
      == h.flight[m := Teardown(k, phase, reason)];
    assert h.flight[m := Teardown(k, phase, reason)][m := Teardown(k, Callback, reason)]
      == h.flight[m := Teardown(k, Callback, reason)];
    assert h.flight[m := Teardown(k, phase, reason)] - {m} == h.flight;
    assert h.flight[m := Teardown(k, Callback, reason)] - {m} == h.flight;
  }

  /** The hub's maps, as its methods change them when nothing comes between. */
  class Maps {
    var h: Hub

    constructor ()
      ensures h == START
    {
      h := START;
    }

    /** `forget_member` */
    method ForgetMember(k: Key)
      modifies this
      ensures h.topics == Forgotten(old(h).topics, k).0
      ensures var phase := Forgotten(old(h).topics, k).1;
        h.subs == if phase.Unsub? then old(h).subs - {phase.sub} else old(h).subs
      ensures h == old(h).(topics := h.topics, subs := h.subs)
    {
      if k.t in h.topics {
        var e := h.topics[k.t];
        e := e.(members := e.members - {k.c});
        if e.members == {} {
          h := h.(topics := h.topics - {k.t});
          h := h.(subs := h.subs - {e.sub});
        } else {
          h := h.(topics := h.topics[k.t := e]);
        }
      }
    }

    /** `teardown`: whether there was a membership to tear down. */
    method Tear(k: Key, reason: Reason) returns (found: bool)
      requires k in h.joins ==> h.joins[k] !in h.flight
      modifies this
      ensures found <==> k in old(h).joins
      ensures !found ==> h == old(h)
      ensures found ==> h == TornDown(old(h), k, reason)
    {
      if k !in h.joins {
        return false;
      }
      found := true;
      var m := h.joins[k];
      hide TornDown, Forgotten;
      TornDownIs(h, k, reason);
      h := h.(joins := h.joins - {k});
      ForgetMember(k);
      h := h.(left := h.left + [(m, reason)]);
    }

    /** `admit` */
    method Admit(c: Conn)
      requires c in h.own && h.own[c].Joining?
      modifies this
      ensures h == Next(Next(old(h), AdmitConn(c)), AdmitTopic(c))
    {
      var t := h.own[c].t;
      h := h.(joins := h.joins[Key(c, t) := h.nextMid], nextMid := h.nextMid + 1);
      if t !in h.topics {
        h := h.(subs := h.subs[h.nextSub := t], topics := h.topics[t := Entry(h.nextSub, {})],
                nextSub := h.nextSub + 1);
      }
      var e := h.topics[t];
      h := h.(topics := h.topics[t := e.(members := e.members + {c})], own := h.own[c := Ready]);
      assert old(h).own[c := Admitting(t)][c := Ready] == h.own;
      assert {} + {c} == {c};
      assert t !in old(h).topics ==> h.topics == old(h).topics[t := Entry(old(h).nextSub, {c})];
      hide Held, Forgotten, Detach;
    }
  }
}
