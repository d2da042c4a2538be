/** Presence on one topic of one pod: the members tracked here, a cache of what every
    other pod claims, and the diffs shown to members. Counts are per (key, meta). */
module Presence {
  import opened Wrappers
  import J = Json

  type Conn = nat
  type Pod = nat
  type Meta = J.Json

  /** `{key: [meta, ...]}` */
  type View = map<string, seq<Meta>>

  datatype Entry = Entry(key: string, meta: Meta)
  datatype Remote = Remote(lastSeen: int, entries: View)
  datatype Topic = Topic(local: map<Conn, Entry>, remote: map<Pod, Remote>, subscribed: bool)
  datatype Diff = Diff(joins: View, leaves: View)
  datatype Msg = Join(e: Entry) | Leave(e: Entry) | State(view: View) | Req

  const NOBODY := Topic(map[], map[], false)

  // ---- what a view, a pod and a topic say ----

  function At(v: View, k: string): multiset<Meta> {
    if k in v then multiset(v[k]) else multiset{}
  }

  function Count(v: View, e: Entry): nat {
    At(v, e.key)[e.meta]
  }

  function Holders(local: map<Conn, Entry>, e: Entry): set<Conn> {
    set c | c in local && local[c] == e
  }

  function LocalCount(local: map<Conn, Entry>, e: Entry): nat {
    |Holders(local, e)|
  }

  ghost function RemoteCount(remote: map<Pod, Remote>, e: Entry): nat {
    if remote == map[] then 0
    else
      var q :| q in remote;
      Count(remote[q].entries, e) + RemoteCount(remote - {q}, e)
  }

  /** How often the merged list shows `e`. */
  ghost function Listed(t: Topic, e: Entry): nat {
    LocalCount(t.local, e) + RemoteCount(t.remote, e)
  }

  function Cached(t: Topic, q: Pod): View {
    if q in t.remote then t.remote[q].entries else map[]
  }

  lemma {:induction false} RemoteCountPick(remote: map<Pod, Remote>, q: Pod, e: Entry)
    requires q in remote
    ensures RemoteCount(remote, e) == Count(remote[q].entries, e) + RemoteCount(remote - {q}, e)
    decreases |remote|
  {
    var x :| x in remote && RemoteCount(remote, e) == Count(remote[x].entries, e) + RemoteCount(remote - {x}, e);
    if x != q {
      Fewer(remote, x);
      Fewer(remote, q);
      RemoteCountPick(remote - {x}, q, e);
      RemoteCountPick(remote - {q}, x, e);
      assert remote - {x} - {q} == remote - {q} - {x};
    }
  }

  lemma Fewer(remote: map<Pod, Remote>, q: Pod)
    requires q in remote
    ensures |remote - {q}| < |remote|
  {
    assert (remote - {q}).Keys == remote.Keys - {q};
  }

  /** Replacing what is cached of one pod changes the count by the difference alone. */
  lemma RemoteCountSet(t: Topic, q: Pod, r: Remote, e: Entry)
    ensures RemoteCount(t.remote[q := r], e) + Count(Cached(t, q), e) == RemoteCount(t.remote, e) + Count(r.entries, e)
  {
    hide RemoteCount;
    RemoteCountPick(t.remote[q := r], q, e);
    assert t.remote[q := r] - {q} == t.remote - {q};
    if q in t.remote {
      RemoteCountPick(t.remote, q, e);
    } else {
      assert t.remote - {q} == t.remote;
    }
  }

  // ---- the updates, as functions ----

  /** The vector without the first meta equal to `m`. */
  function RemoveOne(metas: seq<Meta>, m: Meta): (r: seq<Meta>)
    ensures multiset(r) == multiset(metas) - multiset{m}
  {
    if metas == [] then []
    else if metas[0] == m then assert metas == [m] + metas[1..]; metas[1..]
    else assert metas == [metas[0]] + metas[1..]; [metas[0]] + RemoveOne(metas[1..], m)
  }

  function MetasAt(v: View, k: string): seq<Meta> {
    if k in v then v[k] else []
  }

  function WithMeta(v: View, e: Entry): View {
    v[e.key := MetasAt(v, e.key) + [e.meta]]
  }

  function WithoutMeta(v: View, e: Entry): View {
    var metas := RemoveOne(MetasAt(v, e.key), e.meta);
    if metas == [] then v - {e.key} else v[e.key := metas]
  }

  /** The cache after a message of pod `q`, read at `now`. */
  function Received(t: Topic, q: Pod, m: Msg, now: int): Topic {
    match m
    case Req => t
    case Join(e) => t.(remote := t.remote[q := Remote(now, WithMeta(Cached(t, q), e))])
    case Leave(e) => t.(remote := t.remote[q := Remote(now, WithoutMeta(Cached(t, q), e))])
    case State(v) => t.(remote := t.remote[q := Remote(now, v)])
  }

  function Tracked(t: Topic, c: Conn, e: Entry): Topic {
    t.(local := t.local[c := e], subscribed := t.subscribed || t.local == map[])
  }

  /** What tracking publishes, in order. */
  function TrackSends(t: Topic, c: Conn, e: Entry): seq<Msg> {
    (if c in t.local then [Leave(t.local[c])] else [])
    + (if t.local == map[] && !t.subscribed then [Req] else [])
    + [Join(e)]
  }

  /** None: the last local member left, and the topic is dropped with its subscription. */
  function Untracked(t: Topic, c: Conn): Option<Topic> {
    if c !in t.local then Some(t)
    else if t.local - {c} == map[] then None
    else Some(t.(local := t.local - {c}))
  }

  function Expired(r: Remote, now: int, interval: nat): bool {
    now - r.lastSeen > interval * 5 / 2
  }

  function Kept(t: Topic, now: int, interval: nat): Topic {
    t.(remote := map q | q in t.remote && !Expired(t.remote[q], now, interval) :: t.remote[q])
  }

  lemma WithMetaCount(v: View, x: Entry, e: Entry)
    ensures Count(WithMeta(v, x), e) == Count(v, e) + (if e == x then 1 else 0)
  {
  }

  lemma WithoutMetaCount(v: View, x: Entry, e: Entry)
    ensures Count(WithoutMeta(v, x), e) == Minus(Count(v, e), if e == x then 1 else 0)
  {
  }

  lemma OneApart(a: set<Conn>, b: set<Conn>, c: Conn)
    requires a - {c} == b - {c}
    ensures |a| + (if c in b then 1 else 0) == |b| + (if c in a then 1 else 0)
  {
    assert c in a ==> a == (a - {c}) + {c};
    assert c in b ==> b == (b - {c}) + {c};
    assert c !in a ==> a == a - {c};
    assert c !in b ==> b == b - {c};
  }

  lemma LocalCountSet(local: map<Conn, Entry>, c: Conn, x: Entry, e: Entry)
    ensures LocalCount(local[c := x], e) + (if c in local && local[c] == e then 1 else 0)
      == LocalCount(local, e) + (if x == e then 1 else 0)
  {
    assert Holders(local[c := x], e) - {c} == Holders(local, e) - {c};
    OneApart(Holders(local, e), Holders(local[c := x], e), c);
  }

  lemma LocalCountDrop(local: map<Conn, Entry>, c: Conn, e: Entry)
    requires c in local
    ensures LocalCount(local - {c}, e) + (if local[c] == e then 1 else 0) == LocalCount(local, e)
  {
    assert Holders(local - {c}, e) - {c} == Holders(local, e) - {c};
    OneApart(Holders(local, e), Holders(local - {c}, e), c);
  }

  // ---- diffs ----

  function Minus(a: nat, b: nat): nat {
    if a > b then a - b else 0
  }

  /** Replaying the diff turns the list before into the list after. */
  ghost predicate Exact(before: Topic, d: Diff, after: Topic) {
    forall e :: Listed(before, e) + Count(d.joins, e) == Listed(after, e) + Count(d.leaves, e)
  }

  /** No meta both joins and leaves. */
  ghost predicate Minimal(d: Diff) {
    forall e :: Count(d.joins, e) == 0 || Count(d.leaves, e) == 0
  }

  /** `d` is the difference under key `k`: a meta held twice and now once leaves once. */
  predicate Settled(was: View, is_: View, d: Diff, k: string) {
    At(d.joins, k) == At(is_, k) - At(was, k) && At(d.leaves, k) == At(was, k) - At(is_, k)
  }

  ghost predicate IsDiff(was: View, is_: View, d: Diff) {
    forall k :: Settled(was, is_, d, k)
  }

  /** No vector made an entry for nothing, but a key gone from the state is always one. */
  predicate Shaped(was: View, is_: View, d: Diff) {
    && d.joins.Keys <= is_.Keys && was.Keys - is_.Keys <= d.leaves.Keys <= is_.Keys + was.Keys
    && (forall k :: k in d.joins ==> d.joins[k] != [])
    && (forall k :: k in d.leaves ==> d.leaves[k] != [] || k !in is_)
  }

  /** The new state has every old key, and under each of its keys the same metas. */
  predicate Unchanged(was: View, is_: View) {
    was.Keys <= is_.Keys && forall k :: k in is_ ==> At(was, k) == At(is_, k)
  }

  /** Nothing is fanned out exactly when the state is unchanged: the same state twice is
      silent, but a key that held no metas still leaves when it goes. */
  lemma SilentIff(was: View, is_: View, d: Diff)
    requires IsDiff(was, is_, d) && Shaped(was, is_, d)
    ensures d == Diff(map[], map[]) <==> Unchanged(was, is_)
    ensures Unchanged(is_, is_)
  {
    forall k
      ensures k in d.joins || k in d.leaves <==> (k in is_ && At(was, k) != At(is_, k)) || k in was.Keys - is_.Keys
    {
      SilentKey(was, is_, d, k);
    }
    hide At, IsDiff, Shaped;
    assert d == Diff(map[], map[]) <==> forall k :: !(k in d.joins || k in d.leaves);
  }

  lemma SilentKey(was: View, is_: View, d: Diff, k: string)
    requires IsDiff(was, is_, d) && Shaped(was, is_, d)
    ensures k in d.joins || k in d.leaves <==> (k in is_ && At(was, k) != At(is_, k)) || k in was.Keys - is_.Keys
  {
    assert Settled(was, is_, d, k);
    NoEntry(d.joins, k);
    SameBags(At(was, k), At(is_, k));
    if k in is_ {
      NoEntry(d.leaves, k);
    }
    hide At;
  }

  lemma NoEntry(v: View, k: string)
    requires k in v ==> v[k] != []
    ensures k in v <==> At(v, k) != multiset{}
  {
    if k in v {
      assert v[k][0] in At(v, k);
    }
  }

  lemma SameBags(a: multiset<Meta>, b: multiset<Meta>)
    ensures a == b <==> a - b == multiset{} && b - a == multiset{}
  {
    if a != b {
      var m :| a[m] != b[m];
      assert (a - b)[m] + (b - a)[m] > 0;
    }
  }

  function One(e: Entry): View {
    map[e.key := [e.meta]]
  }

  /** A state message: the diff is exact whatever was cached, and the cache then is the
      sender's snapshot. */
  lemma StateExact(t: Topic, q: Pod, v: View, now: int, d: Diff)
    requires IsDiff(Cached(t, q), v, d)
    ensures Exact(t, d, Received(t, q, State(v), now)) && Minimal(d)
    ensures Cached(Received(t, q, State(v), now), q) == v
  {
    hide RemoteCount, LocalCount, At;
    forall e
      ensures Listed(t, e) + Count(d.joins, e) == Listed(Received(t, q, State(v), now), e) + Count(d.leaves, e)
      ensures Count(d.joins, e) == 0 || Count(d.leaves, e) == 0
    {
      RemoteCountSet(t, q, Remote(now, v), e);
      assert Settled(Cached(t, q), v, d, e.key);
    }
  }

  lemma JoinExact(t: Topic, q: Pod, x: Entry, now: int)
    ensures Exact(t, Diff(One(x), map[]), Received(t, q, Join(x), now))
  {
    forall e
      ensures Listed(t, e) + Count(One(x), e) == Listed(Received(t, q, Join(x), now), e) + Count(map[], e)
    {
      hide RemoteCount, LocalCount, WithMeta;
      RemoteCountSet(t, q, Remote(now, WithMeta(Cached(t, q), x)), e);
      WithMetaCount(Cached(t, q), x, e);
    }
  }

  /** The list changes by a leave exactly when the meta was cached for its pod. */
  lemma LeaveCount(t: Topic, q: Pod, x: Entry, now: int, e: Entry)
    ensures Listed(t, e) == Listed(Received(t, q, Leave(x), now), e)
      + (if e == x && Count(Cached(t, q), x) > 0 then 1 else 0)
  {
    hide RemoteCount, LocalCount, WithoutMeta, At;
    RemoteCountSet(t, q, Remote(now, WithoutMeta(Cached(t, q), x)), e);
    WithoutMetaCount(Cached(t, q), x, e);
  }

  lemma {:induction false} OneLess(metas: seq<Meta>, m: Meta)
    ensures |RemoveOne(metas, m)| == |metas| - (if m in metas then 1 else 0)
    decreases |metas|
  {
    if metas != [] && metas[0] != m {
      OneLess(metas[1..], m);
      assert m in metas <==> m in metas[1..];
    }
  }

  lemma ViewKeys(v: View, x: Entry, k: string)
    ensures k in WithoutMeta(v, x) <==>
      if k == x.key then |MetasAt(v, k)| > (if Count(v, x) > 0 then 1 else 0) else k in v
    ensures k in WithMeta(v, x) <==> k == x.key || k in v
  {
    OneLess(MetasAt(v, x.key), x.meta);
    assert multiset(MetasAt(v, x.key))[x.meta] > 0 <==> x.meta in MetasAt(v, x.key);
    hide RemoveOne;
  }

  /** A leave takes its key out of the cache exactly when no meta is left under it, and no
      other key; a join puts its key there. */
  lemma KeysAfter(t: Topic, q: Pod, x: Entry, now: int, k: string)
    ensures k in Received(t, q, Leave(x), now).remote[q].entries <==>
      if k == x.key then |MetasAt(Cached(t, q), k)| > (if Count(Cached(t, q), x) > 0 then 1 else 0)
      else k in Cached(t, q)
    ensures k in Received(t, q, Join(x), now).remote[q].entries <==> k == x.key || k in Cached(t, q)
  {
    ViewKeys(Cached(t, q), x, k);
    hide Cached, MetasAt, Count, WithMeta, WithoutMeta;
  }

  /** A leave is fanned out without looking at the cache: it is exact if and only if the
      meta was cached for the pod that sent it. */
  lemma LeaveExactIff(t: Topic, q: Pod, x: Entry, now: int)
    ensures Exact(t, Diff(map[], One(x)), Received(t, q, Leave(x), now)) <==> Count(Cached(t, q), x) > 0
  {
    var t' := Received(t, q, Leave(x), now);
    var d := Diff(map[], One(x));
    forall e
      ensures Listed(t, e) + Count(d.joins, e) == Listed(t', e) + Count(d.leaves, e) <==>
        (e == x ==> Count(Cached(t, q), x) > 0)
    {
      hide Listed, Received, Cached;
      LeaveCount(t, q, x, now, e);
    }
    hide Listed, Received, Cached, Count;
    if Exact(t, d, t') {
      assert Listed(t, x) + Count(d.joins, x) == Listed(t', x) + Count(d.leaves, x);
    }
  }

  /** Tracking: the replaced meta leaves, the new one joins. */
  lemma TrackExact(t: Topic, c: Conn, x: Entry)
    ensures Exact(t, Diff(One(x), if c in t.local then One(t.local[c]) else map[]), Tracked(t, c, x))
  {
    var leaves: View := if c in t.local then One(t.local[c]) else map[];
    forall e
      ensures Listed(t, e) + Count(One(x), e) == Listed(Tracked(t, c, x), e) + Count(leaves, e)
    {
      hide RemoteCount, LocalCount;
      LocalCountSet(t.local, c, x, e);
    }
  }

  /** Untracking: the meta leaves; with the last member the whole list is dropped. */
  lemma UntrackExact(t: Topic, c: Conn)
    requires c in t.local
    ensures Untracked(t, c).Some? ==> Exact(t, Diff(map[], One(t.local[c])), Untracked(t, c).value)
    ensures Untracked(t, c).None? <==> t.local.Keys == {c}
  {
    if t.local - {c} == map[] {
      assert t.local.Keys == (t.local - {c}).Keys + {c};
    } else {
      var t' := t.(local := t.local - {c});
      forall e
        ensures Listed(t, e) + Count(map[], e) == Listed(t', e) + Count(One(t.local[c]), e)
      {
        hide RemoteCount, LocalCount;
        LocalCountDrop(t.local, c, e);
      }
      assert (t.local - {c}).Keys == t.local.Keys - {c} != {};
    }
  }

  // ---- the methods ----

  function Plus(acc: View, k: string, metas: seq<Meta>): View {
    acc[k := MetasAt(acc, k) + metas]
  }

  /** The first `i` of the new metas matched off against the old ones. */
  ghost predicate Matched(old_: seq<Meta>, new_: seq<Meta>, i: nat, joined: seq<Meta>, remaining: seq<Meta>)
    requires i <= |new_|
  {
    var seen := multiset(new_[..i]);
    multiset(joined) == seen - multiset(old_) && multiset(remaining) == multiset(old_) - seen
  }

  lemma MatchEnds(old_: seq<Meta>, new_: seq<Meta>, joined: seq<Meta>, remaining: seq<Meta>)
    ensures Matched(old_, new_, 0, [], old_)
    ensures Matched(old_, new_, |new_|, joined, remaining) <==>
      multiset(joined) == multiset(new_) - multiset(old_) && multiset(remaining) == multiset(old_) - multiset(new_)
  {
    assert new_[..0] == [] && new_[..|new_|] == new_;
  }

  lemma MatchNext(old_: seq<Meta>, new_: seq<Meta>, i: nat, joined: seq<Meta>, remaining: seq<Meta>)
    requires i < |new_| && Matched(old_, new_, i, joined, remaining)
    ensures new_[i] in remaining ==> Matched(old_, new_, i + 1, joined, RemoveOne(remaining, new_[i]))
    ensures new_[i] !in remaining ==> Matched(old_, new_, i + 1, joined + [new_[i]], remaining)
  {
    var seen := multiset(new_[..i]);
    assert new_[..i + 1] == new_[..i] + [new_[i]];
    assert multiset(new_[..i + 1]) == seen + multiset{new_[i]};
    MetaStep(multiset(old_), seen, new_[i], joined, remaining);
    hide RemoveOne;
  }

  /** One key's metas: what joined, and what of the old is left. */
  method DiffMetas(old_: seq<Meta>, new_: seq<Meta>) returns (joined: seq<Meta>, remaining: seq<Meta>)
    ensures multiset(joined) == multiset(new_) - multiset(old_)
    ensures multiset(remaining) == multiset(old_) - multiset(new_)
  {
    hide Matched, RemoveOne;
    joined, remaining := [], old_;
    var i := 0;
    MatchEnds(old_, new_, joined, remaining);
    while i < |new_|
      invariant 0 <= i <= |new_| && Matched(old_, new_, i, joined, remaining)
    {
      MatchNext(old_, new_, i, joined, remaining);
      if new_[i] in remaining {
        remaining := RemoveOne(remaining, new_[i]);
      } else {
        joined := joined + [new_[i]];
      }
      i := i + 1;
    }
    MatchEnds(old_, new_, joined, remaining);
  }

  /** One more meta seen: it meets one of the old ones still unmatched, or it joins. */
  lemma BagStep(was: multiset<Meta>, seen: multiset<Meta>, m: Meta)
    ensures m in was - seen ==>
      seen + multiset{m} - was == seen - was && was - (seen + multiset{m}) == was - seen - multiset{m}
    ensures m !in was - seen ==>
      seen + multiset{m} - was == seen - was + multiset{m} && was - (seen + multiset{m}) == was - seen
  {
  }

  lemma MetaStep(was: multiset<Meta>, seen: multiset<Meta>, m: Meta, joined: seq<Meta>, remaining: seq<Meta>)
    requires multiset(joined) == seen - was && multiset(remaining) == was - seen
    ensures m in remaining ==>
      multiset(joined) == seen + multiset{m} - was && multiset(RemoveOne(remaining, m)) == was - (seen + multiset{m})
    ensures m !in remaining ==>
      multiset(joined + [m]) == seen + multiset{m} - was && multiset(remaining) == was - (seen + multiset{m})
  {
    hide RemoveOne;
    BagStep(was, seen, m);
    assert m in remaining <==> m in multiset(remaining);
  }

  /** An empty vector makes no entry. */
  function DiffKey(d: Diff, k: string, joined: seq<Meta>, remaining: seq<Meta>): Diff {
    Diff(if joined != [] then d.joins[k := joined] else d.joins,
         if remaining != [] then d.leaves[k := remaining] else d.leaves)
  }

  lemma DiffKeyAt(d: Diff, k: string, joined: seq<Meta>, remaining: seq<Meta>, j: string)
    requires k !in d.joins && k !in d.leaves
    ensures At(DiffKey(d, k, joined, remaining).joins, j) == if j == k then multiset(joined) else At(d.joins, j)
    ensures At(DiffKey(d, k, joined, remaining).leaves, j) == if j == k then multiset(remaining) else At(d.leaves, j)
  {
  }

  lemma DiffKeySettles(was: View, is_: View, d: Diff, k: string, joined: seq<Meta>, remaining: seq<Meta>)
    requires k !in d.joins && k !in d.leaves
    requires multiset(joined) == At(is_, k) - At(was, k) && multiset(remaining) == At(was, k) - At(is_, k)
    ensures var d' := DiffKey(d, k, joined, remaining);
      Settled(was, is_, d', k) && forall j :: j != k && Settled(was, is_, d, j) ==> Settled(was, is_, d', j)
  {
    hide At, DiffKey;
    forall j
      ensures At(DiffKey(d, k, joined, remaining).joins, j) == if j == k then multiset(joined) else At(d.joins, j)
      ensures At(DiffKey(d, k, joined, remaining).leaves, j) == if j == k then multiset(remaining) else At(d.leaves, j)
    {
      DiffKeyAt(d, k, joined, remaining, j);
    }
  }

  lemma DiffKeyKeys(d: Diff, k: string, joined: seq<Meta>, remaining: seq<Meta>)
    ensures var d' := DiffKey(d, k, joined, remaining);
      && d'.joins.Keys <= d.joins.Keys + {k} && d'.leaves.Keys <= d.leaves.Keys + {k}
      && (forall j :: j in d'.joins && j != k ==> j in d.joins && d'.joins[j] == d.joins[j])
      && (forall j :: j in d'.leaves && j != k ==> j in d.leaves && d'.leaves[j] == d.leaves[j])
      && (k in d'.joins && k !in d.joins ==> d'.joins[k] != [])
      && (k in d'.leaves && k !in d.leaves ==> d'.leaves[k] != [])
  {
  }

  lemma MetasBags(v: View, k: string)
    ensures multiset(MetasAt(v, k)) == At(v, k) && (k in v ==> MetasAt(v, k) == v[k])
  {
  }

  lemma LeaveAll(was: View, is_: View, d: Diff, k: string)
    requires k in was && k !in is_ && k !in d.leaves && At(d.joins, k) == multiset{}
    ensures var d' := d.(leaves := Plus(d.leaves, k, was[k]));
      d'.leaves.Keys == d.leaves.Keys + {k}
      && (forall j :: j in d.leaves ==> d'.leaves[j] == d.leaves[j])
      && Settled(was, is_, d', k) && forall j :: j != k && Settled(was, is_, d, j) ==> Settled(was, is_, d', j)
  {
    assert At(is_, k) == At(d.leaves, k) == multiset{} && At(was, k) == multiset(was[k]);
    hide At;
    forall j
      ensures At(Plus(d.leaves, k, was[k]), j) == if j == k then At(d.leaves, k) + multiset(was[k]) else At(d.leaves, j)
    {
      PlusAt(d.leaves, k, was[k]);
    }
  }

  lemma NothingThere(was: View, is_: View, d: Diff, k: string)
    requires k !in was && k !in is_ && k !in d.joins && k !in d.leaves
    ensures Settled(was, is_, d, k)
  {
  }

  /** First loop: the keys of the new state. */
  method DiffNew(was: View, is_: View) returns (d: Diff)
    ensures d.joins.Keys <= is_.Keys && d.leaves.Keys <= is_.Keys
    ensures forall k :: k in is_ ==> Settled(was, is_, d, k)
    ensures forall k :: k in d.joins ==> d.joins[k] != []
    ensures forall k :: k in d.leaves ==> d.leaves[k] != []
  {
    hide Settled, DiffKey, At, MetasAt;
    d := Diff(map[], map[]);
    var todo := is_.Keys;
    while todo != {}
      invariant todo <= is_.Keys
      invariant d.joins.Keys <= is_.Keys - todo && d.leaves.Keys <= is_.Keys - todo
      invariant forall k :: k in is_.Keys - todo ==> Settled(was, is_, d, k)
      invariant forall k :: k in d.joins ==> d.joins[k] != []
      invariant forall k :: k in d.leaves ==> d.leaves[k] != []
    {
      var k :| k in todo;
      var joined, remaining := DiffMetas(MetasAt(was, k), is_[k]);
      MetasBags(was, k);
      MetasBags(is_, k);
      DiffKeySettles(was, is_, d, k, joined, remaining);
      DiffKeyKeys(d, k, joined, remaining);
      d := DiffKey(d, k, joined, remaining);
      todo := todo - {k};
    }
  }

  /** The two loops together: what was cached of a pod against its new state. */
  method DiffStates(was: View, is_: View) returns (d: Diff)
    ensures IsDiff(was, is_, d) && Shaped(was, is_, d)
  {
    hide Settled, Plus;
    d := DiffNew(was, is_);
    var todo := was.Keys;
    ghost var joins := d.joins;
    while todo != {}
      invariant todo <= was.Keys && d.joins == joins
      invariant d.joins.Keys <= is_.Keys && was.Keys - todo - is_.Keys <= d.leaves.Keys <= is_.Keys + (was.Keys - todo)
      invariant forall k :: k in is_ || k in was.Keys - todo ==> Settled(was, is_, d, k)
      invariant forall k :: k in d.leaves ==> d.leaves[k] != [] || k !in is_
    {
      var k :| k in todo;
      if k !in is_ {
        LeaveAll(was, is_, d, k);
        d := d.(leaves := Plus(d.leaves, k, was[k]));
      }
      todo := todo - {k};
    }
    forall k
      ensures Settled(was, is_, d, k)
    {
      if k !in is_ && k !in was { NothingThere(was, is_, d, k); }
    }
  }

  /** All of `v` but what is still to do has been added. */
  ghost predicate Merged(acc: View, v: View, r: View, todo: set<string>) {
    && (forall k :: k in todo ==> At(r, k) == At(acc, k))
    && (forall k :: k !in todo ==> At(r, k) == At(acc, k) + At(v, k))
  }

  lemma MergeStart(acc: View, v: View)
    ensures Merged(acc, v, acc, v.Keys)
  {
  }

  lemma MergeNext(acc: View, v: View, r: View, todo: set<string>, k: string)
    requires Merged(acc, v, r, todo) && k in todo && k in v
    ensures Merged(acc, v, Plus(r, k, v[k]), todo - {k})
  {
    assert At(v, k) == multiset(v[k]);
    forall j
      ensures At(Plus(r, k, v[k]), j) == if j == k then At(r, k) + At(v, k) else At(r, j)
    {
      PlusAt(r, k, v[k]);
    }
    hide At, Plus;
  }

  /** `extend`, key by key. */
  method MergeInto(acc: View, v: View) returns (r: View)
    ensures forall k :: At(r, k) == At(acc, k) + At(v, k)
  {
    r := acc;
    var todo := v.Keys;
    MergeStart(acc, v);
    while todo != {}
      invariant todo <= v.Keys && Merged(acc, v, r, todo)
    {
      hide *;
      var k :| k in todo;
      MergeNext(acc, v, r, todo, k);
      r := Plus(r, k, v[k]);
      todo := todo - {k};
    }
    hide At;
  }

  lemma PlusAt(v: View, k: string, metas: seq<Meta>)
    ensures forall j :: At(Plus(v, k, metas), j) == if j == k then At(v, k) + multiset(metas) else At(v, j)
  {
  }

  /** The members tracked here, by key: what a state message carries. */
  method Snapshot(local: map<Conn, Entry>) returns (v: View)
    ensures forall e :: Count(v, e) == LocalCount(local, e)
  {
    v := map[];
    var todo := local.Keys;
    ghost var done: map<Conn, Entry> := map[];
    while todo != {}
      invariant todo <= local.Keys && done == local - todo
      invariant forall e :: Count(v, e) == LocalCount(done, e)
    {
      var c :| c in todo;
      ghost var v0, done0 := v, done;
      v := WithMeta(v, local[c]);
      done := done[c := local[c]];
      todo := todo - {c};
      forall e
        ensures Count(v, e) == LocalCount(done, e)
      {
        hide Count, LocalCount;
        WithMetaCount(v0, local[c], e);
        LocalCountSet(done0, c, local[c], e);
      }
    }
    assert done == local;
  }

  method MergePods(start: View, remote: map<Pod, Remote>) returns (v: View)
    ensures forall e :: Count(v, e) == Count(start, e) + RemoteCount(remote, e)
  {
    v := start;
    var todo := remote;
    while todo != map[]
      invariant forall e :: Count(v, e) + RemoteCount(todo, e) == Count(start, e) + RemoteCount(remote, e)
      decreases |todo|
    {
      var q :| q in todo;
      ghost var v0, todo0 := v, todo;
      v := MergeInto(v, todo[q].entries);
      Fewer(todo, q);
      todo := todo - {q};
      forall e
        ensures Count(v, e) + RemoteCount(todo, e) == Count(v0, e) + RemoteCount(todo0, e)
      {
        hide RemoteCount, At;
        RemoteCountPick(todo0, q, e);
        assert At(v, e.key) == At(v0, e.key) + At(todo0[q].entries, e.key);
      }
    }
  }

  function LeavesOf(fanned: seq<Diff>, e: Entry): nat {
    if fanned == [] then 0 else LeavesOf(fanned[..|fanned| - 1], e) + Count(fanned[|fanned| - 1].leaves, e)
  }

  function Dead(t: Topic, now: int, interval: nat): set<Pod> {
    set q | q in t.remote && Expired(t.remote[q], now, interval)
  }

  lemma KeptIsRest(t: Topic, now: int, interval: nat)
    ensures t.(remote := t.remote - Dead(t, now, interval)) == Kept(t, now, interval)
  {
  }

  lemma LeavesMore(fanned: seq<Diff>, d: Diff, e: Entry)
    ensures LeavesOf(fanned + [d], e) == LeavesOf(fanned, e) + Count(d.leaves, e)
  {
    assert (fanned + [d])[..|fanned|] == fanned;
  }

  /** Expired pods are dropped one by one; a pod that claimed nothing is dropped silently. */
  method Expire(remote: map<Pod, Remote>, dead: set<Pod>) returns (rest: map<Pod, Remote>, fanned: seq<Diff>)
    requires dead <= remote.Keys
    ensures rest == remote - dead
    ensures forall e :: RemoteCount(remote, e) == RemoteCount(rest, e) + LeavesOf(fanned, e)
    ensures forall d :: d in fanned ==> d.joins == map[]
  {
    rest, fanned := remote, [];
    var todo := dead;
    while todo != {}
      invariant todo <= dead && rest == remote - (dead - todo)
      invariant forall e :: RemoteCount(remote, e) == RemoteCount(rest, e) + LeavesOf(fanned, e)
      invariant forall d :: d in fanned ==> d.joins == map[]
    {
      var q :| q in todo;
      ghost var rest0, fanned0 := rest, fanned;
      var d := Diff(map[], rest[q].entries);
      if d.leaves != map[] {
        fanned := fanned + [d];
      }
      rest := rest - {q};
      todo := todo - {q};
      forall e
        ensures RemoteCount(remote, e) == RemoteCount(rest, e) + LeavesOf(fanned, e)
      {
        hide RemoteCount, LeavesOf;
        RemoteCountPick(rest0, q, e);
        LeavesMore(fanned0, d, e);
      }
    }
  }

  /** One pod's presence on one topic. */
  class Tracker {
    var topic: Option<Topic>

    constructor ()
      ensures topic == None
    {
      topic := None;
    }

    function Here(): Topic
      reads this
    {
      if topic.Some? then topic.value else NOBODY
    }

    /** Adds or replaces this membership's track; `pushed`: the list sent to the member. */
    method TrackNow(c: Conn, e: Entry) returns (sends: seq<Msg>, fanned: seq<Diff>, pushed: View)
      modifies this
      ensures topic == Some(Tracked(old(Here()), c, e))
      ensures sends == TrackSends(old(Here()), c, e)
      ensures sends == (if c in old(Here()).local then [Leave(old(Here()).local[c])] else [])
        + (if old(Here()).local == map[] && !old(Here()).subscribed then [Req] else []) + [Join(e)]
      ensures fanned == (if c in old(Here()).local then [Diff(map[], One(old(Here()).local[c]))] else [])
        + [Diff(One(e), map[])]
      ensures forall x :: Count(pushed, x) == Listed(Tracked(old(Here()), c, e), x)
    {
      var entry := Here();
      var first := entry.local == map[] && !entry.subscribed;
      if first {
        entry := entry.(subscribed := true);
      }
      sends, fanned := [], [];
      if c in entry.local {
        sends := [Leave(entry.local[c])];
        fanned := [Diff(map[], One(entry.local[c]))];
      }
      topic := Some(entry.(local := entry.local[c := e]));
      if first {
        sends := sends + [Req];
      }
      sends := sends + [Join(e)];
      fanned := fanned + [Diff(One(e), map[])];
      pushed := List();
    }

    /** Ends this membership's track, if it has one, and tells everyone. */
    method Untrack(c: Conn) returns (sends: seq<Msg>, fanned: seq<Diff>)
      modifies this
      ensures topic == (if old(topic).Some? then Untracked(old(topic).value, c) else None)
      ensures sends == (if c in old(Here()).local then [Leave(old(Here()).local[c])] else [])
      ensures fanned == (if c in old(Here()).local then [Diff(map[], One(old(Here()).local[c]))] else [])
    {
      if topic.None? {
        return [], [];
      }
      var entry := topic.value;
      sends, fanned := [], [];
      if c in entry.local {
        var left := entry.local[c];
        entry := entry.(local := entry.local - {c});
        topic := if entry.local == map[] then None else Some(entry);
        sends, fanned := [Leave(left)], [Diff(map[], One(left))];
      }
    }

    /** A message of another pod: the cache, the reply to a request, the diff fanned out.
        Every state diff is exact and minimal, and silent exactly when nothing changed. */
    method OnMessage(q: Pod, m: Msg, now: int) returns (reply: Option<View>, diff: Option<Diff>)
      modifies this
      ensures m.Req? ==> topic == old(topic) && diff == None && (reply.Some? <==> topic.Some?)
      ensures reply.Some? ==> forall e :: Count(reply.value, e) == LocalCount(Here().local, e)
      ensures !m.Req? ==> topic == Some(Received(old(Here()), q, m, now)) && reply == None
      ensures m.Join? ==> diff == Some(Diff(One(m.e), map[]))
      ensures m.Leave? ==> diff == Some(Diff(map[], One(m.e)))
      ensures m.State? ==>
        var d := if diff.Some? then diff.value else Diff(map[], map[]);
        Exact(old(Here()), d, Here()) && Minimal(d) && IsDiff(Cached(old(Here()), q), m.view, d)
      ensures m.State? ==> (diff.None? <==> Unchanged(Cached(old(Here()), q), m.view))
    {
      reply, diff := None, None;
      var entry := Here();
      match m
      case Req =>
        if topic.Some? {
          var v := Snapshot(topic.value.local);
          reply := Some(v);
        }
      case Join(e) =>
        topic := Some(entry.(remote := entry.remote[q := Remote(now, WithMeta(Cached(entry, q), e))]));
        diff := Some(Diff(One(e), map[]));
      case Leave(e) =>
        topic := Some(entry.(remote := entry.remote[q := Remote(now, WithoutMeta(Cached(entry, q), e))]));
        diff := Some(Diff(map[], One(e)));
      case State(v) =>
        var d := DiffStates(Cached(entry, q), v);
        topic := Some(entry.(remote := entry.remote[q := Remote(now, v)]));
        StateExact(entry, q, v, now, d);
        SilentIff(Cached(entry, q), v, d);
        if d.joins != map[] || d.leaves != map[] {
          diff := Some(d);
        }
    }

    /** One heartbeat tick: the state to publish, then the pods not heard from for more than
        two and a half intervals expired, and nobody else. What they claimed leaves the list
        exactly. */
    method Housekeep(now: int, interval: nat) returns (state: Option<View>, fanned: seq<Diff>)
      modifies this
      ensures old(topic).None? ==> topic == None && state == None && fanned == []
      ensures old(topic).Some? ==>
        && topic.Some? && topic.value.local == old(topic).value.local
        && topic.value.subscribed == old(topic).value.subscribed
        && forall q :: q in topic.value.remote <==>
             q in old(topic).value.remote && 2 * (now - old(topic).value.remote[q].lastSeen) <= 5 * interval
      ensures forall q :: q in Here().remote ==> Here().remote[q] == old(Here()).remote[q]
      ensures old(topic).Some? ==>
        state.Some? && forall e :: Count(state.value, e) == LocalCount(old(topic).value.local, e)
      ensures forall e :: Listed(old(Here()), e) == Listed(Here(), e) + LeavesOf(fanned, e)
    {
      state, fanned := None, [];
      if topic.None? {
        return;
      }
      var entry := topic.value;
      var v := Snapshot(entry.local);
      state := Some(v);
      var rest, diffs := Expire(entry.remote, Dead(entry, now, interval));
      fanned := diffs;
      topic := Some(entry.(remote := rest));
      KeptIsRest(entry, now, interval);
    }

    /** The merged list: every member tracked here, and every other pod's as cached. */
    method List() returns (v: View)
      ensures forall e :: Count(v, e) == Listed(Here(), e)
    {
      if topic.None? {
        return map[];
      }
      v := Snapshot(topic.value.local);
      v := MergePods(v, topic.value.remote);
    }
  }
}
