/** The store side's credentials cache, in every reachable state of both controllers and everybody
    else and from any start: it holds what the API server holds, and how it came by that. */
module StoreCache {
  import opened Options
  import opened Kube
  import opened Payload
  import opened Events
  import opened Worlds
  import opened Separation
  import S = StorePass
  import SM = StoreMachine

  // ---------------------------------------------------------------- the invariant

  /** A cache entry equals what the API server holds for a secret of the role. */
  ghost predicate Backed(cfg: Setup, c: Cluster, at: int, role: string, e: SM.Cached) {
    && e.from in c.secrets && Whose(c.secrets[e.from]) == StoreSide
    && c.secrets[e.from].data == e.data && S.PairOf(e.from).role == role
    && Proven(cfg, at, e)
  }

  /** It passed the expiry test since the pass began, or is made of an STS answer. */
  ghost predicate Proven(cfg: Setup, at: int, e: SM.Cached) {
    match e.how
    case CheckedAt(t) => t >= at && !NeedsRefresh(e.data, t, cfg.store.refreshLimit)
    case IssuedNow(i) => e.data == StorePayload(i)
  }

  ghost predicate CacheBacked(cfg: Setup, c: Cluster, at: int, cache: SM.Cache) {
    forall role :: role in cache ==> Backed(cfg, c, at, role, cache[role])
  }

  /** No cached secret is still to be treated. */
  ghost predicate Behind(cache: SM.Cache, todo: seq<Secret>) {
    forall role, s :: role in cache && s in todo ==> cache[role].from != s.key
  }

  ghost predicate Caching(cfg: Setup, c: Cluster, at: int, b: SM.Local) {
    !b.Idle? ==> CacheBacked(cfg, c, at, b.cache) && (b.Scanning? ==> Behind(b.cache, b.todo))
  }

  ghost predicate CacheInv(cfg: Setup, w: World) {
    Inv(w) && w.scanAt <= w.now && Caching(cfg, w.c, w.scanAt, w.b)
  }

  // ---------------------------------------------------------------- frames

  lemma CacheStable(cfg: Setup, who: Actor, c: Cluster, d: Cluster, at: int, b: SM.Local)
    requires Behaves(who, c, d) && who != StoreSide && Caching(cfg, c, at, b)
    ensures Caching(cfg, d, at, b)
  {
    if !b.Idle? {
      forall role | role in b.cache ensures Backed(cfg, d, at, role, b.cache[role]) {
        assert Backed(cfg, c, at, role, b.cache[role]);
        assert Unchanged(c, d, b.cache[role].from);
      }
    }
  }

  /** An entry whose secret the request did not touch stays backed. */
  lemma CacheUntouched(cfg: Setup, c: Cluster, d: Cluster, k: Key, at: int, cache: SM.Cache)
    requires CacheBacked(cfg, c, at, cache) && TouchedAt(StoreSide, c, d, k)
    requires k in c.secrets ==> Unchanged(c, d, k) || forall role :: role in cache ==> cache[role].from != k
    ensures CacheBacked(cfg, d, at, cache)
  {
    forall role | role in cache ensures Backed(cfg, d, at, role, cache[role]) {
      assert Backed(cfg, c, at, role, cache[role]);
    }
  }

  // ---------------------------------------------------------------- the store side's steps

  lemma {:induction false} FillKeepsCache(work: seq<Wanted>, cache: SM.Cache, seen: set<S.Pair>)
    ensures var l := SM.FillNext(work, cache, seen); !l.Scanning? && (!l.Idle? ==> l.cache == cache)
    decreases |work|, 0
  {
    if |work| > 0 && work[0].role in cache {
      MakeKeepsCache(work[0].role, S.Missing(work[0].role, work[0].namespaces, seen), cache[work[0].role].data,
        work[1..], cache, seen);
    }
  }

  lemma {:induction false} MakeKeepsCache(role: string, namespaces: seq<string>, data: Data, work: seq<Wanted>,
          cache: SM.Cache, seen: set<S.Pair>)
    ensures var l := SM.MakeNext(role, namespaces, data, work, cache, seen);
            !l.Scanning? && (!l.Idle? ==> l.cache == cache)
    decreases |work|, 1
  {
    if |namespaces| == 0 {
      FillKeepsCache(work, cache, seen);
    }
  }

  /** The secrets left to treat are none of those already cached, nor the one just treated. */
  lemma BehindTail(cache: SM.Cache, todo: seq<Secret>, role: string, e: SM.Cached)
    requires |todo| > 0 && UniqueSecrets(todo) && Behind(cache, todo) && e.from == todo[0].key
    ensures Behind(cache, todo[1..]) && Behind(cache[role := e], todo[1..])
  {
    forall s | s in todo[1..] ensures s in todo && s.key != todo[0].key {
      var i :| 0 <= i < |todo[1..]| && todo[1..][i] == s;
      assert s == todo[i + 1];
    }
  }

  lemma CacheGrows(cfg: Setup, c: Cluster, at: int, todo: seq<Secret>, cache: SM.Cache, seen: set<S.Pair>, e: SM.Cached)
    requires |todo| > 0 && UniqueSecrets(todo) && Behind(cache, todo) && e.from == todo[0].key
    requires CacheBacked(cfg, c, at, cache)
    ensures Caching(cfg, c, at, SM.ScanNext(todo[1..], cache, seen))
    ensures var role := S.PairOf(todo[0].key).role;
            Backed(cfg, c, at, role, e) ==> Caching(cfg, c, at, SM.ScanNext(todo[1..], cache[role := e], seen))
  {
    var role := S.PairOf(todo[0].key).role;
    BehindTail(cache, todo, role, e);
    if Backed(cfg, c, at, role, e) {
      var grown := cache[role := e];
      forall r | r in grown ensures Backed(cfg, c, at, r, grown[r]) {
        assert r != role ==> Backed(cfg, c, at, r, cache[r]);
      }
    }
  }

  /** Data just stored for a secret is backed by it. */
  lemma StoredBacked(cfg: Setup, c: Cluster, s: Secret, i: Issued, f: Fault, at: int)
    requires CopyOf(StoreSide, c, s) && Answered(f, c, UpdateSecret(c, s.(data := StorePayload(i)))).1
    ensures var d := Answered(f, c, UpdateSecret(c, s.(data := StorePayload(i)))).0;
            Backed(cfg, d, at, S.PairOf(s.key).role, SM.Cached(StorePayload(i), s.key, SM.IssuedNow(i)))
  {
  }

  lemma ScanKeepsCache(cfg: Setup, w: World, e: Event, f: Fault)
    requires CacheInv(cfg, w) && Enabled(cfg, w, Request(StoreSide, e, f)) && w.b.Scanning?
    requires CacheBacked(cfg, After(w.c, e, f), w.scanAt, w.b.cache)
    ensures Caching(cfg, After(w.c, e, f), w.scanAt, SM.Step(cfg.store, w.b, e).value)
  {
    var d, todo, cache := After(w.c, e, f), w.b.todo, w.b.cache;
    var s := todo[0];
    assert s in todo;
    match w.b.stage
    case Look =>
    case Check => CacheGrows(cfg, d, w.scanAt, todo, cache, w.b.seen, SM.Cached(s.data, s.key, SM.CheckedAt(e.now)));
    case Holding(i) =>
      CacheGrows(cfg, d, w.scanAt, todo, cache, w.b.seen, SM.Cached(StorePayload(i), s.key, SM.IssuedNow(i)));
      if e.ok {
        StoredBacked(cfg, w.c, s, i, f, w.scanAt);
      }
    case _ => CacheGrows(cfg, d, w.scanAt, todo, cache, w.b.seen, SM.Cached(s.data, s.key, SM.CheckedAt(w.now)));
  }

  /** A request of the store side leaves the cache backed. */
  lemma StoreCacheKept(cfg: Setup, w: World, e: Event, f: Fault)
    requires CacheInv(cfg, w) && Enabled(cfg, w, Request(StoreSide, e, f)) && !w.b.Idle?
    ensures CacheBacked(cfg, After(w.c, e, f), w.scanAt, w.b.cache)
  {
    StoreTouches(cfg, w.c, w.b, e, f);
    assert w.b.Scanning? ==> w.b.todo[0] in w.b.todo;
    CacheUntouched(cfg, w.c, After(w.c, e, f), StoreKey(w.b), w.scanAt, w.b.cache);
  }

  lemma StoreStepCaches(cfg: Setup, w: World, e: Event, f: Fault)
    requires CacheInv(cfg, w) && Enabled(cfg, w, Request(StoreSide, e, f))
    ensures var v := Next(cfg, w, Request(StoreSide, e, f)); Caching(cfg, v.c, v.scanAt, v.b)
  {
    if !w.b.Idle? {
      StoreCacheKept(cfg, w, e, f);
    }
    match w.b
    case Idle =>
    case Scanning(_, _, _, _) => ScanKeepsCache(cfg, w, e, f);
    case Scanned(cache, seen) => FillKeepsCache(e.wanted, cache, seen);
    case Wanting(work, cache, seen) =>
      FillKeepsCache(work[1..], cache, seen);
      if e.answer.Some? {
        MakeKeepsCache(e.role, S.Missing(e.role, work[0].namespaces, seen), StorePayload(e.answer.value), work[1..],
          cache, seen);
      }
    case Making(role, namespaces, data, work, cache, seen) =>
      MakeKeepsCache(role, namespaces[1..], data, work, cache, seen);
  }

  lemma StepCaches(cfg: Setup, w: World, act: Action)
    requires CacheInv(cfg, w) && Enabled(cfg, w, act)
    ensures CacheInv(cfg, Next(cfg, w, act))
  {
    StepKeeps(cfg, w, act);
    if act.Request? && act.who == StoreSide {
      StoreStepCaches(cfg, w, act.e, act.fault);
    } else {
      CacheStable(cfg, if act.Request? then act.who else Others, w.c, Next(cfg, w, act).c, w.scanAt, w.b);
    }
  }

  lemma {:induction false} RunCaches(cfg: Setup, w: World, acts: seq<Action>)
    requires Start(w) && w.scanAt <= w.now && Possible(cfg, w, acts)
    ensures CacheInv(cfg, Reached(cfg, w, acts))
  {
    if |acts| > 0 {
      RunCaches(cfg, w, acts[..|acts| - 1]);
      StepCaches(cfg, Reached(cfg, w, acts[..|acts| - 1]), acts[|acts| - 1]);
    }
  }

  // ---------------------------------------------------------------- what the entries rest on

  predicate Lists(act: Action) {
    act.Request? && act.who == StoreSide && act.e.SecretsListed?
  }

  /** The store side got this answer at step `j`, and has read no list since. */
  ghost predicate HeardAt(acts: seq<Action>, j: int, e: Event) {
    && 0 <= j < |acts| && acts[j].Request? && acts[j].who == StoreSide && acts[j].e == e
    && forall k :: j < k < |acts| ==> !Lists(acts[k])
  }

  /** It got this answer in its present pass. */
  ghost predicate InPass(acts: seq<Action>, e: Event) {
    exists j :: HeardAt(acts, j, e)
  }

  /** What an entry came from: the clock reading of its expiry test, or the STS answer for the role. */
  ghost predicate Witnessed(acts: seq<Action>, role: string, e: SM.Cached) {
    match e.how
    case CheckedAt(t) => InPass(acts, ClockRead(t))
    case IssuedNow(i) => InPass(acts, Asked(role, S.SESSION, Some(i)))
  }

  ghost predicate AllWitnessed(acts: seq<Action>, b: SM.Local) {
    !b.Idle? ==>
      && (forall role :: role in b.cache ==> Witnessed(acts, role, b.cache[role]))
      && (b.Scanning? ==>
            && |b.todo| > 0
            && (b.stage.Holding? ==>
                  InPass(acts, Asked(S.PairOf(b.todo[0].key).role, S.SESSION, Some(b.stage.issued)))))
  }

  lemma StillInPass(acts: seq<Action>, act: Action, e: Event)
    requires InPass(acts, e) && !Lists(act)
    ensures InPass(acts + [act], e)
  {
    var j :| HeardAt(acts, j, e);
    assert HeardAt(acts + [act], j, e);
  }

  lemma JustInPass(acts: seq<Action>, act: Action)
    requires act.Request? && act.who == StoreSide
    ensures InPass(acts + [act], act.e)
  {
    assert HeardAt(acts + [act], |acts|, act.e);
  }

  lemma CacheStillWitnessed(acts: seq<Action>, act: Action, cache: SM.Cache)
    requires !Lists(act) && forall role :: role in cache ==> Witnessed(acts, role, cache[role])
    ensures forall role :: role in cache ==> Witnessed(acts + [act], role, cache[role])
  {
    forall role | role in cache ensures Witnessed(acts + [act], role, cache[role]) {
      assert Witnessed(acts, role, cache[role]);
      match cache[role].how
      case CheckedAt(t) => StillInPass(acts, act, ClockRead(t));
      case IssuedNow(i) => StillInPass(acts, act, Asked(role, S.SESSION, Some(i)));
    }
  }

  lemma LocalStillWitnessed(acts: seq<Action>, act: Action, b: SM.Local)
    requires !Lists(act) && AllWitnessed(acts, b)
    ensures AllWitnessed(acts + [act], b)
  {
    if !b.Idle? {
      CacheStillWitnessed(acts, act, b.cache);
      if b.Scanning? && b.stage.Holding? {
        StillInPass(acts, act, Asked(S.PairOf(b.todo[0].key).role, S.SESSION, Some(b.stage.issued)));
      }
    }
  }

  lemma StoreStepWitnessed(cfg: Setup, b: SM.Local, acts: seq<Action>, act: Action)
    requires AllWitnessed(acts, b) && act.Request? && act.who == StoreSide && SM.Step(cfg.store, b, act.e).Some?
    ensures AllWitnessed(acts + [act], SM.Step(cfg.store, b, act.e).value)
  {
    var e := act.e;
    JustInPass(acts, act);
    if !b.Idle? {
      LocalStillWitnessed(acts, act, b);
    }
    match b
    case Idle =>
    case Scanning(_, _, _, _) =>
    case Scanned(cache, seen) => FillKeepsCache(e.wanted, cache, seen);
    case Wanting(work, cache, seen) =>
      FillKeepsCache(work[1..], cache, seen);
      if e.answer.Some? {
        MakeKeepsCache(e.role, S.Missing(e.role, work[0].namespaces, seen), StorePayload(e.answer.value), work[1..],
          cache, seen);
      }
    case Making(role, namespaces, data, work, cache, seen) =>
      MakeKeepsCache(role, namespaces[1..], data, work, cache, seen);
  }

  lemma {:induction false} RunWitnessed(cfg: Setup, w: World, acts: seq<Action>)
    requires Start(w) && Possible(cfg, w, acts)
    ensures AllWitnessed(acts, Reached(cfg, w, acts).b)
  {
    if |acts| > 0 {
      var init, act := acts[..|acts| - 1], acts[|acts| - 1];
      assert acts == init + [act];
      RunWitnessed(cfg, w, init);
      if act.Request? && act.who == StoreSide {
        StoreStepWitnessed(cfg, Reached(cfg, w, init).b, init, act);
      } else {
        LocalStillWitnessed(init, act, Reached(cfg, w, init).b);
      }
    }
  }

  // ---------------------------------------------------------------- the theorem

  /** In every reachable state of every run, whatever the secrets held at the start: a cache entry is
      the data that the API server holds for an unowned secret of the role, and either passed the
      expiry test at a time the clock showed in this pass, or is made of an answer that STS gave for
      the role in this pass. */
  lemma {:induction false} CacheSoundness(cfg: Setup, w: World, acts: seq<Action>, role: string)
    requires Start(w) && w.scanAt <= w.now && Possible(cfg, w, acts)
    ensures var v := Reached(cfg, w, acts);
            !v.b.Idle? && role in v.b.cache ==>
              && Backed(cfg, v.c, v.scanAt, role, v.b.cache[role])
              && Witnessed(acts, role, v.b.cache[role])
  {
    RunCaches(cfg, w, acts);
    RunWitnessed(cfg, w, acts);
  }
}
