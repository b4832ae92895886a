/** The credentials in the secrets, in every reachable state of both controllers and everybody else
    and from any start: each payload comes from one STS answer or was there at the start, and no
    secret that is checked often enough holds expired credentials. */
module Freshness {
  import opened Options
  import opened Kube
  import opened Payload
  import opened Events
  import opened Worlds
  import opened Separation
  import opened StoreCache
  import Generations
  import R = RolePass
  import RM = RoleMachine
  import S = StorePass
  import SM = StoreMachine
  import RoleTrace

  // ---------------------------------------------------------------- what is assumed of STS

  function Limit(cfg: Setup, who: Actor): int {
    if who == RoleSide then cfg.role.refreshLimit else cfg.store.refreshLimit
  }

  /** A session that is granted is at least as long as asked for, and was asked to be at least as
      long as the refresh limit. */
  predicate Punctual(cfg: Setup, w: World, act: Action) {
    act.Request? && act.e.Asked? && act.e.answer.Some? ==>
      act.e.answer.value.expiration >= w.now + act.e.duration && act.e.duration >= Limit(cfg, act.who)
  }

  ghost predicate PunctualRun(cfg: Setup, w: World, acts: seq<Action>) {
    |acts| > 0 ==>
      PunctualRun(cfg, w, acts[..|acts| - 1]) && Punctual(cfg, Reached(cfg, w, acts[..|acts| - 1]), acts[|acts| - 1])
  }

  // ---------------------------------------------------------------- the invariant; `p` says that STS is punctual

  /** Data that some secret held at the start. */
  ghost predicate Inherited(c0: Cluster, data: Data) {
    exists k :: k in c0.secrets && c0.secrets[k].data == data
  }

  ghost predicate Sourced(c0: Cluster, data: Data) {
    Coherent(data) || Inherited(c0, data)
  }

  /** If STS is punctual, data from one STS answer outlasts an instant by a limit. */
  ghost predicate Outlasts(p: bool, data: Data, at: int, limit: int) {
    p && Coherent(data) ==> RealExpiry(data).Some? && RealExpiry(data).value >= at + limit
  }

  ghost predicate StillAs(c0: Cluster, s: Secret) {
    s.key in c0.secrets && c0.secrets[s.key] == s
  }

  ghost predicate SecretFresh(cfg: Setup, p: bool, c0: Cluster, checked: map<Key, int>, s: Secret) {
    && Sourced(c0, s.data)
    && (s.key !in checked ==> StillAs(c0, s))
    && (s.key in checked ==> Outlasts(p, s.data, checked[s.key], Limit(cfg, Whose(s))))
  }

  ghost predicate ClusterFresh(cfg: Setup, p: bool, c0: Cluster, c: Cluster, checked: map<Key, int>) {
    forall k :: k in c.secrets && Whose(c.secrets[k]) != Others ==> SecretFresh(cfg, p, c0, checked, c.secrets[k])
  }

  /** As good as data that passes the expiry test at an instant: it passes it, or it is made of an STS
      answer that, if STS is punctual, outlasts the instant by the limit. */
  ghost predicate AsIfChecked(p: bool, data: Data, at: int, limit: int) {
    !NeedsRefresh(data, at, limit) || exists i :: IsFrom(p, data, i, at, limit)
  }

  ghost predicate IsFrom(p: bool, data: Data, i: Issued, at: int, limit: int) {
    data == StorePayload(i) && (p ==> i.expiration >= at + limit)
  }

  ghost predicate CacheLasts(p: bool, at: int, limit: int, cache: SM.Cache) {
    p ==> forall role :: role in cache && cache[role].how.IssuedNow? ==> cache[role].how.issued.expiration >= at + limit
  }

  ghost predicate StoreFresh(p: bool, c0: Cluster, at: int, limit: int, b: SM.Local) {
    match b
    case Idle => true
    case Scanning(_, stage, cache, _) =>
      CacheLasts(p, at, limit, cache) && (p && stage.Holding? ==> stage.issued.expiration >= at + limit)
    case Scanned(cache, _) => CacheLasts(p, at, limit, cache)
    case Wanting(_, cache, _) => CacheLasts(p, at, limit, cache)
    case Making(_, _, data, _, cache, _) =>
      CacheLasts(p, at, limit, cache) && AsIfChecked(p, data, at, limit) && Sourced(c0, data)
  }

  ghost predicate RoleFresh(cfg: Setup, p: bool, askedAt: int, a: RM.Local) {
    p && a.Running? && a.stage.Holding? ==> a.stage.issued.expiration >= askedAt + cfg.role.refreshLimit
  }

  ghost predicate AllFresh(cfg: Setup, p: bool, c0: Cluster, w: World) {
    && CacheInv(cfg, w)
    && ClusterFresh(cfg, p, c0, w.c, w.checked)
    && StoreFresh(p, c0, w.scanAt, cfg.store.refreshLimit, w.b)
    && RoleFresh(cfg, p, w.askedAt, w.a)
  }

  // ---------------------------------------------------------------- payloads

  lemma StorePayloadLasts(p: bool, i: Issued, at: int, limit: int)
    requires p ==> i.expiration >= at + limit
    ensures Coherent(StorePayload(i)) && Outlasts(p, StorePayload(i), at, limit)
  {
    assert FromAnswer(StorePayload(i), i);
  }

  lemma RolePayloadLasts(p: bool, arn: string, i: Issued, generation: int, at: int, limit: int)
    requires p ==> i.expiration >= at + limit
    ensures Coherent(RolePayload(arn, i, generation)) && Outlasts(p, RolePayload(arn, i, generation), at, limit)
  {
    RoleTrace.PayloadCoherent(arn, i, generation);
  }

  /** Data that passes the expiry test outlasts the limit: the stored expiry is never the later one. */
  lemma PassedLasts(p: bool, data: Data, now: int, limit: int)
    requires !NeedsRefresh(data, now, limit)
    ensures Outlasts(p, data, now, limit)
  {
    if Coherent(data) {
      ExpireNeverLater(data);
    }
  }

  lemma AsIfCheckedLasts(p: bool, data: Data, at: int, limit: int)
    requires AsIfChecked(p, data, at, limit)
    ensures Outlasts(p, data, at, limit)
  {
    if !NeedsRefresh(data, at, limit) {
      PassedLasts(p, data, at, limit);
    } else {
      var i :| IsFrom(p, data, i, at, limit);
      StorePayloadLasts(p, i, at, limit);
    }
  }

  /** What the cache holds is as good as checked when the pass began, and comes from somewhere. */
  lemma CachedIsGood(cfg: Setup, p: bool, c0: Cluster, c: Cluster, checked: map<Key, int>, at: int,
          cache: SM.Cache, role: string)
    requires CacheBacked(cfg, c, at, cache) && ClusterFresh(cfg, p, c0, c, checked) && role in cache
    requires CacheLasts(p, at, cfg.store.refreshLimit, cache)
    ensures AsIfChecked(p, cache[role].data, at, cfg.store.refreshLimit) && Sourced(c0, cache[role].data)
  {
    var e := cache[role];
    assert Backed(cfg, c, at, role, e) && SecretFresh(cfg, p, c0, checked, c.secrets[e.from]);
    match e.how
    case CheckedAt(t) =>
    case IssuedNow(i) => assert IsFrom(p, e.data, i, at, cfg.store.refreshLimit);
  }

  // ---------------------------------------------------------------- frames

  /** A request at one key leaves the others as fresh as they were. */
  lemma TouchFresh(cfg: Setup, p: bool, c0: Cluster, who: Actor, w: World, v: World, k: Key)
    requires WellFormed(w.c) && TouchedAt(who, w.c, v.c, k) && ClusterFresh(cfg, p, c0, w.c, w.checked)
    requires KeyFresh(cfg, p, c0, w, v, k)
    ensures ClusterFresh(cfg, p, c0, v.c, v.checked)
  {
    forall j | j in v.c.secrets && Whose(v.c.secrets[j]) != Others
      ensures SecretFresh(cfg, p, c0, v.checked, v.c.secrets[j])
    {
      if j != k {
        FreshAt(cfg, p, c0, w, j);
      }
    }
  }

  /** After a request at its key: other keys were last checked when they were, and the secret there is
      fresh since its own last check. */
  ghost predicate KeyFresh(cfg: Setup, p: bool, c0: Cluster, w: World, v: World, k: Key) {
    && (forall j :: j != k ==>
          (j in w.checked <==> j in v.checked) && (j in w.checked ==> v.checked[j] == w.checked[j]))
    && (k in v.c.secrets && Whose(v.c.secrets[k]) != Others ==> SecretFresh(cfg, p, c0, v.checked, v.c.secrets[k]))
  }

  lemma FreshAt(cfg: Setup, p: bool, c0: Cluster, w: World, k: Key)
    requires WellFormed(w.c) && ClusterFresh(cfg, p, c0, w.c, w.checked)
    requires k in w.c.secrets && Whose(w.c.secrets[k]) != Others
    ensures SecretFresh(cfg, p, c0, w.checked, w.c.secrets[k]) && w.c.secrets[k].key == k
  {
    assert SecretFits(w.c.secrets[k], k, w.c.next);
  }

  /** A stored write is as good as the data written. */
  lemma WriteFresh(cfg: Setup, p: bool, c0: Cluster, w: World, v: World, who: Actor, e: Event, f: Fault, stamp: int)
    requires e.SecretPut? || e.SecretMade?
    requires WellFormed(w.c) && ClusterFresh(cfg, p, c0, w.c, w.checked) && v.c == After(w.c, e, f)
    requires v.checked == if v.c.next != w.c.next then w.checked[e.secret.key := stamp] else w.checked
    requires Whose(e.secret) == who && Sourced(c0, e.secret.data) && Outlasts(p, e.secret.data, stamp, Limit(cfg, who))
    ensures KeyFresh(cfg, p, c0, w, v, e.secret.key)
  {
    var k := e.secret.key;
    if k in w.c.secrets && Whose(w.c.secrets[k]) != Others {
      FreshAt(cfg, p, c0, w, k);
    }
  }

  lemma NoWriteFresh(cfg: Setup, p: bool, c0: Cluster, w: World, v: World, e: Event, f: Fault, k: Key)
    requires !e.SecretPut? && !e.SecretMade? && v.c == After(w.c, e, f) && v.checked == w.checked
    requires WellFormed(w.c) && ClusterFresh(cfg, p, c0, w.c, w.checked)
    ensures KeyFresh(cfg, p, c0, w, v, k)
  {
    if k in w.c.secrets && Whose(w.c.secrets[k]) != Others {
      FreshAt(cfg, p, c0, w, k);
    }
  }

  /** A passed expiry test is about what is stored. */
  lemma CheckFresh(cfg: Setup, p: bool, c0: Cluster, w: World, v: World, who: Actor, s: Secret, now: int)
    requires WellFormed(w.c) && ClusterFresh(cfg, p, c0, w.c, w.checked) && v.c == w.c
    requires who != Others && Whose(s) == who && Stored(w.c, s)
    requires v.checked == Passing(w.checked, s, now, Limit(cfg, who))
    ensures KeyFresh(cfg, p, c0, w, v, s.key)
  {
    FreshAt(cfg, p, c0, w, s.key);
    if !NeedsRefresh(s.data, now, Limit(cfg, who)) {
      PassedLasts(p, s.data, now, Limit(cfg, who));
    }
  }

  // ---------------------------------------------------------------- everybody else's steps

  lemma OthersFresh(cfg: Setup, p: bool, c0: Cluster, w: World, act: Action)
    requires AllFresh(cfg, p, c0, w) && Enabled(cfg, w, act) && !act.Request?
    ensures AllFresh(cfg, p, c0, Next(cfg, w, act))
  {
    var v := Next(cfg, w, act);
    StepCaches(cfg, w, act);
    StepKeeps(cfg, w, act);
    forall k | k in v.c.secrets && Whose(v.c.secrets[k]) != Others
      ensures SecretFresh(cfg, p, c0, v.checked, v.c.secrets[k])
    {
      assert Unchanged(w.c, v.c, k) || NewFrom(Others, v.c.secrets[k], w.c.next);
      assert SecretFresh(cfg, p, c0, w.checked, w.c.secrets[k]);
    }
  }

  // ---------------------------------------------------------------- the role side's steps

  /** What the role side writes. */
  lemma RoleWrites(cfg: Setup, w: World, e: Event, f: Fault)
    requires Inv(w) && Enabled(cfg, w, Request(RoleSide, e, f)) && w.a.Running? && (e.SecretPut? || e.SecretMade?)
    ensures w.a.stage.Holding? && !w.a.tasks[0].Drop? && e.secret.key == R.KeyOf(w.a.tasks[0])
    ensures e.secret.data == RolePayload(w.a.stage.arn, w.a.stage.issued, w.a.tasks[0].role.generation)
    ensures Whose(e.secret) == RoleSide
  {
    var t := w.a.tasks[0];
    assert TaskSound(w.c, t, !w.a.stage.Reporting?);
    RoleLabels(t.role.labels);
  }

  lemma RoleWriteFresh(cfg: Setup, p: bool, c0: Cluster, w: World, e: Event, f: Fault)
    requires AllFresh(cfg, p, c0, w) && Enabled(cfg, w, Request(RoleSide, e, f)) && w.a.Running?
    requires e.SecretPut? || e.SecretMade?
    ensures KeyFresh(cfg, p, c0, w, Next(cfg, w, Request(RoleSide, e, f)), R.KeyOf(w.a.tasks[0]))
  {
    RoleWrites(cfg, w, e, f);
    var r := w.a.tasks[0].role;
    RolePayloadLasts(p, w.a.stage.arn, w.a.stage.issued, r.generation, w.askedAt, cfg.role.refreshLimit);
    WriteFresh(cfg, p, c0, w, Next(cfg, w, Request(RoleSide, e, f)), RoleSide, e, f, w.askedAt);
  }

  /** What a request of the role side leaves at its key. */
  lemma RoleKeyFresh(cfg: Setup, p: bool, c0: Cluster, w: World, e: Event, f: Fault)
    requires AllFresh(cfg, p, c0, w) && Enabled(cfg, w, Request(RoleSide, e, f)) && w.a.Running?
    ensures KeyFresh(cfg, p, c0, w, Next(cfg, w, Request(RoleSide, e, f)), R.KeyOf(w.a.tasks[0]))
  {
    var v, t := Next(cfg, w, Request(RoleSide, e, f)), w.a.tasks[0];
    if e.SecretPut? || e.SecretMade? {
      RoleWriteFresh(cfg, p, c0, w, e, f);
    } else if e.ClockRead? {
      assert TaskSound(w.c, t, !w.a.stage.Reporting?);
      CheckFresh(cfg, p, c0, w, v, RoleSide, t.secret, e.now);
    } else {
      NoWriteFresh(cfg, p, c0, w, v, e, f, R.KeyOf(t));
    }
  }

  /** Credentials in hand outlast the limit from when they were asked for. */
  lemma RoleHandFresh(cfg: Setup, p: bool, w: World, e: Event, f: Fault)
    requires RoleFresh(cfg, p, w.askedAt, w.a) && RoleLocal(w.c, w.a)
    requires Enabled(cfg, w, Request(RoleSide, e, f)) && w.a.Running?
    requires p ==> Punctual(cfg, w, Request(RoleSide, e, f))
    ensures var v := Next(cfg, w, Request(RoleSide, e, f)); RoleFresh(cfg, p, v.askedAt, v.a)
  {
    RoleTrace.StepShape(cfg.role, w.a.tasks, w.a.stage, e);
  }

  lemma RoleRequestFresh(cfg: Setup, p: bool, c0: Cluster, w: World, e: Event, f: Fault)
    requires AllFresh(cfg, p, c0, w) && Enabled(cfg, w, Request(RoleSide, e, f))
    requires p ==> Punctual(cfg, w, Request(RoleSide, e, f))
    ensures AllFresh(cfg, p, c0, Next(cfg, w, Request(RoleSide, e, f)))
  {
    var v := Next(cfg, w, Request(RoleSide, e, f));
    StepCaches(cfg, w, Request(RoleSide, e, f));
    if w.a.Running? {
      RoleKeyFresh(cfg, p, c0, w, e, f);
      RoleTouches(cfg, w.c, w.a.tasks, w.a.stage, e, f);
      TouchFresh(cfg, p, c0, RoleSide, w, v, R.KeyOf(w.a.tasks[0]));
      RoleHandFresh(cfg, p, w, e, f);
    }
  }

  // ---------------------------------------------------------------- the store side's steps

  lemma StorePutFresh(cfg: Setup, p: bool, c0: Cluster, w: World, e: Event, f: Fault)
    requires AllFresh(cfg, p, c0, w) && Enabled(cfg, w, Request(StoreSide, e, f)) && e.SecretPut?
    ensures KeyFresh(cfg, p, c0, w, Next(cfg, w, Request(StoreSide, e, f)), StoreKey(w.b))
  {
    assert w.b.todo[0] in w.b.todo;
    StorePayloadLasts(p, w.b.stage.issued, w.scanAt, cfg.store.refreshLimit);
    WriteFresh(cfg, p, c0, w, Next(cfg, w, Request(StoreSide, e, f)), StoreSide, e, f, w.scanAt);
  }

  lemma StoreMadeFresh(cfg: Setup, p: bool, c0: Cluster, w: World, e: Event, f: Fault)
    requires AllFresh(cfg, p, c0, w) && Enabled(cfg, w, Request(StoreSide, e, f)) && e.SecretMade?
    ensures KeyFresh(cfg, p, c0, w, Next(cfg, w, Request(StoreSide, e, f)), StoreKey(w.b))
  {
    StoreLabels();
    AsIfCheckedLasts(p, w.b.data, w.scanAt, cfg.store.refreshLimit);
    WriteFresh(cfg, p, c0, w, Next(cfg, w, Request(StoreSide, e, f)), StoreSide, e, f, w.scanAt);
  }

  lemma StoreCheckFresh(cfg: Setup, p: bool, c0: Cluster, w: World, e: Event, f: Fault)
    requires AllFresh(cfg, p, c0, w) && Enabled(cfg, w, Request(StoreSide, e, f)) && e.ClockRead?
    ensures KeyFresh(cfg, p, c0, w, Next(cfg, w, Request(StoreSide, e, f)), StoreKey(w.b))
  {
    assert w.b.todo[0] in w.b.todo;
    CheckFresh(cfg, p, c0, w, Next(cfg, w, Request(StoreSide, e, f)), StoreSide, w.b.todo[0], e.now);
  }

  /** What a request of the store side leaves at its key. */
  lemma StoreKeyFresh(cfg: Setup, p: bool, c0: Cluster, w: World, e: Event, f: Fault)
    requires AllFresh(cfg, p, c0, w) && Enabled(cfg, w, Request(StoreSide, e, f))
    ensures KeyFresh(cfg, p, c0, w, Next(cfg, w, Request(StoreSide, e, f)), StoreKey(w.b))
  {
    match e
    case SecretPut(_, _) => StorePutFresh(cfg, p, c0, w, e, f);
    case SecretMade(_, _) => StoreMadeFresh(cfg, p, c0, w, e, f);
    case ClockRead(_) => StoreCheckFresh(cfg, p, c0, w, e, f);
    case _ => NoWriteFresh(cfg, p, c0, w, Next(cfg, w, Request(StoreSide, e, f)), e, f, StoreKey(w.b));
  }

  lemma {:induction false} FillFresh(p: bool, c0: Cluster, at: int, limit: int, work: seq<Wanted>, cache: SM.Cache,
          seen: set<S.Pair>)
    requires CacheLasts(p, at, limit, cache)
    requires forall role :: role in cache ==>
               AsIfChecked(p, cache[role].data, at, limit) && Sourced(c0, cache[role].data)
    ensures StoreFresh(p, c0, at, limit, SM.FillNext(work, cache, seen))
    decreases |work|, 0
  {
    if |work| > 0 && work[0].role in cache {
      MakeFresh(p, c0, at, limit, work[0].role, S.Missing(work[0].role, work[0].namespaces, seen),
        cache[work[0].role].data, work[1..], cache, seen);
    }
  }

  lemma {:induction false} MakeFresh(p: bool, c0: Cluster, at: int, limit: int, role: string, namespaces: seq<string>,
          data: Data, work: seq<Wanted>, cache: SM.Cache, seen: set<S.Pair>)
    requires CacheLasts(p, at, limit, cache)
    requires forall role :: role in cache ==>
               AsIfChecked(p, cache[role].data, at, limit) && Sourced(c0, cache[role].data)
    requires AsIfChecked(p, data, at, limit) && Sourced(c0, data)
    ensures StoreFresh(p, c0, at, limit, SM.MakeNext(role, namespaces, data, work, cache, seen))
    decreases |work|, 1
  {
    if |namespaces| == 0 {
      FillFresh(p, c0, at, limit, work, cache, seen);
    }
  }

  /** The credentials in the store side's hands after a step of its second loop. */
  lemma FillStepFresh(cfg: Setup, p: bool, c0: Cluster, w: World, e: Event, f: Fault)
    requires AllFresh(cfg, p, c0, w) && Enabled(cfg, w, Request(StoreSide, e, f))
    requires !w.b.Idle? && !w.b.Scanning? && (p ==> Punctual(cfg, w, Request(StoreSide, e, f)))
    ensures StoreFresh(p, c0, w.scanAt, cfg.store.refreshLimit, SM.Step(cfg.store, w.b, e).value)
  {
    var at, limit, cache := w.scanAt, cfg.store.refreshLimit, w.b.cache;
    forall role | role in cache ensures AsIfChecked(p, cache[role].data, at, limit) && Sourced(c0, cache[role].data) {
      CachedIsGood(cfg, p, c0, w.c, w.checked, at, cache, role);
    }
    match w.b
    case Scanned(cache, seen) => FillFresh(p, c0, at, limit, e.wanted, cache, seen);
    case Wanting(work, cache, seen) =>
      FillFresh(p, c0, at, limit, work[1..], cache, seen);
      if e.answer.Some? {
        StorePayloadLasts(p, e.answer.value, at, limit);
        assert IsFrom(p, StorePayload(e.answer.value), e.answer.value, at, limit);
        MakeFresh(p, c0, at, limit, e.role, S.Missing(e.role, work[0].namespaces, seen), StorePayload(e.answer.value),
          work[1..], cache, seen);
      }
    case Making(role, namespaces, data, work, cache, seen) =>
      MakeFresh(p, c0, at, limit, role, namespaces[1..], data, work, cache, seen);
  }

  /** And after a step of its first loop. */
  lemma ScanStepFresh(cfg: Setup, p: bool, c0: Cluster, at: int, b: SM.Local, e: Event)
    requires b.Scanning? && |b.todo| > 0 && SM.Step(cfg.store, b, e).Some?
    requires StoreFresh(p, c0, at, cfg.store.refreshLimit, b)
    requires p && e.Asked? && e.answer.Some? ==> e.answer.value.expiration >= at + cfg.store.refreshLimit
    ensures StoreFresh(p, c0, at, cfg.store.refreshLimit, SM.Step(cfg.store, b, e).value)
  {
  }

  lemma StoreHandFresh(cfg: Setup, p: bool, c0: Cluster, w: World, e: Event, f: Fault)
    requires AllFresh(cfg, p, c0, w) && Enabled(cfg, w, Request(StoreSide, e, f))
    requires p ==> Punctual(cfg, w, Request(StoreSide, e, f))
    ensures var v := Next(cfg, w, Request(StoreSide, e, f));
            StoreFresh(p, c0, v.scanAt, cfg.store.refreshLimit, v.b)
  {
    if w.b.Scanning? {
      ScanStepFresh(cfg, p, c0, w.scanAt, w.b, e);
    } else if !w.b.Idle? {
      FillStepFresh(cfg, p, c0, w, e, f);
    }
  }

  lemma StoreRequestFresh(cfg: Setup, p: bool, c0: Cluster, w: World, e: Event, f: Fault)
    requires AllFresh(cfg, p, c0, w) && Enabled(cfg, w, Request(StoreSide, e, f))
    requires p ==> Punctual(cfg, w, Request(StoreSide, e, f))
    ensures AllFresh(cfg, p, c0, Next(cfg, w, Request(StoreSide, e, f)))
  {
    var v := Next(cfg, w, Request(StoreSide, e, f));
    StepCaches(cfg, w, Request(StoreSide, e, f));
    StoreKeyFresh(cfg, p, c0, w, e, f);
    StoreTouches(cfg, w.c, w.b, e, f);
    TouchFresh(cfg, p, c0, StoreSide, w, v, StoreKey(w.b));
    StoreHandFresh(cfg, p, c0, w, e, f);
  }

  lemma StepFresh(cfg: Setup, p: bool, c0: Cluster, w: World, act: Action)
    requires AllFresh(cfg, p, c0, w) && Enabled(cfg, w, act) && (p ==> Punctual(cfg, w, act))
    ensures AllFresh(cfg, p, c0, Next(cfg, w, act))
  {
    if !act.Request? {
      OthersFresh(cfg, p, c0, w, act);
    } else if act.who == RoleSide {
      RoleRequestFresh(cfg, p, c0, w, act.e, act.fault);
    } else {
      StoreRequestFresh(cfg, p, c0, w, act.e, act.fault);
    }
  }

  // ---------------------------------------------------------------- whole runs

  /** A start, whatever its secrets hold, from which on checks are recorded. */
  ghost predicate RecordedStart(w: World) {
    Start(w) && w.checked == map[] && w.scanAt <= w.now
  }

  lemma {:induction false} RunFresh(cfg: Setup, p: bool, w: World, acts: seq<Action>)
    requires RecordedStart(w) && Possible(cfg, w, acts) && (p ==> PunctualRun(cfg, w, acts))
    ensures AllFresh(cfg, p, w.c, Reached(cfg, w, acts))
  {
    if |acts| == 0 {
      forall k | k in w.c.secrets ensures SecretFresh(cfg, p, w.c, w.checked, w.c.secrets[k]) {
        assert SecretFits(w.c.secrets[k], k, w.c.next);
      }
    } else {
      var init := acts[..|acts| - 1];
      RunFresh(cfg, p, w, init);
      StepFresh(cfg, p, w.c, Reached(cfg, w, init), acts[|acts| - 1]);
    }
  }

  /** In every reachable state, a labelled secret that passed a check or was written at most the limit
      ago does not hold expired credentials, unless it holds data that was there at the start and
      never came from one STS answer. Sessions are assumed to be as long as asked for, and to be asked
      for at least the limit; nothing is assumed about which requests fail. */
  lemma {:induction false} NoExpiredCredentials(cfg: Setup, w: World, acts: seq<Action>, k: Key)
    requires RecordedStart(w) && Possible(cfg, w, acts) && PunctualRun(cfg, w, acts)
    requires var v := Reached(cfg, w, acts);
             k in v.c.secrets && Whose(v.c.secrets[k]) != Others && k in v.checked
             && v.now <= v.checked[k] + Limit(cfg, Whose(v.c.secrets[k]))
    ensures var v := Reached(cfg, w, acts);
            && k in v.c.secrets
            && var data := v.c.secrets[k].data;
               && (Coherent(data) ==> RealExpiry(data).Some? && v.now <= RealExpiry(data).value)
               && (!Coherent(data) ==> Inherited(w.c, data))
  {
    RunFresh(cfg, true, w, acts);
    FreshAt(cfg, true, w.c, Reached(cfg, w, acts), k);
  }

  /** In every reachable state, whatever STS does: a labelled secret has been checked or written unless
      it is still as it was at the start, and its data comes from one STS answer or was there then. */
  lemma {:induction false} EverySecretChecked(cfg: Setup, w: World, acts: seq<Action>, k: Key)
    requires RecordedStart(w) && Possible(cfg, w, acts)
    requires k in Reached(cfg, w, acts).c.secrets && Whose(Reached(cfg, w, acts).c.secrets[k]) != Others
    ensures var v := Reached(cfg, w, acts);
            && k in v.c.secrets
            && (k in v.checked || (k in w.c.secrets && w.c.secrets[k] == v.c.secrets[k]))
            && (Coherent(v.c.secrets[k].data) || Inherited(w.c, v.c.secrets[k].data))
  {
    RunFresh(cfg, false, w, acts);
    FreshAt(cfg, false, w.c, Reached(cfg, w, acts), k);
  }

  /** The data about to go into a new secret, whichever namespace it is for, is as good as data that
      passes the expiry test when the pass began. */
  lemma {:induction false} CreatedAsFreshAsChecked(cfg: Setup, w: World, acts: seq<Action>)
    requires RecordedStart(w) && Possible(cfg, w, acts) && PunctualRun(cfg, w, acts)
    requires Reached(cfg, w, acts).b.Making?
    ensures var v := Reached(cfg, w, acts);
            && v.b.Making?
            && (!NeedsRefresh(v.b.data, v.scanAt, cfg.store.refreshLimit) ||
                exists i :: v.b.data == StorePayload(i) && i.expiration >= v.scanAt + cfg.store.refreshLimit)
  {
    RunFresh(cfg, true, w, acts);
    var v := Reached(cfg, w, acts);
    if NeedsRefresh(v.b.data, v.scanAt, cfg.store.refreshLimit) {
      var i :| IsFrom(true, v.b.data, i, v.scanAt, cfg.store.refreshLimit);
      assert v.b.data == StorePayload(i);
    }
  }

  // ---------------------------------------------------------------- the usual limits

  /** No session the schema allows is shorter than the limits. */
  predicate LimitsFit(cfg: Setup) {
    cfg.role.refreshLimit <= 900 * SECOND && cfg.store.refreshLimit <= 900 * SECOND
  }

  /** A session that is granted is at least as long as asked for. */
  predicate Granted(w: World, act: Action) {
    act.Request? && act.e.Asked? && act.e.answer.Some? ==> act.e.answer.value.expiration >= w.now + act.e.duration
  }

  ghost predicate GrantedRun(cfg: Setup, w: World, acts: seq<Action>) {
    |acts| > 0 ==>
      GrantedRun(cfg, w, acts[..|acts| - 1]) && Granted(Reached(cfg, w, acts[..|acts| - 1]), acts[|acts| - 1])
  }

  lemma AsksLong(cfg: Setup, w: World, act: Action)
    requires Generations.InOrder(cfg, false, w) && Enabled(cfg, w, act) && LimitsFit(cfg)
    requires act.Request? && act.e.Asked?
    ensures act.e.duration >= Limit(cfg, act.who)
  {
    if act.who == RoleSide {
      assert Generations.TaskAgrees(false, w.c, w.a.tasks[0]);
      SchemaDurationsSuffice(w.a.tasks[0].role.spec.roleSessionDuration);
    }
  }

  /** With limits of up to 15 minutes, as by default, the resource schema makes every session long
      enough, so that STS need only grant what it is asked for. */
  lemma {:induction false} SchemaMakesPunctual(cfg: Setup, w: World, acts: seq<Action>)
    requires Start(w) && Generations.RolesSound(w.c) && LimitsFit(cfg)
    requires Possible(cfg, w, acts) && GrantedRun(cfg, w, acts)
    ensures PunctualRun(cfg, w, acts)
  {
    if |acts| > 0 {
      var init, act := acts[..|acts| - 1], acts[|acts| - 1];
      SchemaMakesPunctual(cfg, w, init);
      if act.Request? && act.e.Asked? {
        Generations.RunInOrder(cfg, false, w, init);
        AsksLong(cfg, Reached(cfg, w, init), act);
      }
    }
  }
}
