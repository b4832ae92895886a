/** One fault-free pass of the SecretsController: exactly which secrets it leaves, and exactly when
    these are the wanted ones. */
module StoreExact {
  import opened Options
  import opened Kube
  import opened Payload
  import opened Events
  import opened StorePass
  import Text

  ghost predicate FaultFree(o: Outside) {
    && (forall k: Key :: o.at(k).ask.Some? && o.at(k).put == o.at(k).drop == o.at(k).make == Clear)
    && (forall role: string :: o.ask(role).Some?)
  }

  /** The work list is a walk over the wanted pairs, in some order. */
  ghost predicate WalksOver(work: seq<Wanted>, wanted: set<Pair>) {
    forall p :: p in wanted <==> InWork(work, p)
  }

  ghost predicate InWork(work: seq<Wanted>, p: Pair) {
    exists w :: w in work && w.role == p.role && p.ns in w.namespaces
  }

  /** The secrets the pass tends: listed, and nobody's. */
  predicate Tended(cfg: Config, c: Cluster, k: Key) {
    k in c.secrets && InScope(cfg.namespace, k) && Selected(c.secrets[k].labels, OWNER_LABELS) && Unowned(c.secrets[k])
  }

  function TendedKeys(cfg: Config, c: Cluster): set<Key> {
    set k | k in c.secrets && Tended(cfg, c, k)
  }

  function Seen(cfg: Config, c: Cluster): set<Pair> {
    set k | k in TendedKeys(cfg, c) :: PairOf(k)
  }

  lemma {:induction false} UnownedMembers(secrets: seq<Secret>)
    ensures forall s :: s in UnownedOf(secrets) <==> s in secrets && Unowned(s)
    ensures UniqueSecrets(secrets) ==> UniqueSecrets(UnownedOf(secrets))
  {
    if |secrets| > 0 {
      UnownedMembers(secrets[1..]);
      var rest := UnownedOf(secrets[1..]);
      assert forall s :: s in secrets <==> s == secrets[0] || s in secrets[1..];
      if UniqueSecrets(secrets) {
        forall j | 0 <= j < |rest| ensures rest[j].key != secrets[0].key {
          assert rest[j] in rest;
        }
      }
    }
  }

  // ---------------------------------------------------------------- the first loop

  /** The data of a kept secret: what it had or, if that is due, what STS answered at its key. */
  function DataAfter(cfg: Config, s: Secret, a: Answers): Data {
    if NeedsRefresh(s.data, a.now, cfg.refreshLimit) && a.ask.Some? then StorePayload(a.ask.value) else s.data
  }

  ghost predicate KeptAs(cfg: Config, s: Secret, d: Secret, a: Answers) {
    && d == s.(data := DataAfter(cfg, s, a), resourceVersion := d.resourceVersion)
    && (!NeedsRefresh(s.data, a.now, cfg.refreshLimit) ==> d == s)
  }

  lemma {:induction false} ScanEffect(cfg: Config, st: Scan, secrets: seq<Secret>, wanted: set<Pair>, o: Outside)
    requires FaultFree(o) && UniqueSecrets(secrets)
    requires forall s :: s in secrets ==> s.key in st.c.secrets && st.c.secrets[s.key] == s
    ensures var d := ScanAll(cfg, st, secrets, wanted, o);
            && (forall k :: (forall s :: s in secrets ==> s.key != k) ==>
                  && (k in d.c.secrets <==> k in st.c.secrets)
                  && (k in st.c.secrets ==> d.c.secrets[k] == st.c.secrets[k]))
            && (forall s :: s in secrets ==> (s.key in d.c.secrets <==> PairOf(s.key) in wanted))
            && (forall s :: s in secrets && s.key in d.c.secrets ==> KeptAs(cfg, s, d.c.secrets[s.key], o.at(s.key)))
    decreases |secrets|
  {
    if |secrets| > 0 {
      var s0, rest := secrets[0], secrets[1..];
      var st1 := ScanOne(cfg, st, s0, wanted, o.at(s0.key));
      assert forall s :: s in secrets <==> s == s0 || s in rest;
      ScanOneEffect(cfg, st, s0, wanted, o.at(s0.key));
      forall s | s in rest ensures s.key != s0.key {
        var j :| 0 <= j < |rest| && rest[j] == s;
        assert secrets[j + 1] == s;
      }
      ScanEffect(cfg, st1, rest, wanted, o);
    }
  }

  lemma {:induction false} ScanSeen(cfg: Config, st: Scan, secrets: seq<Secret>, wanted: set<Pair>, o: Outside)
    ensures ScanAll(cfg, st, secrets, wanted, o).seen == st.seen + set s | s in secrets :: PairOf(s.key)
    decreases |secrets|
  {
    if |secrets| > 0 {
      ScanSeen(cfg, ScanOne(cfg, st, secrets[0], wanted, o.at(secrets[0].key)), secrets[1..], wanted, o);
      assert forall s :: s in secrets <==> s == secrets[0] || s in secrets[1..];
    }
  }

  /** The secret is kept and its data is cached under its role. */
  predicate Gives(s: Secret, role: string, wanted: set<Pair>) {
    PairOf(s.key) in wanted && PairOf(s.key).role == role
  }

  /** `data` is what one of the secrets cached under a role holds after the loop. */
  ghost predicate GivenBy(cfg: Config, secrets: seq<Secret>, role: string, wanted: set<Pair>, o: Outside, data: Data) {
    exists s :: s in secrets && Gives(s, role, wanted) && data == DataAfter(cfg, s, o.at(s.key))
  }

  /** What the first loop leaves in the cache. */
  lemma {:induction false} ScanCache(cfg: Config, st: Scan, secrets: seq<Secret>, wanted: set<Pair>, o: Outside,
          role: string)
    requires FaultFree(o) && UniqueSecrets(secrets)
    requires forall s :: s in secrets ==> s.key in st.c.secrets && st.c.secrets[s.key] == s
    ensures var cache := ScanAll(cfg, st, secrets, wanted, o).cache;
            if exists s :: s in secrets && Gives(s, role, wanted)
            then role in cache && GivenBy(cfg, secrets, role, wanted, o, cache[role])
            else (role in cache <==> role in st.cache) && (role in cache ==> cache[role] == st.cache[role])
    decreases |secrets|
  {
    if |secrets| > 0 {
      var s0, rest := secrets[0], secrets[1..];
      var st1 := ScanOne(cfg, st, s0, wanted, o.at(s0.key));
      assert forall s :: s in secrets <==> s == s0 || s in rest;
      ScanOneEffect(cfg, st, s0, wanted, o.at(s0.key));
      forall s | s in rest ensures s.key != s0.key {
        var j :| 0 <= j < |rest| && rest[j] == s;
        assert secrets[j + 1] == s;
      }
      ScanCache(cfg, st1, rest, wanted, o, role);
    }
  }

  lemma ScanOneEffect(cfg: Config, st: Scan, s: Secret, wanted: set<Pair>, a: Answers)
    requires a.ask.Some? && a.put == a.drop == Clear
    requires s.key in st.c.secrets && st.c.secrets[s.key] == s
    ensures var d := ScanOne(cfg, st, s, wanted, a);
            && (forall k :: k != s.key ==>
                  && (k in d.c.secrets <==> k in st.c.secrets)
                  && (k in st.c.secrets ==> d.c.secrets[k] == st.c.secrets[k]))
            && (s.key in d.c.secrets <==> PairOf(s.key) in wanted)
            && (s.key in d.c.secrets ==> KeptAs(cfg, s, d.c.secrets[s.key], a))
            && d.cache
               == if PairOf(s.key) in wanted then st.cache[PairOf(s.key).role := DataAfter(cfg, s, a)] else st.cache
  {
  }

  // ---------------------------------------------------------------- the second loop

  lemma {:induction false} MissingMembers(role: string, namespaces: seq<string>, seen: set<Pair>)
    ensures forall n :: n in Missing(role, namespaces, seen) <==> n in namespaces && Pair(role, n) !in seen
  {
    if |namespaces| > 0 {
      MissingMembers(role, namespaces[1..], seen);
      assert forall n :: n in namespaces <==> n == namespaces[0] || n in namespaces[1..];
    }
  }

  /** What a creation leaves at a fresh key. */
  ghost predicate MadeAs(k: Key, d: Secret, data: Data) {
    d.key == k && d.labels == OWNER_LABELS && d.owners == [] && d.data == data
  }

  ghost predicate Grown(c: Cluster, d: Cluster) {
    forall k :: k in c.secrets ==> k in d.secrets && d.secrets[k] == c.secrets[k]
  }

  lemma {:induction false} MakeEffect(c: Cluster, role: string, namespaces: seq<string>, data: Data, o: Outside)
    requires FaultFree(o)
    ensures var d := MakeAll(c, role, namespaces, data, o);
            && Grown(c, d)
            && (forall k :: k in d.secrets <==>
                  k in c.secrets || (exists n :: n in namespaces && k == KeyFor(Pair(role, n))))
            && (forall k :: k in d.secrets && k !in c.secrets ==> MadeAs(k, d.secrets[k], data))
    decreases |namespaces|
  {
    if |namespaces| > 0 {
      var p := Pair(role, namespaces[0]);
      var made := CreateSecret(c, StoreSecret(p, data)).0;
      MakeEffect(made, role, namespaces[1..], data, o);
      assert forall n :: n in namespaces <==> n == namespaces[0] || n in namespaces[1..];
    }
  }

  lemma {:induction false} FillEffect(c: Cluster, work: seq<Wanted>, cache: map<string, Data>, seen: set<Pair>,
          o: Outside)
    requires FaultFree(o)
    ensures var d := FillAll(c, work, cache, seen, o);
            && Grown(c, d)
            && (forall k :: k in d.secrets <==>
                  k in c.secrets || (InWork(work, PairOf(k)) && PairOf(k) !in seen && k == KeyFor(PairOf(k))))
            && (forall k :: k in d.secrets && k !in c.secrets ==>
                  MadeAs(k, d.secrets[k], CredsFor(PairOf(k).role, cache, o).value))
    decreases |work|
  {
    if |work| > 0 {
      var w := work[0];
      var e := FillOne(c, w, cache, seen, o);
      FillOneEffect(c, w, cache, seen, o);
      FillEffect(e, work[1..], cache, seen, o);
      assert forall v :: v in work <==> v == w || v in work[1..];
      forall p: Pair ensures InWork(work, p) <==> InWork(work[1..], p) || (w.role == p.role && p.ns in w.namespaces) {
      }
    }
  }

  lemma FillOneEffect(c: Cluster, w: Wanted, cache: map<string, Data>, seen: set<Pair>, o: Outside)
    requires FaultFree(o)
    ensures var d := FillOne(c, w, cache, seen, o);
            && Grown(c, d)
            && (forall k :: k in d.secrets <==>
                  || k in c.secrets
                  || (PairOf(k).role == w.role && k.ns in w.namespaces && PairOf(k) !in seen && k == KeyFor(PairOf(k))))
            && (forall k :: k in d.secrets && k !in c.secrets ==>
                  MadeAs(k, d.secrets[k], CredsFor(PairOf(k).role, cache, o).value))
  {
    MissingMembers(w.role, w.namespaces, seen);
    MakeEffect(c, w.role, Missing(w.role, w.namespaces, seen), CredsFor(w.role, cache, o).value, o);
    forall n ensures PairOf(KeyFor(Pair(w.role, n))) == Pair(w.role, n) {
      PairOfKeyFor(Pair(w.role, n));
    }
  }

  // ---------------------------------------------------------------- the whole pass

  /** A tended secret that the pass keeps, and caches the data of under a role. */
  predicate Lends(cfg: Config, c: Cluster, wanted: set<Pair>, k: Key, role: string) {
    Tended(cfg, c, k) && Gives(c.secrets[k], role, wanted)
  }

  /** The credentials of a created secret: those that a kept secret of the role holds after the pass,
      if there is one, or else the ones STS answers for the role in the second loop. */
  ghost predicate Credited(cfg: Config, c: Cluster, wanted: set<Pair>, o: Outside, role: string, data: Data) {
    if exists k :: Lends(cfg, c, wanted, k, role)
    then exists k :: Lends(cfg, c, wanted, k, role) && data == DataAfter(cfg, c.secrets[k], o.at(k))
    else o.ask(role).Some? && data == StorePayload(o.ask(role).value)
  }

  lemma CreditedFrom(cfg: Config, c: Cluster, us: seq<Secret>, wanted: set<Pair>, o: Outside, role: string)
    requires WellFormed(c) && FaultFree(o) && UniqueSecrets(us)
    requires forall s :: s in us <==> s.key in c.secrets && c.secrets[s.key] == s && Tended(cfg, c, s.key)
    ensures var st := ScanAll(cfg, Scan(c, map[], {}), us, wanted, o);
            CredsFor(role, st.cache, o).Some? && Credited(cfg, c, wanted, o, role, CredsFor(role, st.cache, o).value)
  {
    var st := ScanAll(cfg, Scan(c, map[], {}), us, wanted, o);
    ScanCache(cfg, Scan(c, map[], {}), us, wanted, o, role);
    forall k | Lends(cfg, c, wanted, k, role) ensures c.secrets[k] in us {
      assert SecretFits(c.secrets[k], k, c.next);
    }
    if exists s :: s in us && Gives(s, role, wanted) {
      var s :| s in us && Gives(s, role, wanted) && st.cache[role] == DataAfter(cfg, s, o.at(s.key));
      assert Lends(cfg, c, wanted, s.key, role);
    } else {
      assert o.ask(role).Some?;
    }
  }

  /** Which keys hold a secret afterwards, whatever the cluster and the store: the looked-after ones
      that are wanted, everything that is not looked after, and the prefixed name of every wanted
      pair that no looked-after secret stood for. */
  lemma PassEffect(cfg: Config, c: Cluster, secrets: seq<Secret>, work: seq<Wanted>, wanted: set<Pair>, o: Outside,
          k: Key)
    requires WellFormed(c) && SecretListing(c, cfg.namespace, OWNER_LABELS, secrets)
    requires WalksOver(work, wanted) && FaultFree(o)
    ensures var d := PassOver(cfg, c, secrets, work, wanted, o);
            if k in c.secrets then
              && (k in d.secrets <==> (Tended(cfg, c, k) ==> PairOf(k) in wanted))
              && (k in d.secrets && Tended(cfg, c, k) ==> KeptAs(cfg, c.secrets[k], d.secrets[k], o.at(k)))
              && (k in d.secrets && !Tended(cfg, c, k) ==> d.secrets[k] == c.secrets[k])
            else
              && (k in d.secrets <==> PairOf(k) in wanted && PairOf(k) !in Seen(cfg, c) && k == KeyFor(PairOf(k)))
              && (k in d.secrets ==> MadeAs(k, d.secrets[k], d.secrets[k].data))
              && (k in d.secrets ==> Credited(cfg, c, wanted, o, PairOf(k).role, d.secrets[k].data))
  {
    var us := UnownedOf(secrets);
    UnownedMembers(secrets);
    ListedIsTended(cfg, c, secrets);
    var st := ScanAll(cfg, Scan(c, map[], {}), us, wanted, o);
    ScanEffect(cfg, Scan(c, map[], {}), us, wanted, o);
    ScanSeen(cfg, Scan(c, map[], {}), us, wanted, o);
    assert st.seen == Seen(cfg, c) by {
      forall p: Pair ensures p in st.seen <==> p in Seen(cfg, c) {
        if p in Seen(cfg, c) {
          var k' :| k' in TendedKeys(cfg, c) && PairOf(k') == p;
          assert c.secrets[k'] in us;
        }
      }
    }
    FillEffect(st.c, work, st.cache, st.seen, o);
    if k in c.secrets {
      KeyAfterScan(cfg, c, us, st, wanted, o, k);
      if Tended(cfg, c, k) {
        assert PairOf(k) in Seen(cfg, c);
      }
    } else {
      assert forall s :: s in us ==> s.key != k;
      CreditedFrom(cfg, c, us, wanted, o, PairOf(k).role);
    }
  }

  lemma ListedIsTended(cfg: Config, c: Cluster, secrets: seq<Secret>)
    requires WellFormed(c) && SecretListing(c, cfg.namespace, OWNER_LABELS, secrets)
    ensures UniqueSecrets(secrets)
    ensures forall s :: s in UnownedOf(secrets) <==>
              s.key in c.secrets && c.secrets[s.key] == s && Tended(cfg, c, s.key)
  {
    UnownedMembers(secrets);
    forall s | s in secrets ensures SecretIsListed(c, cfg.namespace, OWNER_LABELS, s) {
    }
  }

  lemma KeyAfterScan(cfg: Config, c: Cluster, us: seq<Secret>, st: Scan, wanted: set<Pair>, o: Outside, k: Key)
    requires WellFormed(c) && k in c.secrets
    requires forall s :: s in us <==> s.key in c.secrets && c.secrets[s.key] == s && Tended(cfg, c, s.key)
    requires forall k :: (forall s :: s in us ==> s.key != k) ==>
               (k in st.c.secrets <==> k in c.secrets) && (k in c.secrets ==> st.c.secrets[k] == c.secrets[k])
    requires forall s :: s in us ==> (s.key in st.c.secrets <==> PairOf(s.key) in wanted)
    requires forall s :: s in us && s.key in st.c.secrets ==> KeptAs(cfg, s, st.c.secrets[s.key], o.at(s.key))
    ensures k in st.c.secrets <==> (Tended(cfg, c, k) ==> PairOf(k) in wanted)
    ensures k in st.c.secrets && Tended(cfg, c, k) ==> KeptAs(cfg, c.secrets[k], st.c.secrets[k], o.at(k))
    ensures k in st.c.secrets && !Tended(cfg, c, k) ==> st.c.secrets[k] == c.secrets[k]
  {
    if Tended(cfg, c, k) {
      assert c.secrets[k] in us;
    } else {
      assert forall s :: s in us ==> s.key != k;
    }
  }

  /** The wanted keys in scope. */
  function WantedKeys(cfg: Config, wanted: set<Pair>): set<Key> {
    set p | p in wanted && InScope(cfg.namespace, KeyFor(p)) :: KeyFor(p)
  }

  /** No wanted secret goes by an unprefixed name. */
  ghost predicate Prefixed(cfg: Config, c: Cluster, wanted: set<Pair>) {
    forall k :: k in TendedKeys(cfg, c) && PairOf(k) in wanted ==> k == KeyFor(PairOf(k))
  }

  /** No wanted name is taken by an owned or unlabelled secret. */
  ghost predicate NamesFree(cfg: Config, c: Cluster, wanted: set<Pair>) {
    forall k :: k in WantedKeys(cfg, wanted) && k in c.secrets ==> Tended(cfg, c, k)
  }

  /** After a fault-free pass the looked-after secrets are exactly the wanted ones if and only if no
      wanted secret goes by an unprefixed name and no wanted name is taken by someone else. */
  lemma OnePassExactIff(cfg: Config, c: Cluster, secrets: seq<Secret>, work: seq<Wanted>, wanted: set<Pair>, o: Outside)
    requires WellFormed(c) && SecretListing(c, cfg.namespace, OWNER_LABELS, secrets)
    requires WalksOver(work, wanted) && FaultFree(o)
    ensures TendedKeys(cfg, PassOver(cfg, c, secrets, work, wanted, o)) == WantedKeys(cfg, wanted)
       <==> Prefixed(cfg, c, wanted) && NamesFree(cfg, c, wanted)
  {
    var d := PassOver(cfg, c, secrets, work, wanted, o);
    forall k: Key ensures k in TendedKeys(cfg, d) <==> TendedAfter(cfg, c, wanted, k) {
      PassEffect(cfg, c, secrets, work, wanted, o, k);
    }
    if Prefixed(cfg, c, wanted) && NamesFree(cfg, c, wanted) {
      forall k: Key ensures k in TendedKeys(cfg, d) <==> k in WantedKeys(cfg, wanted) {
        ExactAt(cfg, c, wanted, k);
      }
    }
    if TendedKeys(cfg, d) == WantedKeys(cfg, wanted) {
      ExactOnlyIf(cfg, c, wanted, TendedKeys(cfg, d));
    }
  }

  lemma ExactOnlyIf(cfg: Config, c: Cluster, wanted: set<Pair>, keys: set<Key>)
    requires forall k :: k in keys <==> TendedAfter(cfg, c, wanted, k)
    requires keys == WantedKeys(cfg, wanted)
    ensures Prefixed(cfg, c, wanted) && NamesFree(cfg, c, wanted)
  {
    forall k | k in TendedKeys(cfg, c) && PairOf(k) in wanted ensures k == KeyFor(PairOf(k)) {
      assert k in keys;
      var p :| p in wanted && k == KeyFor(p);
      PairOfKeyFor(p);
    }
  }

  /** The keys of PassEffect that are looked after. */
  ghost predicate TendedAfter(cfg: Config, c: Cluster, wanted: set<Pair>, k: Key) {
    InScope(cfg.namespace, k) &&
    if k in c.secrets then Tended(cfg, c, k) && PairOf(k) in wanted
    else PairOf(k) in wanted && PairOf(k) !in Seen(cfg, c) && k == KeyFor(PairOf(k))
  }

  lemma ExactAt(cfg: Config, c: Cluster, wanted: set<Pair>, k: Key)
    requires Prefixed(cfg, c, wanted) && NamesFree(cfg, c, wanted)
    ensures TendedAfter(cfg, c, wanted, k) <==> k in WantedKeys(cfg, wanted)
  {
    if k in WantedKeys(cfg, wanted) {
      var p :| p in wanted && InScope(cfg.namespace, KeyFor(p)) && k == KeyFor(p);
      PairOfKeyFor(p);
      assert forall k' :: k' in TendedKeys(cfg, c) && PairOf(k') == p ==> k' == KeyFor(p);
    }
    assert k in c.secrets && TendedAfter(cfg, c, wanted, k) ==> k in TendedKeys(cfg, c);
  }

  /** Where one pass is not enough, and no number of passes is: a tended secret stands for a wanted
      pair under the pair's bare role name, and so no prefixed one is ever made. */
  lemma UnprefixedStays(cfg: Config) returns (c: Cluster, wanted: set<Pair>, k: Key)
    requires Text.Lacks(cfg.namespace, '/')
    ensures WellFormed(c) && Tended(cfg, c, k) && PairOf(k) in wanted && k != KeyFor(PairOf(k))
    ensures forall secrets, work, o ::
              SecretListing(c, cfg.namespace, OWNER_LABELS, secrets) && WalksOver(work, wanted) && FaultFree(o) ==>
                TendedKeys(cfg, PassOver(cfg, c, secrets, work, wanted, o)) != WantedKeys(cfg, wanted)
  {
    var ns := if cfg.namespace == "" then "default" else cfg.namespace;
    k := Key(ns, "app");
    c := Cluster(map[k := Secret(k, OWNER_LABELS, [], map[], 0, 0)], map[], 1);
    wanted := {Pair("app", ns)};
    assert PairOf(k) == Pair("app", ns) && k in TendedKeys(cfg, c);
    forall secrets, work, o |
      SecretListing(c, cfg.namespace, OWNER_LABELS, secrets) && WalksOver(work, wanted) && FaultFree(o)
      ensures TendedKeys(cfg, PassOver(cfg, c, secrets, work, wanted, o)) != WantedKeys(cfg, wanted)
    {
      OnePassExactIff(cfg, c, secrets, work, wanted, o);
    }
  }
}
