/** secrets_controller.go in its own form: a controller object whose refresh scans the secrets and
    then fills in the missing ones. Every pass is proved to be a run of StoreMachine, whatever the
    rest of the world and the pods do in between, and to have the effect StorePass gives it when
    nobody else does anything. */
module StoreControllers {
  import opened Options
  import opened Kube
  import opened Payload
  import opened Events
  import opened StorePass
  import opened StoreMachine
  import opened StoreExact
  import opened StoreTrace
  import opened Clients
  import RolePass
  import RoleStores
  import Text

  /** The (role, namespace) pairs for which Exists holds. */
  ghost function PairsOf(v: RoleStores.Nested): set<Pair> {
    set r, n | r in v && n in v[r] :: Pair(r, n)
  }

  /** Namespaces are Kubernetes names, which hold no slash. */
  ghost predicate Named(v: RoleStores.Nested) {
    forall r, n :: r in v && n in v[r] ==> Text.Lacks(n, '/')
  }

  lemma PairsOfAdded(v: RoleStores.Nested, role: string, ns: string, name: string)
    ensures PairsOf(RoleStores.Added(v, role, ns, name)) == PairsOf(v) + {Pair(role, ns)}
  {
    var w := RoleStores.Added(v, role, ns, name);
    forall p: Pair ensures p in PairsOf(w) <==> p in PairsOf(v) + {Pair(role, ns)} {
      assert p in PairsOf(w) <==> p.role in w && p.ns in w[p.role];
      assert p in PairsOf(v) <==> p.role in v && p.ns in v[p.role];
    }
  }

  /** The cache as the source keeps it: data only. */
  ghost function DataOf(cache: Cache): map<string, Data> {
    map r | r in cache :: cache[r].data
  }

  lemma DataOfUpdate(cache: Cache, role: string, e: Cached)
    ensures DataOf(cache[role := e]) == DataOf(cache)[role := e.data]
  {
  }

  /** The outside of a pass as StorePass wants it. The second loop asks STS once per role and not
      per key; its answer is filed under the role's name in no namespace. */
  ghost function OutsideOf(o: RolePass.Oracle): Outside {
    Outside(
      k => Answers(o(k).now, o(k).renewAsk, o(k).renewPut, o(k).drop, o(k).settlePut),
      role => o(Key("", role)).settleAsk)
  }

  /** A walk over the store: every role once, with all its namespaces, each once. */
  ghost predicate WalkOf(work: seq<Wanted>, v: RoleStores.Nested) {
    && DistinctWork(work)
    && (forall w :: w in work ==> w.role in v && forall n :: n in w.namespaces <==> n in v[w.role])
    && (forall r :: r in v ==> Awaited(work, r))
  }

  lemma WalkCovers(work: seq<Wanted>, v: RoleStores.Nested)
    requires WalkOf(work, v)
    ensures WalksOver(work, PairsOf(v))
    ensures Named(v) ==> SlashFreeWork(work)
  {
    forall p ensures p in PairsOf(v) <==> InWork(work, p) {
      if p in PairsOf(v) {
        assert Awaited(work, p.role);
      }
    }
  }

  /** One iteration of the first loop peels one secret off. */
  lemma UnownedStep(secrets: seq<Secret>, i: nat)
    requires i < |secrets|
    ensures UnownedOf(secrets[i..])
         == (if Unowned(secrets[i]) then [secrets[i]] + UnownedOf(secrets[i + 1..]) else UnownedOf(secrets[i + 1..]))
  {
    assert secrets[i..][0] == secrets[i] && secrets[i..][1..] == secrets[i + 1..];
  }

  class StoreController {
    const cfg: Config
    const client: Client
    const roleStore: RoleStores.RoleStore

    /** What the pods do to the store before each time this controller gets hold of its lock. */
    const churn: nat -> seq<RoleStores.Op>
    var turns: nat

    constructor (cfg: Config, client: Client, roleStore: RoleStores.RoleStore, churn: nat -> seq<RoleStores.Op>)
      ensures this.cfg == cfg && this.client == client && this.roleStore == roleStore && this.churn == churn
    {
      this.cfg, this.client, this.roleStore, this.churn := cfg, client, roleStore, churn;
      turns := 0;
    }

    ghost predicate PodsNamed() {
      forall i, op :: op in churn(i) ==> Text.Lacks(op.entry.ns, '/')
    }

    /** Both stores are sound, and nothing of one is part of the other. */
    ghost predicate Stores(tmp: RoleStores.RoleStore)
      reads this, roleStore, roleStore.Repr, tmp, tmp.Repr
    {
      && roleStore.Valid() && tmp.Valid() && tmp.Repr !! roleStore.Repr
      && {this, client} !! roleStore.Repr && {this, client} !! tmp.Repr
      && Named(roleStore.Value) && PodsNamed()
    }

    /** Nobody else touches the cluster, and no pod comes or goes. */
    ghost predicate Undisturbed() {
      client.Alone() && forall n :: churn(n) == []
    }

    /** The log so far is a run of the machine, which stands here. */
    ghost predicate At(l: Local)
      reads this, client
    {
      && client.Valid() && Replay(cfg, client.log) == Some(l)
      && (forall e :: e in client.log ==> Sensible(e))
    }

    // ---------------------------------------------------------------- the role store

    /** A pod comes or goes. */
    method PodMoves(op: RoleStores.Op, ghost tmp: RoleStores.RoleStore)
      requires Stores(tmp) && Text.Lacks(op.entry.ns, '/')
      modifies roleStore.Repr
      ensures Stores(tmp) && fresh(roleStore.Repr - old(roleStore.Repr))
    {
      var e := op.entry;
      if op.AddOp? {
        roleStore.Add(e.role, e.ns, e.pod);
      } else {
        roleStore.Remove(e.role, e.ns, e.pod);
      }
    }

    /** The pods' turn. */
    method OthersTurn(ghost tmp: RoleStores.RoleStore)
      requires Stores(tmp)
      modifies this`turns, roleStore.Repr
      ensures Stores(tmp) && fresh(roleStore.Repr - old(roleStore.Repr))
      ensures Undisturbed() ==> roleStore.Value == old(roleStore.Value)
    {
      var ops := churn(turns);
      turns := turns + 1;
      for i := 0 to |ops|
        invariant Stores(tmp) && fresh(roleStore.Repr - old(roleStore.Repr))
        invariant Undisturbed() ==> roleStore.Value == old(roleStore.Value)
      {
        assert ops[i] in churn(old(turns));
        PodMoves(ops[i], tmp);
      }
    }

    method LookUp(secret: Secret, role: string, ghost tmp: RoleStores.RoleStore, ghost rest: seq<Secret>,
            ghost cache: Cache, ghost seen: set<Pair>)
      returns (found: bool)
      requires Stores(tmp) && Pair(role, secret.key.ns) == PairOf(secret.key)
      requires At(Scanning([secret] + rest, Look, cache, seen))
      modifies this`turns, roleStore.Repr, client`log
      ensures Stores(tmp) && fresh(roleStore.Repr - old(roleStore.Repr))
      ensures Undisturbed() ==> roleStore.Value == old(roleStore.Value)
      ensures found <==> PairOf(secret.key) in PairsOf(roleStore.Value)
      ensures At(Scanning([secret] + rest, LookedStage(secret, found), cache, seen))
    {
      OthersTurn(tmp);
      found := roleStore.Exists(role, secret.key.ns);
      ghost var e := Looked(role, secret.key.ns, found);
      ReplaySnoc(cfg, client.log, e);
      client.log := client.log + [e];
    }

    /** One order in which a range loop may visit the store. */
    method Walk() returns (work: seq<Wanted>)
      requires roleStore.Valid()
      ensures WalkOf(work, roleStore.Value)
    {
      work := [];
      var todo := roleStore.store.Keys;
      while todo != {}
        invariant todo <= roleStore.store.Keys && DistinctWork(work)
        invariant forall w :: w in work ==>
                    && w.role in roleStore.Value && w.role !in todo
                    && forall n :: n in w.namespaces <==> n in roleStore.Value[w.role]
        invariant forall r :: r in roleStore.Value && r !in todo ==> Awaited(work, r)
        decreases |todo|
      {
        var role :| role in todo;
        todo := todo - {role};
        var namespaces := Namespaces(role);
        ghost var before := work;
        work := work + [Wanted(role, namespaces)];
        WalkGrows(before, Wanted(role, namespaces));
      }
    }

    method Namespaces(role: string) returns (namespaces: seq<string>)
      requires roleStore.Valid() && role in roleStore.store
      ensures NoRepeats(namespaces) && forall n :: n in namespaces <==> n in roleStore.Value[role]
    {
      namespaces := [];
      var todo := roleStore.store[role].pods.Keys;
      while todo != {}
        invariant todo <= roleStore.store[role].pods.Keys && NoRepeats(namespaces)
        invariant forall n :: n in namespaces <==> n in roleStore.store[role].pods && n !in todo
        decreases |todo|
      {
        var n :| n in todo;
        todo := todo - {n};
        namespaces := namespaces + [n];
      }
    }

    // ---------------------------------------------------------------- the first loop

    /** getCreds */
    method GetCreds(role: string, k: Key, site: RolePass.Site) returns (data: Option<Data>,
            ghost answer: Option<Issued>)
      requires client.Valid()
      modifies client`log
      ensures client.Valid() && client.log == old(client.log) + [Asked(role, SESSION, answer)]
      ensures answer == RolePass.AskAt(client.oracle(k), site)
      ensures data == if answer.Some? then Some(StorePayload(answer.value)) else None
      ensures client.log == old(client.log) + [Asked(role, 3_600_000_000_000, answer)]
      ensures data.Some? <==> answer.Some?
      ensures data.Some? ==> FromAnswer(data.value, answer.value) && data.value.Keys == STORE_KEYS
    {
      var creds := client.AssumeRole(k, site, role, 3600 * SECOND);
      answer := creds;
      data := None;
      if creds.Some? {
        var i := creds.value;
        data := Some(map[
          EXPIRE_KEY := Stamp(Truncated(i.expiration)),
          CREDENTIALS_FILE_KEY :=
            CredentialsFile(i.accessKeyID, i.secretAccessKey, i.sessionToken, Truncated(i.expiration)),
          PROCESS_FILE_KEY := ProcessFile,
          JSON_FILE_KEY := CredentialsJson(1, i.accessKeyID, i.secretAccessKey, i.sessionToken, i.expiration)
        ]);
      }
    }

    method DropSecret(secret: Secret, ghost rest: seq<Secret>, ghost cache: Cache, ghost seen: set<Pair>)
      requires At(Scanning([secret] + rest, StoreMachine.Stage.Doomed, cache, seen))
      modifies client`cluster, client`requests, client`log
      ensures At(ScanNext(rest, cache, seen)) && client.cluster.next >= old(client.cluster.next)
      ensures client.Alone() ==>
                client.cluster
                == Answered(client.oracle(secret.key).drop, old(client.cluster),
                     DeleteSecret(old(client.cluster), secret.key)).0
    {
      assert ([secret] + rest)[1..] == rest;
      ghost var log0 := client.log;
      var ok := client.DeleteSecret(secret.key, RolePass.DropSite);
      ReplaySnoc(cfg, log0, client.log[|log0|]);
    }

    /** The expiry test; a secret that passes it goes into the cache. */
    method CheckExpiry(secret: Secret, ghost rest: seq<Secret>, ghost cache: Cache, ghost seen: set<Pair>)
      returns (refreshCreds: bool, ghost cache': Cache)
      requires At(Scanning([secret] + rest, if ExpireOf(secret.data).Some? then Check else Due, cache, seen))
      modifies client`log
      ensures var readable := "expire" in secret.data && secret.data["expire"].Stamp?;
              && client.log == old(client.log) + (if readable then [ClockRead(client.oracle(secret.key).now)] else [])
              && (refreshCreds <==>
                    !readable || secret.data["expire"].at < client.oracle(secret.key).now + cfg.refreshLimit)
      ensures refreshCreds <==> NeedsRefresh(secret.data, client.oracle(secret.key).now, cfg.refreshLimit)
      ensures refreshCreds ==> At(Scanning([secret] + rest, Due, cache, seen))
      ensures !refreshCreds ==>
                && At(ScanNext(rest, cache', seen))
                && DataOf(cache') == DataOf(cache)[PairOf(secret.key).role := secret.data]
    {
      assert ([secret] + rest)[1..] == rest;
      cache' := cache;
      if EXPIRE_KEY !in secret.data || !secret.data[EXPIRE_KEY].Stamp? {
        return true, cache;
      }
      var expire := secret.data[EXPIRE_KEY].at;
      ghost var log0 := client.log;
      var now := client.Now(secret.key);
      ReplaySnoc(cfg, log0, ClockRead(now));
      cache' := cache[PairOf(secret.key).role := Cached(secret.data, secret.key, CheckedAt(now))];
      return now + cfg.refreshLimit > expire, cache';
    }

    /** The stale copy of the secret with fresh data, sent back; once stored, it is cached. */
    method PutData(listed: Secret, role: string, data: Data, credsCache: map<string, Data>, ghost i: Issued,
            ghost rest: seq<Secret>, ghost cache: Cache, ghost seen: set<Pair>)
      returns (credsCache': map<string, Data>, ghost cache': Cache)
      requires role == PairOf(listed.key).role && SecretFits(listed, listed.key, client.cluster.next)
      requires At(Scanning([listed] + rest, Holding(i), cache, seen))
      requires credsCache == DataOf(cache) && data == StorePayload(i)
      modifies client`cluster, client`requests, client`log
      ensures At(ScanNext(rest, cache', seen)) && client.cluster.next >= old(client.cluster.next)
      ensures credsCache' == DataOf(cache')
      ensures client.Alone() ==>
                var put := Answered(client.oracle(listed.key).renewPut, old(client.cluster),
                        UpdateSecret(old(client.cluster), listed.(data := data)));
                client.cluster == put.0 && credsCache' == if put.1 then credsCache[role := data] else credsCache
    {
      assert ([listed] + rest)[1..] == rest;
      credsCache', cache' := credsCache, cache;
      ghost var log0 := client.log;
      var ok := client.UpdateSecret(listed.(data := data), RolePass.RenewPut);
      ReplaySnoc(cfg, log0, client.log[|log0|]);
      if ok {
        credsCache' := credsCache[role := data];
        cache' := cache[role := Cached(data, listed.key, IssuedNow(i))];
        DataOfUpdate(cache, role, Cached(data, listed.key, IssuedNow(i)));
      }
    }

    /** New credentials for a secret. */
    method RenewSecret(listed: Secret, role: string, credsCache: map<string, Data>, ghost rest: seq<Secret>,
            ghost cache: Cache, ghost seen: set<Pair>)
      returns (credsCache': map<string, Data>, ghost cache': Cache)
      requires role == PairOf(listed.key).role && SecretFits(listed, listed.key, client.cluster.next)
      requires At(Scanning([listed] + rest, Due, cache, seen)) && credsCache == DataOf(cache)
      modifies client`cluster, client`requests, client`log
      ensures At(ScanNext(rest, cache', seen)) && client.cluster.next >= old(client.cluster.next)
      ensures credsCache' == DataOf(cache')
      ensures client.Alone() ==>
                Renewed(old(client.cluster), listed, credsCache, OutsideOf(client.oracle).at(listed.key))
                == (client.cluster, credsCache')
    {
      assert ([listed] + rest)[1..] == rest;
      credsCache', cache' := credsCache, cache;
      ghost var log0 := client.log;
      var data, answer := GetCreds(role, listed.key, RolePass.RenewAsk);
      ReplaySnoc(cfg, log0, client.log[|log0|]);
      if data.Some? {
        credsCache', cache' := PutData(listed, role, data.value, credsCache, answer.value, rest, cache, seen);
      }
    }

    /** The body of the first loop for a secret nobody owns, once it is noted and looked up. */
    method TreatSecret(secret: Secret, role: string, found: bool, credsCache: map<string, Data>,
            ghost rest: seq<Secret>, ghost cache: Cache, ghost seen: set<Pair>)
      returns (credsCache': map<string, Data>, ghost cache': Cache)
      requires role == PairOf(secret.key).role && SecretFits(secret, secret.key, client.cluster.next)
      requires At(Scanning([secret] + rest, LookedStage(secret, found), cache, seen))
      requires credsCache == DataOf(cache)
      modifies client`cluster, client`requests, client`log
      ensures At(ScanNext(rest, cache', seen)) && client.cluster.next >= old(client.cluster.next)
      ensures credsCache' == DataOf(cache')
      ensures client.Alone() ==>
                Treated(cfg, old(client.cluster), secret, found, credsCache, OutsideOf(client.oracle).at(secret.key))
                == (client.cluster, credsCache')
    {
      credsCache', cache' := credsCache, cache;
      if !found {
        DropSecret(secret, rest, cache, seen);
        return;
      }
      var refreshCreds;
      refreshCreds, cache' := CheckExpiry(secret, rest, cache, seen);
      if refreshCreds {
        credsCache', cache' := RenewSecret(secret, role, credsCache, rest, cache, seen);
      } else {
        credsCache' := credsCache[role := secret.data];
      }
    }

    /** A found secret goes into the index of what exists. */
    method Note(role: string, ns: string, tmpSecretStore: RoleStores.RoleStore)
      requires Stores(tmpSecretStore)
      modifies tmpSecretStore.Repr
      ensures Stores(tmpSecretStore) && fresh(tmpSecretStore.Repr - old(tmpSecretStore.Repr))
      ensures PairsOf(tmpSecretStore.Value) == old(PairsOf(tmpSecretStore.Value)) + {Pair(role, ns)}
    {
      PairsOfAdded(tmpSecretStore.Value, role, ns, "");
      tmpSecretStore.Add(role, ns, "");
    }

    /** The first half of the first loop's body: note the secret and look it up in the store. */
    method NoteAndLookUp(secret: Secret, role: string, tmpSecretStore: RoleStores.RoleStore, ghost rest: seq<Secret>,
            ghost cache: Cache)
      returns (found: bool)
      requires Stores(tmpSecretStore) && Pair(role, secret.key.ns) == PairOf(secret.key)
      requires At(ScanNext([secret] + rest, cache, PairsOf(tmpSecretStore.Value)))
      modifies this`turns, roleStore.Repr, tmpSecretStore.Repr, client`log
      ensures Stores(tmpSecretStore)
      ensures fresh(roleStore.Repr - old(roleStore.Repr)) && fresh(tmpSecretStore.Repr - old(tmpSecretStore.Repr))
      ensures PairsOf(tmpSecretStore.Value) == old(PairsOf(tmpSecretStore.Value)) + {PairOf(secret.key)}
      ensures Undisturbed() ==> roleStore.Value == old(roleStore.Value)
      ensures found <==> PairOf(secret.key) in PairsOf(roleStore.Value)
      ensures At(Scanning([secret] + rest, LookedStage(secret, found), cache, PairsOf(tmpSecretStore.Value)))
    {
      assert ([secret] + rest)[0] == secret;
      Note(role, secret.key.ns, tmpSecretStore);
      found := LookUp(secret, role, tmpSecretStore, rest, cache, PairsOf(tmpSecretStore.Value));
    }

    /** The first loop has these secrets left, and will, undisturbed, end where it was bound for. */
    ghost predicate Midway(tmp: RoleStores.RoleStore, credsCache: map<string, Data>, todo: seq<Secret>, cache: Cache,
            wanted: set<Pair>, goal: Scan)
      reads this, client, roleStore, roleStore.Repr, tmp, tmp.Repr
    {
      && Stores(tmp)
      && At(ScanNext(todo, cache, PairsOf(tmp.Value))) && credsCache == DataOf(cache)
      && (Undisturbed() ==>
            && PairsOf(roleStore.Value) == wanted
            && ScanAll(cfg, Scan(client.cluster, credsCache, PairsOf(tmp.Value)), todo, wanted,
                 OutsideOf(client.oracle)) == goal)
    }

    /** The same in the middle of an iteration, once the secret is noted and looked up. */
    ghost predicate Halfway(secret: Secret, found: bool, tmp: RoleStores.RoleStore, credsCache: map<string, Data>,
            rest: seq<Secret>, cache: Cache, wanted: set<Pair>, goal: Scan)
      reads this, client, roleStore, roleStore.Repr, tmp, tmp.Repr
    {
      && Stores(tmp)
      && At(Scanning([secret] + rest, LookedStage(secret, found), cache, PairsOf(tmp.Value)))
      && credsCache == DataOf(cache)
      && (Undisturbed() ==>
            && PairsOf(roleStore.Value) == wanted
            && var t := Treated(cfg, client.cluster, secret, found, credsCache,
                    OutsideOf(client.oracle).at(secret.key));
               ScanAll(cfg, Scan(t.0, t.1, PairsOf(tmp.Value)), rest, wanted, OutsideOf(client.oracle)) == goal)
    }

    method TreatMidway(secret: Secret, role: string, found: bool, credsCache: map<string, Data>,
            ghost tmp: RoleStores.RoleStore, ghost rest: seq<Secret>, ghost cache: Cache, ghost wanted: set<Pair>,
            ghost goal: Scan)
      returns (credsCache': map<string, Data>, ghost cache': Cache)
      requires Halfway(secret, found, tmp, credsCache, rest, cache, wanted, goal)
      requires role == PairOf(secret.key).role && SecretFits(secret, secret.key, client.cluster.next)
      modifies client`cluster, client`requests, client`log
      ensures client.cluster.next >= old(client.cluster.next)
      ensures Midway(tmp, credsCache', rest, cache', wanted, goal)
    {
      credsCache', cache' := TreatSecret(secret, role, found, credsCache, rest, cache, PairsOf(tmp.Value));
    }

    method LookUpMidway(secret: Secret, role: string, credsCache: map<string, Data>,
            tmpSecretStore: RoleStores.RoleStore, ghost rest: seq<Secret>, ghost cache: Cache,
            ghost wanted: set<Pair>, ghost goal: Scan)
      returns (found: bool)
      requires Midway(tmpSecretStore, credsCache, [secret] + rest, cache, wanted, goal)
      requires Pair(role, secret.key.ns) == PairOf(secret.key)
      modifies this`turns, roleStore.Repr, tmpSecretStore.Repr, client`log
      ensures fresh(roleStore.Repr - old(roleStore.Repr)) && fresh(tmpSecretStore.Repr - old(tmpSecretStore.Repr))
      ensures Halfway(secret, found, tmpSecretStore, credsCache, rest, cache, wanted, goal)
    {
      ScanStep(cfg, client.cluster, credsCache, PairsOf(tmpSecretStore.Value), secret, rest, wanted,
              OutsideOf(client.oracle));
      found := NoteAndLookUp(secret, role, tmpSecretStore, rest, cache);
    }

    /** The body of the first loop for a secret nobody owns. */
    method ScanSecret(secret: Secret, credsCache: map<string, Data>, tmpSecretStore: RoleStores.RoleStore,
            ghost rest: seq<Secret>, ghost cache: Cache, ghost wanted: set<Pair>, ghost goal: Scan)
      returns (credsCache': map<string, Data>, ghost cache': Cache)
      requires Midway(tmpSecretStore, credsCache, [secret] + rest, cache, wanted, goal)
      requires SecretFits(secret, secret.key, client.cluster.next)
      modifies client`cluster, client`requests, client`log, this`turns, roleStore.Repr, tmpSecretStore.Repr
      ensures fresh(roleStore.Repr - old(roleStore.Repr)) && fresh(tmpSecretStore.Repr - old(tmpSecretStore.Repr))
      ensures client.cluster.next >= old(client.cluster.next)
      ensures Midway(tmpSecretStore, credsCache', rest, cache', wanted, goal)
    {
      var role := Text.TrimPrefix(secret.key.name, SECRET_PREFIX);
      var found := LookUpMidway(secret, role, credsCache, tmpSecretStore, rest, cache, wanted, goal);
      credsCache', cache' := TreatMidway(secret, role, found, credsCache, tmpSecretStore, rest, cache, wanted, goal);
    }

    /** The first loop: delete what is not wanted, renew what expires, index and cache the rest. */
    method ScanSecrets(secrets: seq<Secret>, tmpSecretStore: RoleStores.RoleStore, ghost wanted: set<Pair>,
            ghost goal: Scan)
      returns (credsCache: map<string, Data>, ghost cache: Cache)
      requires Midway(tmpSecretStore, map[], UnownedOf(secrets), map[], wanted, goal)
      requires forall s :: s in secrets ==> SecretFits(s, s.key, client.cluster.next)
      modifies client`cluster, client`requests, client`log, this`turns, roleStore.Repr, tmpSecretStore.Repr
      ensures fresh(roleStore.Repr - old(roleStore.Repr)) && fresh(tmpSecretStore.Repr - old(tmpSecretStore.Repr))
      ensures Midway(tmpSecretStore, credsCache, [], cache, wanted, goal)
    {
      credsCache, cache := map[], map[];
      assert secrets[0..] == secrets;
      for i := 0 to |secrets|
        invariant fresh(roleStore.Repr - old(roleStore.Repr)) && fresh(tmpSecretStore.Repr - old(tmpSecretStore.Repr))
        invariant client.cluster.next >= old(client.cluster.next)
        invariant Midway(tmpSecretStore, credsCache, UnownedOf(secrets[i..]), cache, wanted, goal)
      {
        var secret := secrets[i];
        UnownedStep(secrets, i);
        if |secret.owners| > 0 {
          continue;
        }
        assert secret in secrets;
        credsCache, cache := ScanSecret(secret, credsCache, tmpSecretStore, UnownedOf(secrets[i + 1..]), cache,
                wanted, goal);
      }
    }

    // ---------------------------------------------------------------- the second loop

    /** Creation of one missing secret. */
    method MakeSecret(role: string, ns: string, creds: Data, ghost more: seq<string>, ghost work: seq<Wanted>,
            ghost cache: Cache, ghost seen: set<Pair>)
      requires At(Making(role, [ns] + more, creds, work, cache, seen)) && Text.Lacks(ns, '/')
      modifies client`cluster, client`requests, client`log
      ensures At(MakeNext(role, more, creds, work, cache, seen))
      ensures client.Alone() ==>
                client.cluster == MakeOne(old(client.cluster), Pair(role, ns), creds, OutsideOf(client.oracle))
    {
      assert ([ns] + more)[0] == ns && ([ns] + more)[1..] == more;
      var name := SECRET_PREFIX + role;
      var secret := Secret(Key(ns, name), OWNER_LABELS, [], creds, 0, 0);
      ghost var log0 := client.log;
      var ok := client.CreateSecret(secret, RolePass.SettlePut);
      ReplaySnoc(cfg, log0, client.log[|log0|]);
    }

    /** The inner loop has these namespaces left, and will, undisturbed, end where it was bound for. */
    ghost predicate Filing(seen: set<Pair>, role: string, namespaces: seq<string>, creds: Data, rest: seq<Wanted>,
            cache: Cache, goal: Cluster)
      reads this, client
    {
      && At(MakeNext(role, Missing(role, namespaces, seen), creds, rest, cache, seen))
      && (client.Alone() ==>
            MakeAll(client.cluster, role, Missing(role, namespaces, seen), creds, OutsideOf(client.oracle)) == goal)
    }

    method MakeIfMissing(missing: bool, role: string, ns: string, creds: Data, ghost more: seq<string>,
            ghost rest: seq<Wanted>, ghost cache: Cache, ghost seen: set<Pair>, ghost goal: Cluster)
      requires Filing(seen, role, [ns] + more, creds, rest, cache, goal)
      requires Text.Lacks(ns, '/') && (missing <==> Pair(role, ns) !in seen)
      modifies client`cluster, client`requests, client`log
      ensures Filing(seen, role, more, creds, rest, cache, goal)
    {
      MissingStep(role, ns, more, seen);
      if missing {
        MakeStep(client.cluster, role, ns, Missing(role, more, seen), creds, OutsideOf(client.oracle));
        MakeSecret(role, ns, creds, Missing(role, more, seen), rest, cache, seen);
      }
    }

    /** The index of what existed stands for these pairs. */
    ghost predicate Indexes(tmp: RoleStores.RoleStore, seen: set<Pair>)
      reads this, tmp, tmp.Repr
    {
      tmp.Valid() && {this, client} !! tmp.Repr && PairsOf(tmp.Value) == seen
    }

    method Indexed(tmp: RoleStores.RoleStore, role: string, ns: string, ghost seen: set<Pair>) returns (found: bool)
      requires Indexes(tmp, seen)
      ensures found <==> Pair(role, ns) in seen
    {
      found := tmp.Exists(role, ns);
    }

    /** The inner loop: the namespaces of one role that have no secret. */
    method MakeMissing(w: Wanted, creds: Data, tmpSecretStore: RoleStores.RoleStore, ghost rest: seq<Wanted>,
            ghost cache: Cache, ghost seen: set<Pair>, ghost goal: Cluster)
      requires Indexes(tmpSecretStore, seen)
      requires SlashFree(w.namespaces)
      requires Filing(seen, w.role, w.namespaces, creds, rest, cache, goal)
      modifies client`cluster, client`requests, client`log
      ensures Indexes(tmpSecretStore, seen)
      ensures Filing(seen, w.role, [], creds, rest, cache, goal)
    {
      assert w.namespaces[0..] == w.namespaces;
      for j := 0 to |w.namespaces|
        invariant Indexes(tmpSecretStore, seen)
        invariant Filing(seen, w.role, w.namespaces[j..], creds, rest, cache, goal)
      {
        var ns := w.namespaces[j];
        Peel(w.namespaces, j);
        var found := Indexed(tmpSecretStore, w.role, ns, seen);
        MakeIfMissing(!found, w.role, ns, creds, w.namespaces[j + 1..], rest, cache, seen, goal);
      }
      assert w.namespaces[|w.namespaces|..] == [];
    }

    /** The second loop has these roles left, and will, undisturbed, end where it was bound for. */
    ghost predicate Filling(seen: set<Pair>, credsCache: map<string, Data>, cache: Cache, todo: seq<Wanted>,
            goal: Cluster)
      reads this, client
    {
      && At(FillNext(todo, cache, seen)) && credsCache == DataOf(cache)
      && (client.Alone() ==>
            FillAll(client.cluster, todo, credsCache, seen, OutsideOf(client.oracle)) == goal)
    }

    /** Credentials for a role: the cached ones, or new ones. */
    method CredsForRole(w: Wanted, credsCache: map<string, Data>, ghost rest: seq<Wanted>, ghost cache: Cache,
            ghost seen: set<Pair>, ghost goal: Cluster)
      returns (creds: Option<Data>, ghost bound: Cluster)
      requires Filling(seen, credsCache, cache, [w] + rest, goal)
      modifies client`log
      ensures creds.None? ==> Filling(seen, credsCache, cache, rest, goal)
      ensures creds.Some? ==> Filing(seen, w.role, w.namespaces, creds.value, rest, cache, bound)
      ensures creds.Some? && client.Alone() ==> FillAll(bound, rest, credsCache, seen, OutsideOf(client.oracle)) == goal
    {
      FillStep(client.cluster, w, rest, credsCache, seen, OutsideOf(client.oracle));
      assert ([w] + rest)[0] == w && ([w] + rest)[1..] == rest;
      bound := FillOne(client.cluster, w, credsCache, seen, OutsideOf(client.oracle));
      if w.role in credsCache {
        creds := Some(credsCache[w.role]);
      } else {
        ghost var log0 := client.log;
        ghost var answer;
        creds, answer := GetCreds(w.role, Key("", w.role), RolePass.SettleAsk);
        ReplaySnoc(cfg, log0, client.log[|log0|]);
      }
    }

    /** The body of the second loop. */
    method FillRole(w: Wanted, credsCache: map<string, Data>, tmpSecretStore: RoleStores.RoleStore,
            ghost rest: seq<Wanted>, ghost cache: Cache, ghost seen: set<Pair>, ghost goal: Cluster)
      requires Indexes(tmpSecretStore, seen) && Filling(seen, credsCache, cache, [w] + rest, goal)
      requires SlashFree(w.namespaces)
      modifies client`cluster, client`requests, client`log
      ensures Indexes(tmpSecretStore, seen) && Filling(seen, credsCache, cache, rest, goal)
    {
      var creds; ghost var bound;
      creds, bound := CredsForRole(w, credsCache, rest, cache, seen, goal);
      if creds.Some? {
        MakeMissing(w, creds.value, tmpSecretStore, rest, cache, seen, bound);
      }
    }

    /** The second loop, under the store's read lock: create what is missing. */
    method FillIn(work: seq<Wanted>, credsCache: map<string, Data>, tmpSecretStore: RoleStores.RoleStore,
            ghost cache: Cache, ghost seen: set<Pair>, ghost goal: Cluster)
      requires Indexes(tmpSecretStore, seen) && Filling(seen, credsCache, cache, work, goal)
      requires SlashFreeWork(work)
      modifies client`cluster, client`requests, client`log
      ensures Filling(seen, credsCache, cache, [], goal)
    {
      assert work[0..] == work;
      for i := 0 to |work|
        invariant Indexes(tmpSecretStore, seen) && Filling(seen, credsCache, cache, work[i..], goal)
      {
        assert work[i] in work;
        Peel(work, i);
        FillRole(work[i], credsCache, tmpSecretStore, work[i + 1..], cache, seen, goal);
      }
      assert work[|work|..] == [];
    }

    // ---------------------------------------------------------------- a pass

    /** Taking the read lock: from here on the store stands still, and a walk over it is due. */
    method ReadStore(credsCache: map<string, Data>, ghost tmp: RoleStores.RoleStore, ghost cache: Cache,
            ghost wanted: set<Pair>, ghost goal: Scan)
      returns (work: seq<Wanted>, ghost bound: Cluster)
      requires Midway(tmp, credsCache, [], cache, wanted, goal)
      modifies this`turns, roleStore.Repr, client`log
      ensures Stores(tmp) && fresh(roleStore.Repr - old(roleStore.Repr))
      ensures DistinctWork(work) && SlashFreeWork(work)
      ensures Filling(PairsOf(tmp.Value), credsCache, cache, work, bound)
      ensures WalksOver(work, PairsOf(roleStore.Value))
      ensures Undisturbed() ==>
                && PairsOf(roleStore.Value) == wanted
                && bound == FillAll(goal.c, work, goal.cache, goal.seen, OutsideOf(client.oracle))
    {
      OthersTurn(tmp);
      work := Walk();
      WalkCovers(work, roleStore.Value);
      bound := NoteWalk(work, credsCache, cache, PairsOf(tmp.Value));
    }

    ghost method NoteWalk(work: seq<Wanted>, credsCache: map<string, Data>, cache: Cache, seen: set<Pair>)
      returns (bound: Cluster)
      requires At(Scanned(cache, seen)) && credsCache == DataOf(cache) && DistinctWork(work)
      modifies client`log
      ensures Filling(seen, credsCache, cache, work, bound)
      ensures bound == FillAll(client.cluster, work, credsCache, seen, OutsideOf(client.oracle))
    {
      var e := StoreRead(work);
      ReplaySnoc(cfg, client.log, e);
      client.log := client.log + [e];
      bound := FillAll(client.cluster, work, credsCache, seen, OutsideOf(client.oracle));
    }

    /** The second loop, after the first one. The walk over the store comes back as a ghost. */
    method FillPhase(credsCache: map<string, Data>, tmpSecretStore: RoleStores.RoleStore, ghost cache: Cache,
            ghost wanted: set<Pair>, ghost goal: Scan)
      returns (ghost walk: seq<Wanted>)
      requires Midway(tmpSecretStore, credsCache, [], cache, wanted, goal)
      modifies client`cluster, client`requests, client`log, this`turns, roleStore.Repr
      ensures Stores(tmpSecretStore) && fresh(roleStore.Repr - old(roleStore.Repr))
      ensures At(Idle)
      ensures Undisturbed() ==>
                && PairsOf(roleStore.Value) == wanted && WalksOver(walk, wanted)
                && client.cluster == FillAll(goal.c, walk, goal.cache, goal.seen, OutsideOf(client.oracle))
    {
      var work; ghost var bound;
      work, bound := ReadStore(credsCache, tmpSecretStore, cache, wanted, goal);
      walk := work;
      FillIn(work, credsCache, tmpSecretStore, cache, PairsOf(tmpSecretStore.Value), bound);
    }

    /** The first loop, with a new cache and a new index. */
    method ScanPhase(secrets: seq<Secret>, ghost wanted: set<Pair>)
      returns (credsCache: map<string, Data>, tmpSecretStore: RoleStores.RoleStore, ghost cache: Cache,
        ghost goal: Scan)
      requires Ready() && At(ScanNext(UnownedOf(secrets), map[], {}))
      requires wanted == PairsOf(roleStore.Value)
      requires forall s :: s in secrets ==> SecretFits(s, s.key, client.cluster.next)
      modifies client`cluster, client`requests, client`log, this`turns, roleStore.Repr
      ensures fresh(roleStore.Repr - old(roleStore.Repr))
      ensures goal
           == ScanAll(cfg, Scan(old(client.cluster), map[], {}), UnownedOf(secrets), wanted, OutsideOf(client.oracle))
      ensures Midway(tmpSecretStore, credsCache, [], cache, wanted, goal)
    {
      goal := ScanAll(cfg, Scan(client.cluster, map[], {}), UnownedOf(secrets), wanted, OutsideOf(client.oracle));
      tmpSecretStore := new RoleStores.RoleStore();
      assert PairsOf(tmpSecretStore.Value) == {};
      credsCache, cache := ScanSecrets(secrets, tmpSecretStore, wanted, goal);
    }

    /** Both loops, over a given list. */
    method WorkThrough(secrets: seq<Secret>, ghost wanted: set<Pair>) returns (ghost walk: seq<Wanted>)
      requires Ready() && wanted == PairsOf(roleStore.Value)
      requires At(ScanNext(UnownedOf(secrets), map[], {}))
      requires forall s :: s in secrets ==> SecretFits(s, s.key, client.cluster.next)
      modifies client`cluster, client`requests, client`log, this`turns, roleStore.Repr
      ensures Ready() && fresh(roleStore.Repr - old(roleStore.Repr))
      ensures At(Idle)
      ensures Undisturbed() ==>
                && PairsOf(roleStore.Value) == wanted && WalksOver(walk, wanted)
                && client.cluster == PassOver(cfg, old(client.cluster), secrets, walk, wanted, OutsideOf(client.oracle))
    {
      var credsCache, tmpSecretStore; ghost var cache, goal;
      credsCache, tmpSecretStore, cache, goal := ScanPhase(secrets, wanted);
      walk := FillPhase(credsCache, tmpSecretStore, cache, wanted, goal);
    }

    /** The shared store is sound and no part of this controller. */
    ghost predicate Ready()
      reads this, roleStore, roleStore.Repr
    {
      roleStore.Valid() && {this, client} !! roleStore.Repr && Named(roleStore.Value) && PodsNamed()
    }

    /** One pass. The list it worked from and its walk over the store come back as ghosts. */
    method Refresh() returns (ok: bool, ghost secrets: seq<Secret>, ghost walk: seq<Wanted>)
      requires Ready() && At(Idle)
      modifies client`cluster, client`requests, client`log, this`turns, roleStore.Repr
      ensures Ready() && fresh(roleStore.Repr - old(roleStore.Repr))
      ensures At(Idle)
      ensures ok <==> !client.secretsFail
      ensures NoRepeats(Writes(client.log))
      ensures client.Alone() && !ok ==> client.cluster == old(client.cluster)
      ensures Undisturbed() ==> PairsOf(roleStore.Value) == old(PairsOf(roleStore.Value))
      ensures Undisturbed() && ok ==>
                && SecretListing(old(client.cluster), cfg.namespace, OWNER_LABELS, secrets)
                && WalksOver(walk, old(PairsOf(roleStore.Value)))
                && client.cluster
                   == PassOver(cfg, old(client.cluster), secrets, walk, old(PairsOf(roleStore.Value)),
                        OutsideOf(client.oracle))
    {
      secrets, walk := [], [];
      ghost var log0 := client.log;
      var secretList := client.ListSecrets(cfg.namespace, OWNER_LABELS);
      ReplaySnoc(cfg, log0, client.log[|log0|]);
      ok := secretList.Some?;
      if ok {
        secrets := secretList.value;
        assert forall s :: s in secrets ==> SecretFits(s, s.key, client.cluster.next) by {
          assert forall s :: s in secrets ==> SecretIsListed(client.cluster, cfg.namespace, OWNER_LABELS, s);
        }
        walk := WorkThrough(secretList.value, PairsOf(roleStore.Value));
      }
      OneWritePerKey(cfg, client.log);
    }

    /** The controller's loop, for any number of passes, each with its own answers and failures. The
        clusters between the passes come back as a ghost. */
    method Run(passes: nat) returns (ghost trail: seq<Cluster>)
      requires Ready() && At(Idle)
      modifies client`cluster, client`requests, client`log, this`turns, roleStore.Repr
      modifies client`oracle, client`secretsFail, client`rolesFail, client`pass
      ensures Ready() && At(Idle) && client.pass == old(client.pass) + passes
      ensures |trail| == passes + 1 && trail[0] == old(client.cluster) && trail[passes] == client.cluster
      ensures Undisturbed() ==>
                Trail(cfg, trail, client.forecast, old(client.pass), old(PairsOf(roleStore.Value)))
    {
      ghost var wanted, from := PairsOf(roleStore.Value), client.pass;
      trail := [client.cluster];
      for i := 0 to passes
        invariant Ready() && fresh(roleStore.Repr - old(roleStore.Repr)) && At(Idle) && client.pass == from + i
        invariant |trail| == i + 1 && trail[0] == old(client.cluster) && trail[i] == client.cluster
        invariant Undisturbed() ==>
                    PairsOf(roleStore.Value) == wanted && Trail(cfg, trail, client.forecast, from, wanted)
      {
        RunPass();
        trail := trail + [client.cluster];
      }
    }

    method RunPass()
      requires Ready() && At(Idle)
      modifies client`cluster, client`requests, client`log, this`turns, roleStore.Repr
      modifies client`oracle, client`secretsFail, client`rolesFail, client`pass
      ensures Ready() && fresh(roleStore.Repr - old(roleStore.Repr)) && At(Idle)
      ensures client.pass == old(client.pass) + 1
      ensures Undisturbed() ==>
                && PairsOf(roleStore.Value) == old(PairsOf(roleStore.Value))
                && LeadsOnce(cfg, old(client.cluster), client.forecast(old(client.pass)), old(PairsOf(roleStore.Value)),
                     client.cluster)
    {
      client.NextPass();
      ghost var secrets, walk;
      var ok;
      ok, secrets, walk := Refresh();
    }
  }

  /** A pass leads from one cluster to another; one whose list fails leads nowhere. */
  ghost predicate LeadsOnce(cfg: Config, c: Cluster, w: Weather, wanted: set<Pair>, d: Cluster) {
    if w.secretsFail then d == c
    else
      exists secrets, walk ::
        && SecretListing(c, cfg.namespace, OWNER_LABELS, secrets) && WalksOver(walk, wanted)
        && d == PassOver(cfg, c, secrets, walk, wanted, OutsideOf(w.oracle))
  }

  /** Each cluster comes from the one before by a pass in the weather of its number. */
  ghost predicate Trail(cfg: Config, trail: seq<Cluster>, forecast: nat -> Weather, from: nat, wanted: set<Pair>) {
    forall i :: 0 <= i < |trail| - 1 ==> LeadsOnce(cfg, trail[i], forecast(from + i), wanted, trail[i + 1])
  }

  /** One iteration of the second loop, undisturbed. */
  lemma FillStep(c: Cluster, w: Wanted, rest: seq<Wanted>, credsCache: map<string, Data>, seen: set<Pair>, o: Outside)
    ensures FillAll(c, [w] + rest, credsCache, seen, o)
         == FillAll(FillOne(c, w, credsCache, seen, o), rest, credsCache, seen, o)
  {
    assert ([w] + rest)[0] == w && ([w] + rest)[1..] == rest;
  }

  lemma Peel<T>(xs: seq<T>, i: nat)
    requires i < |xs|
    ensures xs[i..] == [xs[i]] + xs[i + 1..]
  {
  }

  lemma MissingStep(role: string, ns: string, more: seq<string>, seen: set<Pair>)
    ensures Missing(role, [ns] + more, seen)
         == (if Pair(role, ns) in seen then Missing(role, more, seen) else [ns] + Missing(role, more, seen))
  {
    assert ([ns] + more)[1..] == more;
  }

  ghost function MakeOne(c: Cluster, p: Pair, creds: Data, o: Outside): Cluster {
    Answered(o.at(KeyFor(p)).make, c, CreateSecret(c, StoreSecret(p, creds))).0
  }

  lemma MakeStep(c: Cluster, role: string, ns: string, more: seq<string>, creds: Data, o: Outside)
    ensures MakeAll(c, role, [ns] + more, creds, o)
         == MakeAll(MakeOne(c, Pair(role, ns), creds, o), role, more, creds, o)
  {
    assert ([ns] + more)[1..] == more;
  }

  /** One iteration of the first loop, undisturbed. */
  lemma ScanStep(cfg: Config, c: Cluster, credsCache: map<string, Data>, seen: set<Pair>, s: Secret,
          rest: seq<Secret>, wanted: set<Pair>, o: Outside)
    ensures var t := Treated(cfg, c, s, PairOf(s.key) in wanted, credsCache, o.at(s.key));
            ScanAll(cfg, Scan(c, credsCache, seen), [s] + rest, wanted, o)
            == ScanAll(cfg, Scan(t.0, t.1, seen + {PairOf(s.key)}), rest, wanted, o)
  {
    assert ([s] + rest)[1..] == rest;
  }

  /** What the first loop does next once it has looked a secret up. */
  function LookedStage(s: Secret, found: bool): StoreMachine.Stage {
    if !found then StoreMachine.Stage.Doomed else if ExpireOf(s.data).Some? then Check else Due
  }

  /** The cluster and the cache after new credentials for a secret. */
  ghost function Renewed(c: Cluster, s: Secret, credsCache: map<string, Data>, a: Answers): (Cluster, map<string,
          Data>) {
    if a.ask.None? then (c, credsCache)
    else
      var data := StorePayload(a.ask.value);
      var put := Answered(a.put, c, UpdateSecret(c, s.(data := data)));
      (put.0, if put.1 then credsCache[PairOf(s.key).role := data] else credsCache)
  }

  /** The cluster and the cache after an iteration of the first loop. */
  ghost function Treated(cfg: Config, c: Cluster, s: Secret, found: bool, credsCache: map<string, Data>,
          a: Answers): (Cluster, map<string, Data>) {
    if !found then (Answered(a.drop, c, DeleteSecret(c, s.key)).0, credsCache)
    else if !NeedsRefresh(s.data, a.now, cfg.refreshLimit) then (c, credsCache[PairOf(s.key).role := s.data])
    else Renewed(c, s, credsCache, a)
  }

  lemma WalkGrows(before: seq<Wanted>, w: Wanted)
    requires DistinctWork(before) && NoRepeats(w.namespaces) && forall v :: v in before ==> v.role != w.role
    ensures DistinctWork(before + [w]) && Awaited(before + [w], w.role)
    ensures forall r :: Awaited(before, r) ==> Awaited(before + [w], r)
  {
    var after := before + [w];
    assert after[|before|] == w;
    assert forall v :: v in after <==> v in before || v == w;
  }
}
