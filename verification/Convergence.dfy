/** Where repeated passes of the AWSIAMRole controller lead, and when. */
module Convergence {
  import opened Options
  import opened Decimal
  import opened Kube
  import opened Payload
  import opened RolePass
  import opened RoleReconcile
  import opened Events
  import RM = RoleMachine
  import RoleTrace
  import Text

  /** `d` is what a pass alone makes of `c`, for some order of the two lists. */
  ghost predicate Pass(cfg: Config, c: Cluster, o: Oracle, d: Cluster) {
    exists secrets, roles :: Listings(cfg, c, secrets, roles) && d == ExecAll(cfg, c, Plan(secrets, roles), o)
  }

  /** No request fails and STS answers. */
  ghost predicate FaultFree(o: Oracle) {
    forall k: Key :: NoFault(o(k))
  }

  ghost predicate NoFault(a: Answers) {
    && a.renewAsk.Some? && a.settleAsk.Some?
    && a.renewPut == a.renewReport == a.drop == a.settlePut == a.settleReport == Clear
  }

  ghost predicate Generations(c: Cluster) {
    forall k :: k in c.roles ==> IsInt64(c.roles[k].generation)
  }

  /** The goal at a key: a managed secret exactly when there is a role, owned by it, recording its
      generation, and announced in its status. */
  ghost predicate Converged(cfg: Config, c: Cluster, k: Key) {
    var s, r := ListedSecret(cfg, c, k), ListedRole(cfg, c, k);
    && (s.Some? <==> r.Some?)
    && (r.Some? ==>
          && IsOwned(r.value, s.value)
          && GenerationOf(s.value.data) == Some(r.value.generation)
          && r.value.status.observedGeneration == Some(r.value.generation))
  }

  /** Someone else's secret holds the role's name. */
  ghost predicate Blocked(cfg: Config, c: Cluster, k: Key) {
    ListedRole(cfg, c, k).Some? && k in c.secrets && !Managed(c.secrets[k])
  }

  /** An owned secret whose generation record cannot be read and that is not due for a refresh. */
  ghost predicate Stuck(cfg: Config, c: Cluster, k: Key, now: int) {
    var s, r := ListedSecret(cfg, c, k), ListedRole(cfg, c, k);
    && s.Some? && r.Some? && IsOwned(r.value, s.value)
    && GenerationOf(s.value.data).None? && !NeedsRefresh(s.value.data, now, cfg.refreshLimit)
  }

  /** A role whose name is held by a managed secret it does not own. */
  ghost predicate HeldByOrphan(cfg: Config, c: Cluster, k: Key) {
    var s, r := ListedSecret(cfg, c, k), ListedRole(cfg, c, k);
    s.Some? && r.Some? && !IsOwned(r.value, s.value)
  }

  lemma PassAt(cfg: Config, c: Cluster, o: Oracle, d: Cluster, k: Key)
    requires WellFormed(c) && Pass(cfg, c, o, d)
    ensures ResultAt(d, k) == Reconcile(cfg, k, SecretAt(c, k), RoleAt(c, k), o(k))
    ensures SameRole(c, d, k) && WellFormed(d)
  {
    var secrets, roles :| Listings(cfg, c, secrets, roles) && d == ExecAll(cfg, c, Plan(secrets, roles), o);
    PassRefinesReconcile(cfg, c, secrets, roles, o, k);
  }

  /** The result at a key depends on that key's objects and answers only: not on the other
      objects, the listing order, or what fails elsewhere. */
  lemma PassIsLocal(cfg: Config, c: Cluster, o: Oracle, d: Cluster, c': Cluster, o': Oracle, d': Cluster, k: Key)
    requires WellFormed(c) && WellFormed(c') && Pass(cfg, c, o, d) && Pass(cfg, c', o', d')
    requires SecretAt(c, k) == SecretAt(c', k) && RoleAt(c, k) == RoleAt(c', k) && o(k) == o'(k)
    ensures ResultAt(d, k) == ResultAt(d', k)
  {
    PassAt(cfg, c, o, d, k);
    PassAt(cfg, c', o', d', k);
  }

  /** Facts about one fault-free pass, key by key. */
  lemma OnePass(cfg: Config, c: Cluster, o: Oracle, d: Cluster, k: Key)
    requires WellFormed(c) && Generations(c) && Pass(cfg, c, o, d) && NoFault(o(k)) && InScope(cfg.namespace, k)
    ensures WellFormed(d) && SameRole(c, d, k)
    ensures Blocked(cfg, d, k) <==> Blocked(cfg, c, k)
    ensures HeldByOrphan(cfg, c, k) ==> k !in d.secrets
    ensures Stuck(cfg, c, k, o(k).now) ==> ResultAt(d, k) == ResultAt(c, k)
    ensures !Blocked(cfg, c, k) && !HeldByOrphan(cfg, c, k) && !Stuck(cfg, c, k, o(k).now) ==> Converged(cfg, d, k)
  {
    PassAt(cfg, c, o, d, k);
    var s, r := ListedSecret(cfg, c, k), ListedRole(cfg, c, k);
    if r.Some? {
      if s.Some? {
        if IsOwned(r.value, s.value) {
          OwnedPass(cfg, c, d, k, s.value, r.value, o(k));
        } else {
          OrphanPass(cfg, c, d, k, s.value, r.value, o(k));
        }
      } else if k !in c.secrets {
        MissingPass(cfg, c, d, k, r.value, o(k));
      }
    }
  }

  lemma OrphanPass(cfg: Config, c: Cluster, d: Cluster, k: Key, s: Secret, r: Role, a: Answers)
    requires ListedSecret(cfg, c, k) == Some(s) && ListedRole(cfg, c, k) == Some(r) && !IsOwned(r, s)
    requires NoFault(a)
    requires ResultAt(d, k) == ReconcileOrphan(cfg, r, s, a)
    ensures k !in d.secrets
  {
  }

  lemma MissingPass(cfg: Config, c: Cluster, d: Cluster, k: Key, r: Role, a: Answers)
    requires k !in c.secrets && ListedRole(cfg, c, k) == Some(r)
    requires IsInt64(r.generation) && NoFault(a) && SameRole(c, d, k) && WellFormed(c)
    requires ResultAt(d, k) == ReconcileMissing(cfg, r, a)
    ensures Converged(cfg, d, k) && !Blocked(cfg, d, k)
  {
    FreshLabels(Some(r));
    GenerationReadsBack(Resolve(cfg, r.spec.roleReference), a.settleAsk.value, r.generation);
    var s := d.secrets[k];
    assert s.owners == [RefTo(r)];
    assert RefTo(r) == RefTo(d.roles[k]);
  }

  /** Whatever labels a role has, the secrets written for it are managed. */
  lemma FreshLabels(r: Option<Role>)
    ensures r.Some? ==> Selected(r.value.labels + ROLE_OWNER_LABELS, ROLE_OWNER_LABELS)
  {
  }

  lemma OwnedPass(cfg: Config, c: Cluster, d: Cluster, k: Key, s: Secret, r: Role, a: Answers)
    requires ListedSecret(cfg, c, k) == Some(s) && ListedRole(cfg, c, k) == Some(r) && IsOwned(r, s)
    requires IsInt64(r.generation) && NoFault(a) && SameRole(c, d, k) && WellFormed(c)
    requires ResultAt(d, k) == ReconcileOwned(cfg, r, s, a)
    ensures Stuck(cfg, c, k, a.now) ==> ResultAt(d, k) == ResultAt(c, k)
    ensures !Stuck(cfg, c, k, a.now) ==> Converged(cfg, d, k)
    ensures !Blocked(cfg, d, k)
  {
    FreshLabels(Some(r));
    GenerationReadsBack(Resolve(cfg, r.spec.roleReference), a.renewAsk.value, r.generation);
    GenerationReadsBack(Resolve(cfg, r.spec.roleReference), a.settleAsk.value, r.generation);
  }

  /** One pass is enough exactly for the keys that are not held by an orphan, blocked or stuck. */
  lemma OnePassConvergesIff(cfg: Config, c: Cluster, o: Oracle, d: Cluster, k: Key)
    requires WellFormed(c) && Generations(c) && Pass(cfg, c, o, d) && NoFault(o(k)) && InScope(cfg.namespace, k)
    ensures Converged(cfg, d, k) <==>
            !Blocked(cfg, c, k) && !HeldByOrphan(cfg, c, k) && !Stuck(cfg, c, k, o(k).now)
  {
    OnePass(cfg, c, o, d, k);
  }

  /** Two fault-free passes converge a key exactly when nobody else's secret holds the name and the
      owned secret is not stuck at both passes. */
  lemma TwoPassConvergesIff(cfg: Config, c: Cluster, o1: Oracle, d: Cluster, o2: Oracle, e: Cluster, k: Key)
    requires WellFormed(c) && Generations(c) && InScope(cfg.namespace, k)
    requires Pass(cfg, c, o1, d) && Pass(cfg, d, o2, e) && NoFault(o1(k)) && NoFault(o2(k))
    ensures Converged(cfg, e, k) <==>
            !Blocked(cfg, c, k) && !(Stuck(cfg, c, k, o1(k).now) && Stuck(cfg, c, k, o2(k).now))
    ensures SameRole(c, e, k)
  {
    OnePass(cfg, c, o1, d, k);
    GenerationsKept(cfg, c, o1, d);
    OnePass(cfg, d, o2, e, k);
    if Stuck(cfg, c, k, o1(k).now) {
      StillStuck(cfg, c, d, k, o2(k).now);
    } else if Converged(cfg, d, k) {
      assert !Stuck(cfg, d, k, o2(k).now);
    }
  }

  lemma StillStuck(cfg: Config, c: Cluster, d: Cluster, k: Key, now: int)
    requires ResultAt(d, k) == ResultAt(c, k) && SameRole(c, d, k)
    ensures Stuck(cfg, d, k, now) <==> Stuck(cfg, c, k, now)
    ensures HeldByOrphan(cfg, d, k) <==> HeldByOrphan(cfg, c, k)
  {
  }

  lemma GenerationsKept(cfg: Config, c: Cluster, o: Oracle, d: Cluster)
    requires WellFormed(c) && Generations(c) && Pass(cfg, c, o, d)
    ensures Generations(d)
  {
    forall k | k in d.roles ensures IsInt64(d.roles[k].generation) {
      PassAt(cfg, c, o, d, k);
    }
  }

  /** Two-pass convergence of a whole cluster: afterwards the managed secrets are exactly one per
      role, owned by its UID, at its generation, and announced. The last clause spells this out. */
  lemma {:induction false} TwoPassConvergence(cfg: Config, c: Cluster, o1: Oracle, d: Cluster, o2: Oracle, e: Cluster)
    requires WellFormed(c) && Generations(c)
    requires Pass(cfg, c, o1, d) && Pass(cfg, d, o2, e) && FaultFree(o1) && FaultFree(o2)
    requires forall k: Key :: !Blocked(cfg, c, k) && !Stuck(cfg, c, k, o1(k).now)
    ensures forall k: Key :: InScope(cfg.namespace, k) ==> Converged(cfg, e, k)
    ensures ManagedKeys(cfg, e) == RoleKeys(cfg, c)
  {
    forall k: Key | InScope(cfg.namespace, k) ensures Converged(cfg, e, k) && SameRole(c, e, k) {
      TwoPassConvergesIff(cfg, c, o1, d, o2, e, k);
    }
    forall k: Key ensures k in ManagedKeys(cfg, e) <==> k in RoleKeys(cfg, c) {
      if InScope(cfg.namespace, k) {
        assert Converged(cfg, e, k) && SameRole(c, e, k);
      }
    }
  }

  ghost function ManagedKeys(cfg: Config, c: Cluster): set<Key> {
    set k | k in c.secrets && ListedSecret(cfg, c, k).Some?
  }

  ghost function RoleKeys(cfg: Config, c: Cluster): set<Key> {
    set k | k in c.roles && ListedRole(cfg, c, k).Some?
  }

  /** Every task is a renewal that is not due by then: none of them asks STS or writes. */
  ghost predicate Undue(cfg: Config, tasks: seq<Task>, until: int) {
    forall t :: t in tasks ==> t.Renew? && !NeedsRefresh(t.secret.data, until, cfg.refreshLimit)
  }

  /** The stored expiry of every managed secret is at least the limit away, then and before. */
  ghost predicate Outlasting(cfg: Config, c: Cluster, until: int) {
    forall k :: k in c.secrets && ListedSecret(cfg, c, k).Some? ==>
                  ExpiresFrom(c.secrets[k].data, until + cfg.refreshLimit)
  }

  ghost predicate ExpiresFrom(data: Data, at: int) {
    "expire" in data && data["expire"].Stamp? && data["expire"].at >= at
  }

  /** Credentials from STS that really work for the limit and a second more are such. */
  lemma RealOutlasting(cfg: Config, c: Cluster, until: int)
    requires forall k :: k in c.secrets && ListedSecret(cfg, c, k).Some? ==>
               && Coherent(c.secrets[k].data) && RealExpiry(c.secrets[k].data).Some?
               && RealExpiry(c.secrets[k].data).value >= until + cfg.refreshLimit + SECOND
    ensures Outlasting(cfg, c, until)
  {
    forall k | k in c.secrets && ListedSecret(cfg, c, k).Some?
      ensures ExpiresFrom(c.secrets[k].data, until + cfg.refreshLimit)
    {
      ExpireNeverLater(c.secrets[k].data);
    }
  }

  lemma ConvergedPlan(cfg: Config, c: Cluster, secrets: seq<Secret>, roles: seq<Role>, until: int)
    requires WellFormed(c) && Listings(cfg, c, secrets, roles) && Outlasting(cfg, c, until)
    requires forall k: Key :: InScope(cfg.namespace, k) ==> Converged(cfg, c, k)
    ensures Undue(cfg, Plan(secrets, roles), until)
  {
    NoOrphans(cfg, c, secrets, roles);
    NoSettlements(cfg, c, secrets, roles);
    DropsMembers(Orphans(secrets, roles));
    RenewalsMembers(secrets, roles);
    forall t: Task | t in Renewals(secrets, roles) ensures !NeedsRefresh(t.secret.data, until, cfg.refreshLimit) {
      assert SecretIsListed(c, cfg.namespace, ROLE_OWNER_LABELS, t.secret);
      assert ListedSecret(cfg, c, t.secret.key) == Some(t.secret);
      RefreshIff(t.secret.data, until, cfg.refreshLimit);
    }
    assert Plan(secrets, roles) == Renewals(secrets, roles);
  }

  /** A converged cluster whose credentials outlast the refresh limit is left alone: once a further
      pass has read such a cluster's lists, it only reads the clock, once per secret. It sends STS and
      the API server nothing, whatever they would answer and whatever happens meanwhile. */
  lemma {:induction false} ConvergedIsQuiet(cfg: Config, c: Cluster, log: seq<Event>, secrets: seq<Secret>,
          roles: seq<Role>, more: seq<Event>, until: int)
    requires WellFormed(c) && Listings(cfg, c, secrets, roles) && Outlasting(cfg, c, until)
    requires forall k: Key :: InScope(cfg.namespace, k) ==> Converged(cfg, c, k)
    requires RM.Replay(cfg, log) == Some(RM.HaveSecrets(secrets))
    requires RM.Replay(cfg, log + [RolesListed(Some(roles))] + more).Some?
    requires forall e :: e in more ==> !e.SecretsListed? && (e.ClockRead? ==> e.now <= until)
    ensures forall e :: e in more ==> e.ClockRead?
    ensures |more| <= |secrets|
  {
    var tasks := Plan(secrets, roles);
    RM.ReplaySnoc(cfg, log, RolesListed(Some(roles)));
    ConvergedPlan(cfg, c, secrets, roles, until);
    UndueOnlyReads(cfg, log + [RolesListed(Some(roles))], tasks, more, until);
    RenewalsAtMost(secrets, roles);
    NoOrphans(cfg, c, secrets, roles);
    NoSettlements(cfg, c, secrets, roles);
  }

  lemma {:induction false} RenewalsAtMost(secrets: seq<Secret>, roles: seq<Role>)
    ensures |Renewals(secrets, roles)| <= |secrets|
  {
    if |secrets| > 0 {
      RenewalsAtMost(secrets[1..], roles);
    }
  }

  /** An agenda of renewals that are not due is worked off by clock readings. */
  lemma {:induction false} UndueOnlyReads(cfg: Config, log: seq<Event>, tasks: seq<Task>, more: seq<Event>, until: int)
    requires RM.Replay(cfg, log) == Some(RM.Begin(tasks)) && Undue(cfg, tasks, until)
    requires RM.Replay(cfg, log + more).Some?
    requires forall e :: e in more ==> !e.SecretsListed? && (e.ClockRead? ==> e.now <= until)
    ensures forall e :: e in more ==> e.ClockRead?
    ensures |more| <= |tasks| && RM.Replay(cfg, log + more) == Some(RM.Begin(tasks[|more|..]))
  {
    if |more| == 0 {
      assert log + more == log && tasks[0..] == tasks;
    } else {
      var n := |more| - 1;
      var init, e := more[..n], more[n];
      assert log + more == (log + init) + [e] && more == init + [e];
      RM.ReplaySnoc(cfg, log + init, e);
      assert forall x :: x in init ==> x in more;
      UndueOnlyReads(cfg, log, tasks, init, until);
      assert e in more;
      UndueStep(cfg, tasks[n..], e, until);
      assert tasks[n..][1..] == tasks[n + 1..];
    }
  }

  lemma UndueStep(cfg: Config, tasks: seq<Task>, e: Event, until: int)
    requires Undue(cfg, tasks, until) && RM.Step(cfg, RM.Begin(tasks), e).Some?
    requires !e.SecretsListed? && (e.ClockRead? ==> e.now <= until)
    ensures e.ClockRead? && |tasks| > 0 && RM.Step(cfg, RM.Begin(tasks), e) == Some(RM.Begin(tasks[1..]))
  {
    assert |tasks| > 0 ==> tasks[0] in tasks;
  }

  /** Alone, such a pass leaves the cluster as it is. */
  lemma {:induction false} ConvergedStays(cfg: Config, c: Cluster, o: Oracle, d: Cluster, until: int)
    requires WellFormed(c) && Pass(cfg, c, o, d) && Outlasting(cfg, c, until)
    requires forall k: Key :: InScope(cfg.namespace, k) ==> Converged(cfg, c, k) && o(k).now <= until
    ensures d == c
  {
    var secrets, roles :| Listings(cfg, c, secrets, roles) && d == ExecAll(cfg, c, Plan(secrets, roles), o);
    ConvergedPlan(cfg, c, secrets, roles, until);
    forall t | t in Plan(secrets, roles) ensures t.Renew? && o(t.secret.key).now <= until {
      RoleTrace.PlanMembers(secrets, roles, t);
      assert SecretIsListed(c, cfg.namespace, ROLE_OWNER_LABELS, t.secret);
    }
    IdleRenewals(cfg, c, Plan(secrets, roles), o);
  }

  lemma NoOrphans(cfg: Config, c: Cluster, secrets: seq<Secret>, roles: seq<Role>)
    requires WellFormed(c) && Listings(cfg, c, secrets, roles)
    requires forall k: Key :: InScope(cfg.namespace, k) ==> Converged(cfg, c, k)
    ensures Orphans(secrets, roles) == []
  {
    var orphans := Orphans(secrets, roles);
    assert orphans == [] || orphans[0] in orphans;
    OrphansMembers(secrets, roles);
    forall s: Secret | s in secrets ensures OwnerOf(s, roles).Some? {
      assert SecretIsListed(c, cfg.namespace, ROLE_OWNER_LABELS, s);
      assert Converged(cfg, c, s.key) && ListedSecret(cfg, c, s.key) == Some(s);
      FindsListedRole(cfg, c, roles, s.key);
    }
  }

  lemma NoSettlements(cfg: Config, c: Cluster, secrets: seq<Secret>, roles: seq<Role>)
    requires WellFormed(c) && Listings(cfg, c, secrets, roles)
    requires forall k: Key :: InScope(cfg.namespace, k) ==> Converged(cfg, c, k)
    ensures Settlements(roles, secrets) == []
  {
    var tasks := Settlements(roles, secrets);
    assert tasks == [] || tasks[0] in tasks;
    SettlementsMembers(roles, secrets);
    forall r: Role | r in roles ensures !HasWork(r, FindSecret(secrets, r.key)) {
      assert c.roles[r.key] == r && Converged(cfg, c, r.key);
      FindsListedSecret(cfg, c, secrets, r.key);
    }
  }

  lemma {:induction false} IdleRenewals(cfg: Config, c: Cluster, tasks: seq<Task>, o: Oracle)
    requires forall t: Task :: t in tasks ==>
               t.Renew? && !NeedsRefresh(t.secret.data, o(t.secret.key).now, cfg.refreshLimit)
    ensures ExecAll(cfg, c, tasks, o) == c
  {
    if |tasks| > 0 {
      assert tasks[0] in tasks;
      IdleRenewals(cfg, c, tasks[1..], o);
    }
  }

  // ---------------------------------------------------------------- what a changed status says

  /** A status says what a secret's data says: its ARN, or none where it has none, and when it expires,
      to the second. */
  ghost predicate Tells(st: Status, data: Data) {
    && st.roleARN == (if "role-arn" in data then data["role-arn"] else Blob.Text(""))
    && "expire" in data && data["expire"].Stamp?
    && st.expiration.Some? && data["expire"].at <= st.expiration.value < data["expire"].at + SECOND
  }

  /** The data that a pass has put under a name is new. */
  ghost predicate Written(c: Cluster, d: Cluster, k: Key) {
    k in d.secrets && (k in c.secrets ==> d.secrets[k].data != c.secrets[k].data)
  }

  /** A status that a fault-free pass changes has the role's generation and tells what the role's secret
      now holds, or what the orphan held that the pass removed. If the pass has written the secret, the
      ARN is the resolution of the role's reference. */
  lemma {:induction false} ChangedStatusTells(cfg: Config, c: Cluster, o: Oracle, d: Cluster, k: Key)
    requires WellFormed(c) && Pass(cfg, c, o, d) && NoFault(o(k)) && InScope(cfg.namespace, k)
    requires k in c.roles && k in d.roles && d.roles[k].status != c.roles[k].status
    ensures d.roles[k].status.observedGeneration == Some(c.roles[k].generation)
    ensures if HeldByOrphan(cfg, c, k) then k in c.secrets && Tells(d.roles[k].status, c.secrets[k].data)
            else k in d.secrets && Tells(d.roles[k].status, d.secrets[k].data)
    ensures Written(c, d, k) ==>
              d.roles[k].status.roleARN.Text? &&
              ResolvesTo(cfg, c.roles[k].spec.roleReference, d.roles[k].status.roleARN.text)
  {
    PassAt(cfg, c, o, d, k);
    var s, r := ListedSecret(cfg, c, k), c.roles[k];
    if s.None? {
      MissingTells(cfg, c, d, k, r, o(k));
    } else if IsOwned(r, s.value) {
      OwnedTells(cfg, c, d, k, s.value, r, o(k));
    } else {
      OrphanTells(cfg, c, d, k, s.value, r, o(k));
    }
  }

  /** When a fault-free pass has written a role's secret, the role's status tells what is in it. The one
      exception is a secret that was not due, of a role whose status already had its generation: loop 3
      then rewrites the secret and leaves the status alone. */
  lemma {:induction false} WrittenIsTold(cfg: Config, c: Cluster, o: Oracle, d: Cluster, k: Key)
    requires WellFormed(c) && Pass(cfg, c, o, d) && NoFault(o(k)) && InScope(cfg.namespace, k)
    requires k in c.roles && Written(c, d, k)
    ensures k in d.roles
    ensures if c.roles[k].status.observedGeneration == Some(c.roles[k].generation) && k in c.secrets
               && ExpiresFrom(c.secrets[k].data, o(k).now + cfg.refreshLimit)
            then d.roles[k].status == c.roles[k].status
            else Tells(d.roles[k].status, d.secrets[k].data)
  {
    PassAt(cfg, c, o, d, k);
    var s, r := ListedSecret(cfg, c, k), c.roles[k];
    if s.None? {
      WrittenMissing(cfg, c, d, k, r, o(k));
    } else {
      assert IsOwned(r, s.value);
      WrittenOwned(cfg, c, d, k, s.value, r, o(k));
    }
  }

  lemma WrittenMissing(cfg: Config, c: Cluster, d: Cluster, k: Key, r: Role, a: Answers)
    requires RoleAt(c, k) == Some(r) && ListedSecret(cfg, c, k).None? && InScope(cfg.namespace, k) && NoFault(a)
    requires SameRole(c, d, k) && ResultAt(d, k) == Reconcile(cfg, k, SecretAt(c, k), Some(r), a)
    requires Written(c, d, k)
    ensures k !in c.secrets && k in d.roles && Tells(d.roles[k].status, d.secrets[k].data)
  {
    PayloadTells(cfg, r, a.settleAsk.value);
  }

  lemma WrittenOwned(cfg: Config, c: Cluster, d: Cluster, k: Key, s: Secret, r: Role, a: Answers)
    requires RoleAt(c, k) == Some(r) && ListedSecret(cfg, c, k) == Some(s) && IsOwned(r, s) && NoFault(a)
    requires SameRole(c, d, k) && ResultAt(d, k) == Reconcile(cfg, k, Some(s), Some(r), a)
    requires Written(c, d, k)
    ensures k in d.roles
    ensures if r.status.observedGeneration == Some(r.generation) && ExpiresFrom(s.data, a.now + cfg.refreshLimit)
            then d.roles[k].status == r.status
            else Tells(d.roles[k].status, d.secrets[k].data)
  {
    RefreshIff(s.data, a.now, cfg.refreshLimit);
    PayloadTells(cfg, r, a.renewAsk.value);
    PayloadTells(cfg, r, a.settleAsk.value);
  }

  lemma MissingTells(cfg: Config, c: Cluster, d: Cluster, k: Key, r: Role, a: Answers)
    requires RoleAt(c, k) == Some(r) && ListedSecret(cfg, c, k).None? && InScope(cfg.namespace, k) && NoFault(a)
    requires SameRole(c, d, k) && ResultAt(d, k) == Reconcile(cfg, k, SecretAt(c, k), Some(r), a)
    requires k in d.roles && d.roles[k].status != r.status
    ensures k !in c.secrets && ResultAt(d, k) == ReconcileMissing(cfg, r, a)
    ensures d.roles[k].status.observedGeneration == Some(r.generation)
    ensures k in d.secrets && Tells(d.roles[k].status, d.secrets[k].data)
    ensures d.roles[k].status.roleARN.Text? && ResolvesTo(cfg, r.spec.roleReference, d.roles[k].status.roleARN.text)
  {
    PayloadTells(cfg, r, a.settleAsk.value);
  }

  lemma OrphanTells(cfg: Config, c: Cluster, d: Cluster, k: Key, s: Secret, r: Role, a: Answers)
    requires RoleAt(c, k) == Some(r) && ListedSecret(cfg, c, k) == Some(s) && !IsOwned(r, s) && NoFault(a)
    requires SameRole(c, d, k) && ResultAt(d, k) == Reconcile(cfg, k, Some(s), Some(r), a)
    requires k in d.roles && d.roles[k].status != r.status
    ensures k !in d.secrets && Tells(d.roles[k].status, s.data)
    ensures d.roles[k].status.observedGeneration == Some(r.generation)
  {
  }

  lemma OwnedTells(cfg: Config, c: Cluster, d: Cluster, k: Key, s: Secret, r: Role, a: Answers)
    requires RoleAt(c, k) == Some(r) && ListedSecret(cfg, c, k) == Some(s) && IsOwned(r, s) && NoFault(a)
    requires SameRole(c, d, k) && ResultAt(d, k) == Reconcile(cfg, k, Some(s), Some(r), a)
    requires k in d.roles && d.roles[k].status != r.status
    ensures k in d.secrets && Tells(d.roles[k].status, d.secrets[k].data)
    ensures d.roles[k].status.observedGeneration == Some(r.generation)
    ensures d.secrets[k].data != s.data ==>
              d.roles[k].status.roleARN.Text? &&
              ResolvesTo(cfg, r.spec.roleReference, d.roles[k].status.roleARN.text)
  {
    PayloadTells(cfg, r, a.renewAsk.value);
    PayloadTells(cfg, r, a.settleAsk.value);
  }

  /** A payload made for a role reads back as its announced status and as the one derived from it. */
  lemma PayloadTells(cfg: Config, r: Role, i: Issued)
    ensures var data := RolePayload(Resolve(cfg, r.spec.roleReference), i, r.generation);
            && Tells(IssuedStatus(r, Resolve(cfg, r.spec.roleReference), i), data)
            && (StatusDue(r, data).Some? ==> Tells(StatusDue(r, data).value, data))
            && data["role-arn"].Text? && ResolvesTo(cfg, r.spec.roleReference, data["role-arn"].text)
  {
    var data := RolePayload(Resolve(cfg, r.spec.roleReference), i, r.generation);
    assert data["role-arn"] == Blob.Text(Resolve(cfg, r.spec.roleReference));
  }

  // ---------------------------------------------------------------- where one pass is not enough

  /** A role whose name an orphan holds: no fault-free pass converges it, any two do. */
  lemma HeldTakesTwoPasses(cfg: Config, c: Cluster, k: Key)
    requires WellFormed(c) && Generations(c) && InScope(cfg.namespace, k) && HeldByOrphan(cfg, c, k)
    ensures forall o, d :: Pass(cfg, c, o, d) && NoFault(o(k)) ==> !Converged(cfg, d, k)
    ensures forall o1, d, o2, e ::
              Pass(cfg, c, o1, d) && Pass(cfg, d, o2, e) && NoFault(o1(k)) && NoFault(o2(k)) ==> Converged(cfg, e, k)
  {
    forall o, d | Pass(cfg, c, o, d) && NoFault(o(k)) ensures !Converged(cfg, d, k) {
      OnePassConvergesIff(cfg, c, o, d, k);
    }
    forall o1, d, o2, e | Pass(cfg, c, o1, d) && Pass(cfg, d, o2, e) && NoFault(o1(k)) && NoFault(o2(k))
      ensures Converged(cfg, e, k)
    {
      TwoPassConvergesIff(cfg, c, o1, d, o2, e, k);
    }
  }

  /** And there are such roles. */
  lemma OrphanTakesTwoPasses(cfg: Config) returns (c: Cluster, k: Key)
    requires Text.Lacks(cfg.namespace, '/')
    ensures WellFormed(c) && Generations(c) && InScope(cfg.namespace, k) && HeldByOrphan(cfg, c, k)
    ensures forall o, d :: Pass(cfg, c, o, d) && NoFault(o(k)) ==> !Converged(cfg, d, k)
    ensures forall o1, d, o2, e ::
              Pass(cfg, c, o1, d) && Pass(cfg, d, o2, e) && NoFault(o1(k)) && NoFault(o2(k)) ==> Converged(cfg, e, k)
  {
    k := Key(if cfg.namespace == "" then "default" else cfg.namespace, "app");
    var status := Status(None, Blob.Text(""), None);
    var role := Role(k, "zalando.org/v1", "AWSIAMRole", 0, 0, 1, map[], Spec("app", 0), status);
    c := Cluster(map[k := Secret(k, ROLE_OWNER_LABELS, [], map[], 1, 1)], map[k := role], 2);
    HeldTakesTwoPasses(cfg, c, k);
  }
}
