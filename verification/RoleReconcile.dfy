/** What one pass makes of one namespace/name key, stated without loops, snapshots or
    resourceVersions, and the proof that the three-loop pass does exactly this at every key. */
module RoleReconcile {
  import opened Options
  import opened Kube
  import opened Payload
  import opened RolePass

  /** A secret without the numbers the API server assigns. */
  datatype Content = Content(labels: Labels, owners: seq<OwnerRef>, data: Data)

  /** The secret and the role status at a key. */
  datatype Result = Result(secret: Option<Content>, status: Option<Status>)

  function SecretAt(c: Cluster, k: Key): Option<Secret> {
    if k in c.secrets then Some(c.secrets[k]) else None
  }

  function RoleAt(c: Cluster, k: Key): Option<Role> {
    if k in c.roles then Some(c.roles[k]) else None
  }

  function ContentOf(s: Option<Secret>): Option<Content> {
    if s.Some? then Some(Content(s.value.labels, s.value.owners, s.value.data)) else None
  }

  function StatusOf(r: Option<Role>): Option<Status> {
    if r.Some? then Some(r.value.status) else None
  }

  function ResultAt(c: Cluster, k: Key): Result {
    Result(ContentOf(SecretAt(c, k)), StatusOf(RoleAt(c, k)))
  }

  // ---------------------------------------------------------------- the per-key function

  /** Fresh credentials for a role in a secret with the given owners. */
  function FreshContent(cfg: Config, r: Role, owners: seq<OwnerRef>, i: Issued): Content {
    Content(r.labels + ROLE_OWNER_LABELS, owners, RolePayload(Resolve(cfg, r.spec.roleReference), i, r.generation))
  }

  function AnnouncedStatus(cfg: Config, r: Role, i: Issued): Status {
    IssuedStatus(r, Resolve(cfg, r.spec.roleReference), i)
  }

  /** The status when `due` is reported, unless nothing is due or the request has no effect. */
  function Reported(r: Role, due: Option<Status>, f: Fault): Option<Status> {
    if due.Some? && f != Refused then due else Some(r.status)
  }

  /** A role without a secret: create one and announce it. */
  function ReconcileMissing(cfg: Config, r: Role, a: Answers): Result {
    if a.settleAsk.None? || a.settlePut == Refused then Result(None, Some(r.status))
    else
      Result(Some(FreshContent(cfg, r, [RefTo(r)], a.settleAsk.value)),
             if a.settlePut == Clear
             then Reported(r, Some(AnnouncedStatus(cfg, r, a.settleAsk.value)), a.settleReport)
             else Some(r.status))
  }

  /** A role whose name is held by an orphan: the orphan goes (unless the request is refused), the
      role gets no secret in this pass, and its status follows the orphan's snapshot. */
  function ReconcileOrphan(cfg: Config, r: Role, s: Secret, a: Answers): Result {
    var gone := a.drop != Refused;
    var kept := if gone then None else ContentOf(Some(s));
    var g := GenerationOf(s.data);
    if g.None? then Result(kept, Some(r.status))
    else if g.value == r.generation then Result(kept, Reported(r, StatusDue(r, s.data), a.settleReport))
    else if gone then Result(None, Some(r.status))
    else Rewrite(cfg, r, s, a)
  }

  /** Loop 3 on an out-of-date secret that is still as listed. */
  function Rewrite(cfg: Config, r: Role, s: Secret, a: Answers): Result {
    if a.settleAsk.None? || a.settlePut == Refused then Result(ContentOf(Some(s)), Some(r.status))
    else
      var rewritten := FreshContent(cfg, r, s.owners, a.settleAsk.value);
      Result(Some(rewritten),
             if a.settlePut == Clear then Reported(r, StatusDue(r, rewritten.data), a.settleReport) else Some(r.status))
  }

  /** A secret owned by its role: renewed when it expires, else brought up to date. A renewal that
      reached the API server makes every later write from the snapshot stale. */
  function ReconcileOwned(cfg: Config, r: Role, s: Secret, a: Answers): Result {
    var g := GenerationOf(s.data);
    if NeedsRefresh(s.data, a.now, cfg.refreshLimit) && a.renewAsk.Some? && a.renewPut != Refused then
      var renewed := Some(FreshContent(cfg, r, s.owners, a.renewAsk.value));
      var announced := a.renewPut == Clear && a.renewReport != Refused;
      Result(renewed,
             if announced then Some(AnnouncedStatus(cfg, r, a.renewAsk.value))
             else if g == Some(r.generation) then Reported(r, StatusDue(r, s.data), a.settleReport)
             else Some(r.status))
    else if g.None? then Result(ContentOf(Some(s)), Some(r.status))
    else if g.value == r.generation then
      Result(ContentOf(Some(s)), Reported(r, StatusDue(r, s.data), a.settleReport))
    else Rewrite(cfg, r, s, a)
  }

  /** What a pass makes of a key. */
  function Reconcile(cfg: Config, k: Key, secret: Option<Secret>, role: Option<Role>, a: Answers): Result {
    if !InScope(cfg.namespace, k) then Result(ContentOf(secret), StatusOf(role))
    else
      match (secret, role)
      case (None, None) => Result(None, None)
      case (None, Some(r)) => ReconcileMissing(cfg, r, a)
      case (Some(s), None) =>
        Result(if Managed(s) && a.drop != Refused then None else ContentOf(secret), None)
      case (Some(s), Some(r)) =>
        if !Managed(s) then Result(ContentOf(secret), StatusOf(role))
        else if IsOwned(r, s) then ReconcileOwned(cfg, r, s, a)
        else ReconcileOrphan(cfg, r, s, a)
  }

  /** Carries the labels AWSIAMRoleController selects by. */
  predicate Managed(s: Secret) {
    Selected(s.labels, ROLE_OWNER_LABELS)
  }

  // ---------------------------------------------------------------- one key through the loops

  /** The lists a pass reads. */
  ghost predicate Listings(cfg: Config, c: Cluster, secrets: seq<Secret>, roles: seq<Role>) {
    SecretListing(c, cfg.namespace, ROLE_OWNER_LABELS, secrets) && RoleListing(c, cfg.namespace, roles)
  }

  /** The listed secret and role at a key. */
  function ListedSecret(cfg: Config, c: Cluster, k: Key): Option<Secret> {
    if k in c.secrets && InScope(cfg.namespace, k) && Managed(c.secrets[k]) then Some(c.secrets[k]) else None
  }

  function ListedRole(cfg: Config, c: Cluster, k: Key): Option<Role> {
    if k in c.roles && InScope(cfg.namespace, k) then Some(c.roles[k]) else None
  }

  lemma FindsListedSecret(cfg: Config, c: Cluster, secrets: seq<Secret>, k: Key)
    requires WellFormed(c) && SecretListing(c, cfg.namespace, ROLE_OWNER_LABELS, secrets)
    ensures FindSecret(secrets, k) == ListedSecret(cfg, c, k)
  {
    FindSecretIff(secrets, k);
    assert UniqueSecrets(secrets);
    var found := FindSecret(secrets, k);
    if found.Some? {
      assert SecretIsListed(c, cfg.namespace, ROLE_OWNER_LABELS, found.value);
    }
  }

  lemma FindsListedRole(cfg: Config, c: Cluster, roles: seq<Role>, k: Key)
    requires WellFormed(c) && RoleListing(c, cfg.namespace, roles)
    ensures FindRole(roles, k) == ListedRole(cfg, c, k)
  {
    FindRoleIff(roles, k);
    assert UniqueRoles(roles);
  }

  lemma PlanFits(cfg: Config, c: Cluster, secrets: seq<Secret>, roles: seq<Role>)
    requires WellFormed(c) && Listings(cfg, c, secrets, roles)
    ensures TasksFit(Renewals(secrets, roles), c.next)
    ensures TasksFit(Drops(Orphans(secrets, roles)), c.next)
    ensures TasksFit(Settlements(roles, secrets), c.next)
  {
    RenewalsMembers(secrets, roles);
    OrphansMembers(secrets, roles);
    DropsMembers(Orphans(secrets, roles));
    SettlementsMembers(roles, secrets);
    forall s | s in secrets ensures SecretFits(s, s.key, c.next) {
      assert SecretIsListed(c, cfg.namespace, ROLE_OWNER_LABELS, s);
    }
    forall r | r in roles ensures RoleFits(r, r.key, c.next) {
      assert c.roles[r.key] == r;
    }
    forall t | t in Renewals(secrets, roles) ensures TaskFits(t, c.next) {
      FindRoleIff(roles, t.secret.key);
    }
    forall t | t in Settlements(roles, secrets) ensures TaskFits(t, c.next) {
      FindSecretIff(secrets, t.role.key);
    }
    forall t | t in Drops(Orphans(secrets, roles)) ensures TaskFits(t, c.next) {
      assert t.Drop? && t.secret in Orphans(secrets, roles);
    }
  }

  /** Where the cluster stands at a key after a loop: the loop's one task there, or nothing. */
  ghost predicate Through(cfg: Config, before: Cluster, mid: Cluster, after: Cluster, k: Key, t: Option<Task>,
          a: Answers) {
    && WellFormed(mid) && mid.next >= before.next && SameCell(mid, before, k) && WellFormed(after)
    && (match t
        case None => SameCell(after, mid, k) && after.next >= mid.next
        case Some(task) =>
          SameCell(after, ExecTask(cfg, mid, task, a), k) && after.next >= ExecTask(cfg, mid, task, a).next)
  }

  lemma LoopAt(cfg: Config, c: Cluster, tasks: seq<Task>, o: Oracle, k: Key, t: Option<Task>) returns (mid: Cluster)
    requires WellFormed(c) && TasksFit(tasks, c.next) && DistinctKeys(tasks)
    requires t.Some? ==> t.value in tasks && KeyOf(t.value) == k
    requires t.None? ==> NoneAbout(tasks, k)
    ensures Through(cfg, c, mid, ExecAll(cfg, c, tasks, o), k, t, o(k))
  {
    if t.Some? {
      var i :| 0 <= i < |tasks| && tasks[i] == t.value;
      mid := SegmentAt(cfg, c, tasks, o, i);
    } else {
      mid := c;
      ExecFrame(cfg, c, tasks, o, k);
    }
  }

  /** The task of each loop at a key. */
  function RenewTask(s: Option<Secret>, r: Option<Role>): Option<Task> {
    if s.Some? && r.Some? && IsOwned(r.value, s.value) then Some(Renew(s.value, r.value)) else None
  }

  function DropTask(s: Option<Secret>, r: Option<Role>): Option<Task> {
    if s.Some? && !(r.Some? && IsOwned(r.value, s.value)) then Some(Drop(s.value)) else None
  }

  function SettleTask(s: Option<Secret>, r: Option<Role>): Option<Task> {
    if r.Some? && HasWork(r.value, s) then Some(Settle(r.value, s)) else None
  }

  lemma PlanAt(cfg: Config, c: Cluster, secrets: seq<Secret>, roles: seq<Role>, k: Key)
    requires WellFormed(c) && Listings(cfg, c, secrets, roles)
    ensures var s, r := ListedSecret(cfg, c, k), ListedRole(cfg, c, k);
            && TaskIs(Renewals(secrets, roles), k, RenewTask(s, r))
            && TaskIs(Drops(Orphans(secrets, roles)), k, DropTask(s, r))
            && TaskIs(Settlements(roles, secrets), k, SettleTask(s, r))
  {
    FindsListedSecret(cfg, c, secrets, k);
    FindsListedRole(cfg, c, roles, k);
    assert UniqueSecrets(secrets) && UniqueRoles(roles);
    RenewalsAt(secrets, roles, k);
    DropsAt(secrets, roles, k);
    SettlementsAt(secrets, roles, k);
  }

  /** A loop meets the key once, with this task, or not at all. */
  ghost predicate TaskIs(tasks: seq<Task>, k: Key, t: Option<Task>) {
    && DistinctKeys(tasks)
    && (t.Some? ==> t.value in tasks && KeyOf(t.value) == k)
    && (t.None? ==> NoneAbout(tasks, k))
  }

  lemma RenewalsAt(secrets: seq<Secret>, roles: seq<Role>, k: Key)
    requires UniqueSecrets(secrets) && UniqueRoles(roles)
    ensures TaskIs(Renewals(secrets, roles), k, RenewTask(FindSecret(secrets, k), FindRole(roles, k)))
  {
    RenewalsMembers(secrets, roles);
    FindSecretIff(secrets, k);
    FindRoleIff(roles, k);
  }

  lemma DropsAt(secrets: seq<Secret>, roles: seq<Role>, k: Key)
    requires UniqueSecrets(secrets) && UniqueRoles(roles)
    ensures TaskIs(Drops(Orphans(secrets, roles)), k, DropTask(FindSecret(secrets, k), FindRole(roles, k)))
  {
    var orphans := Orphans(secrets, roles);
    OrphansMembers(secrets, roles);
    DropsMembers(orphans);
    FindSecretIff(secrets, k);
    FindRoleIff(roles, k);
    var t := DropTask(FindSecret(secrets, k), FindRole(roles, k));
    if t.Some? {
      var i :| 0 <= i < |orphans| && orphans[i] == t.value.secret;
      assert Drops(orphans)[i] == t.value;
    }
  }

  lemma SettlementsAt(secrets: seq<Secret>, roles: seq<Role>, k: Key)
    requires UniqueSecrets(secrets) && UniqueRoles(roles)
    ensures TaskIs(Settlements(roles, secrets), k, SettleTask(FindSecret(secrets, k), FindRole(roles, k)))
  {
    SettlementsMembers(roles, secrets);
    FindSecretIff(secrets, k);
    FindRoleIff(roles, k);
  }

  // ---------------------------------------------------------------- the theorem

  /** The role at a key is the same resource; only its status and version may have moved. */
  ghost predicate SameRole(c: Cluster, d: Cluster, k: Key) {
    && (k in c.roles <==> k in d.roles)
    && (k in c.roles ==>
          d.roles[k] == c.roles[k].(status := d.roles[k].status, resourceVersion := d.roles[k].resourceVersion))
  }

  /** The pass as a whole at one key, for any listing order and any answers elsewhere. */
  lemma PassRefinesReconcile(cfg: Config, c: Cluster, secrets: seq<Secret>, roles: seq<Role>, o: Oracle, k: Key)
    requires WellFormed(c) && Listings(cfg, c, secrets, roles)
    ensures var d := ExecAll(cfg, c, Plan(secrets, roles), o);
            && ResultAt(d, k) == Reconcile(cfg, k, SecretAt(c, k), RoleAt(c, k), o(k))
            && SameRole(c, d, k)
            && WellFormed(d)
  {
    var s, r := ListedSecret(cfg, c, k), ListedRole(cfg, c, k);
    var renewals, drops, settlements := Renewals(secrets, roles), Drops(Orphans(secrets, roles)), Settlements(roles,
            secrets);
    PlanFits(cfg, c, secrets, roles);
    PlanAt(cfg, c, secrets, roles, k);
    ExecAppend(cfg, c, renewals + drops, settlements, o);
    ExecAppend(cfg, c, renewals, drops, o);
    var m1 := LoopAt(cfg, c, renewals, o, k, RenewTask(s, r));
    var c1 := ExecAll(cfg, c, renewals, o);
    NextGrows(cfg, c, renewals, o);
    TasksFitLater(drops, c.next, c1.next);
    TasksFitLater(settlements, c.next, c1.next);
    var m2 := LoopAt(cfg, c1, drops, o, k, DropTask(s, r));
    var c2 := ExecAll(cfg, c1, drops, o);
    NextGrows(cfg, c1, drops, o);
    TasksFitLater(settlements, c1.next, c2.next);
    var m3 := LoopAt(cfg, c2, settlements, o, k, SettleTask(s, r));
    var d := ExecAll(cfg, c2, settlements, o);
    KeyThroughLoops(cfg, c, m1, c1, m2, c2, m3, d, k, o(k));
  }

  lemma NextGrows(cfg: Config, c: Cluster, tasks: seq<Task>, o: Oracle)
    requires WellFormed(c) && TasksFit(tasks, c.next)
    ensures ExecAll(cfg, c, tasks, o).next >= c.next
  {
    ExecFrame(cfg, c, tasks, o, Key("", ""));
  }

  lemma KeyThroughLoops(cfg: Config, c: Cluster, m1: Cluster, c1: Cluster, m2: Cluster, c2: Cluster, m3: Cluster,
          d: Cluster, k: Key, a: Answers)
    requires WellFormed(c)
    requires Through(cfg, c, m1, c1, k, RenewTask(ListedSecret(cfg, c, k), ListedRole(cfg, c, k)), a)
    requires Through(cfg, c1, m2, c2, k, DropTask(ListedSecret(cfg, c, k), ListedRole(cfg, c, k)), a)
    requires Through(cfg, c2, m3, d, k, SettleTask(ListedSecret(cfg, c, k), ListedRole(cfg, c, k)), a)
    ensures ResultAt(d, k) == Reconcile(cfg, k, SecretAt(c, k), RoleAt(c, k), a)
    ensures SameRole(c, d, k)
  {
    var s, r := ListedSecret(cfg, c, k), ListedRole(cfg, c, k);
    if r.None? {
      if s.Some? {
        assert SameCell(c2, ExecTask(cfg, m2, Drop(s.value), a), k);
      }
    } else if s.None? {
      MissingCase(cfg, c2, m3, d, k, r.value, a);
    } else if IsOwned(r.value, s.value) {
      OwnedCase(cfg, c, m1, c1, m2, c2, m3, d, k, s.value, r.value, a);
    } else {
      OrphanCase(cfg, c, m2, c2, m3, d, k, s.value, r.value, a);
    }
  }

  /** Loop 3 on a role without a listed secret; an unlisted one blocks the creation. */
  lemma MissingCase(cfg: Config, c: Cluster, mid: Cluster, d: Cluster, k: Key, r: Role, a: Answers)
    requires Through(cfg, c, mid, d, k, Some(Settle(r, None)), a)
    requires r.key == k && RoleAt(c, k) == Some(r)
    ensures ResultAt(d, k) == if k in c.secrets then ResultAt(c, k) else ReconcileMissing(cfg, r, a)
    ensures SameRole(c, d, k)
  {
    CreateCell(cfg, mid, r, a);
    assert SameCell(d, ExecCreate(cfg, mid, r, a), k);
  }

  lemma CreateCell(cfg: Config, c: Cluster, r: Role, a: Answers)
    requires RoleAt(c, r.key) == Some(r)
    ensures ResultAt(ExecCreate(cfg, c, r, a), r.key) ==
            if r.key in c.secrets then ResultAt(c, r.key) else ReconcileMissing(cfg, r, a)
    ensures SameRole(c, ExecCreate(cfg, c, r, a), r.key)
  {
    if a.settleAsk.Some? {
      var arn, i := Resolve(cfg, r.spec.roleReference), a.settleAsk.value;
      var put := Answered(a.settlePut, c, CreateSecret(c, NewSecret(r, arn, i)));
      assert RoleAt(put.0, r.key) == Some(r);
    }
  }

  /** Reporting a due status on a role stored as listed. */
  lemma ReportCell(c: Cluster, r: Role, data: Data, f: Fault)
    requires RoleAt(c, r.key) == Some(r)
    ensures StatusOf(RoleAt(ReportDue(c, r, data, f), r.key)) == Reported(r, StatusDue(r, data), f)
    ensures SecretAt(ReportDue(c, r, data, f), r.key) == SecretAt(c, r.key)
    ensures SameRole(c, ReportDue(c, r, data, f), r.key)
  {
  }

  /** Loop 3 on a listed secret that is stored exactly as listed. */
  lemma SettleUntouched(cfg: Config, c: Cluster, mid: Cluster, d: Cluster, k: Key, r: Role, s: Secret, a: Answers)
    requires r.key == k && s.key == k && RoleAt(c, k) == Some(r) && SecretAt(c, k) == Some(s)
    requires Through(cfg, c, mid, d, k, SettleTask(Some(s), Some(r)), a)
    ensures var g := GenerationOf(s.data);
            ResultAt(d, k) ==
            if g.None? then ResultAt(c, k)
            else if g.value == r.generation then
              Result(ContentOf(Some(s)), Reported(r, StatusDue(r, s.data), a.settleReport))
            else Rewrite(cfg, r, s, a)
    ensures SameRole(c, d, k)
  {
    var g := GenerationOf(s.data);
    if HasWork(r, Some(s)) {
      assert SameCell(d, ExecUpdate(cfg, mid, r, s, a), k);
      if g.value != r.generation {
        RewriteCell(cfg, mid, r, s, a);
      } else {
        ReportCell(mid, r, s.data, a.settleReport);
      }
    }
  }

  lemma RewriteCell(cfg: Config, c: Cluster, r: Role, s: Secret, a: Answers)
    requires r.key == s.key && RoleAt(c, s.key) == Some(r) && SecretAt(c, s.key) == Some(s)
    requires GenerationOf(s.data).Some? && GenerationOf(s.data).value != r.generation
    ensures ResultAt(ExecUpdate(cfg, c, r, s, a), s.key) == Rewrite(cfg, r, s, a)
    ensures SameRole(c, ExecUpdate(cfg, c, r, s, a), s.key)
  {
    if a.settleAsk.Some? {
      var s' := Rewritten(s, r, Resolve(cfg, r.spec.roleReference), a.settleAsk.value);
      var put := Answered(a.settlePut, c, UpdateSecret(c, s'));
      assert RoleAt(put.0, s.key) == Some(r);
      ReportCell(put.0, r, s'.data, a.settleReport);
    }
  }

  /** Loop 3 on a listed secret that has gone or changed since: only a status can still be written,
      and only when the role is as listed. */
  lemma SettleStale(cfg: Config, c: Cluster, mid: Cluster, d: Cluster, k: Key, r: Role, s: Secret, a: Answers)
    requires r.key == k && s.key == k && k in c.roles
    requires k in c.secrets ==> c.secrets[k].resourceVersion != s.resourceVersion
    requires c.roles[k] == r || c.roles[k].resourceVersion != r.resourceVersion
    requires Through(cfg, c, mid, d, k, SettleTask(Some(s), Some(r)), a)
    ensures ContentOf(SecretAt(d, k)) == ContentOf(SecretAt(c, k))
    ensures StatusOf(RoleAt(d, k)) ==
            if c.roles[k] == r && GenerationOf(s.data) == Some(r.generation)
            then Reported(r, StatusDue(r, s.data), a.settleReport)
            else StatusOf(RoleAt(c, k))
    ensures SameRole(c, d, k)
  {
    if HasWork(r, Some(s)) {
      assert SameCell(d, ExecUpdate(cfg, mid, r, s, a), k);
      if GenerationOf(s.data).value == r.generation {
        if c.roles[k] == r {
          ReportCell(mid, r, s.data, a.settleReport);
        } else {
          assert ReportDue(mid, r, s.data, a.settleReport) == mid;
        }
      } else {
        StaleRewrite(cfg, mid, r, s, a);
      }
    }
  }

  lemma StaleRewrite(cfg: Config, c: Cluster, r: Role, s: Secret, a: Answers)
    requires s.key in c.secrets ==> c.secrets[s.key].resourceVersion != s.resourceVersion
    requires GenerationOf(s.data).Some? && GenerationOf(s.data).value != r.generation
    ensures ExecUpdate(cfg, c, r, s, a) == c
  {
    if a.settleAsk.Some? {
      var s' := Rewritten(s, r, Resolve(cfg, r.spec.roleReference), a.settleAsk.value);
      assert Answered(a.settlePut, c, UpdateSecret(c, s')) == (c, false);
    }
  }

  lemma OrphanCase(cfg: Config, c: Cluster, m2: Cluster, c2: Cluster, m3: Cluster, d: Cluster, k: Key, s: Secret,
          r: Role, a: Answers)
    requires r.key == k && s.key == k && RoleAt(c, k) == Some(r) && SecretAt(c, k) == Some(s) && SameCell(m2, c, k)
    requires SameCell(c2, ExecTask(cfg, m2, Drop(s), a), k)
    requires Through(cfg, c2, m3, d, k, SettleTask(Some(s), Some(r)), a)
    ensures ResultAt(d, k) == ReconcileOrphan(cfg, r, s, a)
    ensures SameRole(c, d, k)
  {
    if a.drop != Refused {
      SettleStale(cfg, c2, m3, d, k, r, s, a);
    } else {
      SettleUntouched(cfg, c2, m3, d, k, r, s, a);
    }
  }

  lemma OwnedCase(cfg: Config, c: Cluster, m1: Cluster, c1: Cluster, m2: Cluster, c2: Cluster, m3: Cluster,
          d: Cluster, k: Key, s: Secret, r: Role, a: Answers)
    requires WellFormed(c) && RoleAt(c, k) == Some(r) && SecretAt(c, k) == Some(s)
    requires Through(cfg, c, m1, c1, k, Some(Renew(s, r)), a)
    requires Through(cfg, c1, m2, c2, k, None, a)
    requires Through(cfg, c2, m3, d, k, SettleTask(Some(s), Some(r)), a)
    ensures ResultAt(d, k) == ReconcileOwned(cfg, r, s, a)
    ensures SameRole(c, d, k)
  {
    assert s.resourceVersion < m1.next && r.resourceVersion < m1.next;
    assert SameCell(c1, ExecRenew(cfg, m1, s, r, a), k) && SameCell(c2, c1, k);
    RenewCell(cfg, m1, r, s, a);
    if NeedsRefresh(s.data, a.now, cfg.refreshLimit) && a.renewAsk.Some? && a.renewPut != Refused {
      SettleStale(cfg, c2, m3, d, k, r, s, a);
    } else {
      SettleUntouched(cfg, c2, m3, d, k, r, s, a);
    }
  }

  /** Loop 1 on a secret stored as listed: nothing, or a renewal under new versions. */
  lemma RenewCell(cfg: Config, c: Cluster, r: Role, s: Secret, a: Answers)
    requires WellFormed(c) && r.key == s.key && RoleAt(c, s.key) == Some(r) && SecretAt(c, s.key) == Some(s)
    ensures var d := ExecRenew(cfg, c, s, r, a);
            if NeedsRefresh(s.data, a.now, cfg.refreshLimit) && a.renewAsk.Some? && a.renewPut != Refused then
              && s.key in d.secrets && d.secrets[s.key].resourceVersion == c.next
              && ContentOf(SecretAt(d, s.key)) == Some(FreshContent(cfg, r, s.owners, a.renewAsk.value))
              && s.key in d.roles
              && (if a.renewPut == Clear && a.renewReport != Refused
                  then d.roles[s.key]
                       == r.(status := AnnouncedStatus(cfg, r, a.renewAsk.value), resourceVersion := c.next + 1)
                  else d.roles[s.key] == r)
            else SameCell(d, c, s.key)
  {
  }
}
