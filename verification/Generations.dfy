/** What the recorded generations mean, in every reachable state of both controllers and everybody
    else: they are ordered, and where one is current the credentials are for the right role. */
module Generations {
  import opened Options
  import opened Decimal
  import opened Kube
  import opened Payload
  import opened Events
  import opened RolePass
  import opened Worlds
  import opened Separation
  import RM = RoleMachine
  import RoleTrace

  // ---------------------------------------------------------------- the invariant

  ghost predicate RoleSound(r: Role) {
    0 <= Observed(r) <= r.generation && IsInt64(r.generation) && Schema(r.spec)
  }

  ghost predicate RolesSound(c: Cluster) {
    forall k :: k in c.roles ==> RoleSound(c.roles[k])
  }

  /** The generation a secret records lies between the one its role reports and the role's own; where
      it is the role's own, the stored ARN is what the role's present reference resolves to. */
  ghost predicate Agrees(cfg: Setup, r: Role, data: Data) {
    && GenerationOf(data).Some?
    && Observed(r) <= GenerationOf(data).value <= r.generation
    && (GenerationOf(data).value == r.generation ==> NamesRole(cfg, r, data))
  }

  ghost predicate NamesRole(cfg: Setup, r: Role, data: Data) {
    ROLE_ARN_KEY in data && data[ROLE_ARN_KEY] == Text(Resolve(cfg.role, r.spec.roleReference))
  }

  /** A secret of the role side, under the name of a role that owns it. */
  ghost predicate OwnedBy(c: Cluster, r: Role) {
    r.key in c.secrets && Whose(c.secrets[r.key]) == RoleSide && IsOwned(r, c.secrets[r.key])
  }

  /** With `q` what is said includes the secrets, without it the roles only. */
  ghost predicate ClusterSound(cfg: Setup, q: bool, c: Cluster) {
    && RolesSound(c)
    && (q ==> forall k :: k in c.roles && c.roles[k].key == k && OwnedBy(c, c.roles[k]) ==>
          Agrees(cfg, c.roles[k], c.secrets[k].data))
  }

  /** How a copy of a role relates to the role that now has its name. */
  ghost predicate Tracks(now: Role, r: Role) {
    && (now.uid == r.uid ==>
          && RefTo(now) == RefTo(r) && Observed(now) <= r.generation <= now.generation
          && (r.generation == now.generation ==> now.spec == r.spec))
    && (now.resourceVersion == r.resourceVersion ==> now == r)
  }

  ghost predicate RoleCopy(c: Cluster, r: Role) {
    RoleFits(r, r.key, c.next) && RoleSound(r) && (r.key in c.roles ==> Tracks(c.roles[r.key], r))
  }

  /** A role that has replaced this one does not own the listed secret. */
  ghost predicate Strangers(c: Cluster, r: Role, s: Secret) {
    r.key in c.roles && c.roles[r.key].uid != r.uid ==> !IsOwned(c.roles[r.key], s)
  }

  ghost predicate Recorded(q: bool, c: Cluster, r: Role) {
    q && OwnedBy(c, r) ==> GenerationOf(c.secrets[r.key].data) == Some(r.generation)
  }

  ghost predicate TaskAgrees(q: bool, c: Cluster, t: Task) {
    match t
    case Renew(s, r) => r.key == s.key && RoleCopy(c, r) && Strangers(c, r, s)
    case Drop(_) => true
    case Settle(r, held) =>
      && RoleCopy(c, r)
      && (held.Some? ==>
            && held.value.key == r.key && Strangers(c, r, held.value)
            && (GenerationOf(held.value.data) == Some(r.generation) ==> Recorded(q, c, r)))
  }

  ghost predicate StageAgrees(cfg: Setup, q: bool, c: Cluster, t: Task, stage: RM.Stage) {
    match stage
    case Holding(arn, _) => !t.Drop? && arn == Resolve(cfg.role, t.role.spec.roleReference)
    case Reporting(st) => !t.Drop? && st.observedGeneration == Some(t.role.generation) && Recorded(q, c, t.role)
    case _ => true
  }

  ghost predicate ForOneRole(t: Task, t': Task) {
    !t.Drop? && !t'.Drop? && KeyOf(t) == KeyOf(t') ==> t.role == t'.role
  }

  /** Two tasks under one name are for one role. */
  ghost predicate Paired(tasks: seq<Task>) {
    forall i, j :: 0 <= i < |tasks| && 0 <= j < |tasks| ==> ForOneRole(tasks[i], tasks[j])
  }

  ghost predicate TasksAgree(q: bool, c: Cluster, tasks: seq<Task>) {
    forall i :: 0 <= i < |tasks| ==> TaskAgrees(q, c, tasks[i])
  }

  ghost predicate LocalAgrees(cfg: Setup, q: bool, c: Cluster, a: RM.Local) {
    a.Running? ==>
      |a.tasks| > 0 && Paired(a.tasks) && TasksAgree(q, c, a.tasks) && StageAgrees(cfg, q, c, a.tasks[0], a.stage)
  }

  ghost predicate InOrder(cfg: Setup, q: bool, w: World) {
    Inv(w) && ClusterSound(cfg, q, w.c) && LocalAgrees(cfg, q, w.c, w.a)
  }

  // ---------------------------------------------------------------- when others move

  /** What may have become of a role between two states, by anyone but the role side. */
  ghost predicate Moved(r: Role, r': Role, next: nat) {
    r' == r ||
    (&& RefTo(r') == RefTo(r) && r'.key == r.key && r'.resourceVersion >= next
     && Observed(r') == Observed(r) && r.generation <= r'.generation
     && (r.generation == r'.generation ==> r'.spec == r.spec))
  }

  ghost predicate Appeared(r: Role, next: nat) {
    r.uid >= next && r.resourceVersion >= next
  }

  ghost predicate RolesMove(c: Cluster, d: Cluster) {
    forall k :: k in d.roles ==>
      RoleSound(d.roles[k]) &&
      if k in c.roles then Moved(c.roles[k], d.roles[k], c.next) else Appeared(d.roles[k], c.next)
  }

  lemma RoleCopyStable(c: Cluster, d: Cluster, r: Role)
    requires RoleCopy(c, r) && RolesMove(c, d) && d.next >= c.next
    ensures RoleCopy(d, r)
  {
  }

  lemma StrangersStable(c: Cluster, d: Cluster, r: Role, s: Secret)
    requires Strangers(c, r, s) && RolesMove(c, d) && OwnersFit(s.owners, c.next) && r.uid < c.next
    ensures Strangers(d, r, s)
  {
  }

  lemma OwnedByStable(who: Actor, c: Cluster, d: Cluster, r: Role)
    requires Behaves(who, c, d) && who != RoleSide
    ensures OwnedBy(d, r) <==> OwnedBy(c, r)
    ensures OwnedBy(c, r) ==> c.secrets[r.key] == d.secrets[r.key]
  {
    assert r.key in c.secrets ==> Unchanged(c, d, r.key) || Whose(c.secrets[r.key]) == who;
    assert r.key in d.secrets ==> Unchanged(c, d, r.key) || NewFrom(who, d.secrets[r.key], c.next);
  }

  lemma TaskAgreesStable(q: bool, who: Actor, c: Cluster, d: Cluster, t: Task, due: bool)
    requires Behaves(who, c, d) && who != RoleSide && RolesMove(c, d)
    requires TaskSound(c, t, due) && TaskAgrees(q, c, t)
    ensures TaskAgrees(q, d, t)
  {
    match t
    case Renew(s, r) =>
      RoleCopyStable(c, d, r);
      StrangersStable(c, d, r, s);
    case Drop(_) =>
    case Settle(r, held) =>
      RoleCopyStable(c, d, r);
      OwnedByStable(who, c, d, r);
      if held.Some? {
        StrangersStable(c, d, r, held.value);
      }
  }

  lemma LocalStable(cfg: Setup, q: bool, who: Actor, c: Cluster, d: Cluster, a: RM.Local)
    requires Behaves(who, c, d) && who != RoleSide && RolesMove(c, d)
    requires RoleLocal(c, a) && LocalAgrees(cfg, q, c, a)
    ensures LocalAgrees(cfg, q, d, a)
  {
    if a.Running? {
      forall i | 0 <= i < |a.tasks| ensures TaskAgrees(q, d, a.tasks[i]) {
        assert i > 0 ==> a.tasks[1..][i - 1] == a.tasks[i];
        TaskAgreesStable(q, who, c, d, a.tasks[i], i > 0 || !a.stage.Reporting?);
      }
      if a.stage.Reporting? {
        OwnedByStable(who, c, d, a.tasks[0].role);
      }
    }
  }

  /** A role that has moved still agrees with its secret; one that has appeared has none yet. */
  lemma ClusterStable(cfg: Setup, q: bool, who: Actor, c: Cluster, d: Cluster)
    requires Behaves(who, c, d) && who != RoleSide && RolesMove(c, d) && WellFormed(c) && WellFormed(d)
    requires ClusterSound(cfg, q, c)
    ensures ClusterSound(cfg, q, d)
  {
    forall k | q && k in d.roles && OwnedBy(d, d.roles[k])
      ensures Agrees(cfg, d.roles[k], d.secrets[k].data)
    {
      assert RoleFits(d.roles[k], k, d.next);
      OwnedByStable(who, c, d, d.roles[k]);
      assert SecretFits(c.secrets[k], k, c.next);
      if k in c.roles {
        assert RoleFits(c.roles[k], k, c.next);
        assert Moved(c.roles[k], d.roles[k], c.next);
        assert OwnedBy(c, c.roles[k]);
      }
    }
  }

  lemma OthersMove(cfg: Setup, q: bool, w: World, act: Action)
    requires InOrder(cfg, q, w) && Enabled(cfg, w, act) && !act.Request?
    ensures RolesMove(w.c, Next(cfg, w, act).c)
  {
  }

  lemma StoreMoves(cfg: Setup, q: bool, w: World, e: Event, f: Fault)
    requires InOrder(cfg, q, w) && Enabled(cfg, w, Request(StoreSide, e, f))
    ensures RolesMove(w.c, After(w.c, e, f))
  {
    assert !e.StatusPut?;
  }

  // ---------------------------------------------------------------- when the role side writes a secret

  /** A write in the course of a task touches the secret of its name only, and leaves it removed, as
      it was, or with a payload made for the task's role. */
  ghost predicate Wrote(cfg: Setup, c: Cluster, d: Cluster, t: Task) {
    && d.roles == c.roles && d.next >= c.next
    && (forall j :: j != KeyOf(t) ==>
          (j in c.secrets <==> j in d.secrets) && (j in c.secrets ==> c.secrets[j] == d.secrets[j]))
    && (KeyOf(t) in d.secrets ==>
          Unchanged(c, d, KeyOf(t)) || (!t.Drop? && PaidFor(cfg, c, d.secrets[KeyOf(t)], t.role)))
  }

  ghost predicate PaidFor(cfg: Setup, c: Cluster, s: Secret, r: Role) {
    GenerationOf(s.data) == Some(r.generation) && NamesRole(cfg, r, s.data) && Strangers(c, r, s)
  }

  lemma WroteCluster(cfg: Setup, q: bool, c: Cluster, d: Cluster, t: Task)
    requires Wrote(cfg, c, d, t) && ClusterSound(cfg, q, c)
    requires !t.Drop? ==> RoleCopy(c, t.role) && t.role.key == KeyOf(t)
    ensures ClusterSound(cfg, q, d)
  {
    forall k | q && k in d.roles && d.roles[k].key == k && OwnedBy(d, d.roles[k])
      ensures Agrees(cfg, d.roles[k], d.secrets[k].data)
    {
      if k != KeyOf(t) || Unchanged(c, d, k) {
        assert OwnedBy(c, c.roles[k]);
      } else {
        assert Tracks(c.roles[k], t.role) && Strangers(c, t.role, d.secrets[k]);
      }
    }
  }

  lemma WroteRecorded(cfg: Setup, q: bool, c: Cluster, d: Cluster, t: Task, r: Role)
    requires Wrote(cfg, c, d, t) && Recorded(q, c, r)
    requires r.key == KeyOf(t) ==> t.Drop? || t.role == r
    ensures Recorded(q, d, r)
  {
    if OwnedBy(d, r) && (r.key != KeyOf(t) || Unchanged(c, d, r.key)) {
      assert OwnedBy(c, r);
    }
  }

  lemma WroteTask(cfg: Setup, q: bool, c: Cluster, d: Cluster, t: Task, t': Task)
    requires Wrote(cfg, c, d, t) && ForOneRole(t, t') && TaskAgrees(q, c, t')
    ensures TaskAgrees(q, d, t')
  {
    match t'
    case Renew(s, r) =>
    case Drop(_) =>
    case Settle(r, held) =>
      if held.Some? && GenerationOf(held.value.data) == Some(r.generation) {
        WroteRecorded(cfg, q, c, d, t, r);
      }
  }

  lemma PutWrote(cfg: Setup, q: bool, c: Cluster, t: Task, s: Secret, i: Issued, ok: bool, f: Fault)
    requires WellFormed(c) && TaskAgrees(q, c, t)
    requires (t.Renew? && s.owners == t.secret.owners) || (t.Settle? && t.held.Some? && s.owners == t.held.value.owners)
    requires s.key == KeyOf(t)
    requires s.data == RolePayload(Resolve(cfg.role, t.role.spec.roleReference), i, t.role.generation)
    ensures Wrote(cfg, c, After(c, SecretPut(s, ok), f), t)
  {
    GenerationReadsBack(Resolve(cfg.role, t.role.spec.roleReference), i, t.role.generation);
    assert Strangers(c, t.role, s);
  }

  lemma MadeWrote(cfg: Setup, q: bool, c: Cluster, t: Task, s: Secret, i: Issued, ok: bool, f: Fault)
    requires WellFormed(c) && TaskAgrees(q, c, t) && t.Settle? && s.owners == [RefTo(t.role)]
    requires s.key == KeyOf(t)
    requires s.data == RolePayload(Resolve(cfg.role, t.role.spec.roleReference), i, t.role.generation)
    ensures Wrote(cfg, c, After(c, SecretMade(s, ok), f), t)
  {
    GenerationReadsBack(Resolve(cfg.role, t.role.spec.roleReference), i, t.role.generation);
    NewIsStrange(c, t.role, s);
  }

  /** What each request in the course of a task writes. */
  lemma EventWrote(cfg: Setup, q: bool, c: Cluster, tasks: seq<Task>, stage: RM.Stage, e: Event, f: Fault)
    requires WellFormed(c) && RoleLocal(c, RM.Running(tasks, stage)) && LocalAgrees(cfg, q, c, RM.Running(tasks, stage))
    requires RM.StepTask(cfg.role, tasks, stage, e).Some? && !e.StatusPut?
    ensures Wrote(cfg, c, After(c, e, f), tasks[0])
  {
    var t := tasks[0];
    assert TaskAgrees(q, c, t);
    match e
    case SecretPut(s, ok) => PutWrote(cfg, q, c, t, s, stage.issued, ok, f);
    case SecretMade(s, ok) => MadeWrote(cfg, q, c, t, s, stage.issued, ok, f);
    case _ =>
  }

  lemma NewIsStrange(c: Cluster, r: Role, s: Secret)
    requires s.owners == [RefTo(r)]
    ensures Strangers(c, r, s)
  {
  }

  // ---------------------------------------------------------------- when it reports a status

  /** A status report either fails or finds the very role it was made from. */
  ghost predicate Settled(c: Cluster, d: Cluster, r: Role) {
    d == c ||
    (&& d.secrets == c.secrets && d.next >= c.next
     && r.key in c.roles && c.roles[r.key] == r && r.key in d.roles && d.roles == c.roles[r.key := d.roles[r.key]]
     && Noted(d.roles[r.key], r, c.next))
  }

  ghost predicate Noted(r': Role, r: Role, next: nat) {
    r' == r.(status := r'.status, resourceVersion := next) && r'.status.observedGeneration == Some(r.generation)
  }

  lemma SettledCluster(cfg: Setup, q: bool, c: Cluster, d: Cluster, r: Role)
    requires Settled(c, d, r) && ClusterSound(cfg, q, c) && Recorded(q, c, r)
    ensures ClusterSound(cfg, q, d)
  {
    forall k | q && k in d.roles && d.roles[k].key == k && OwnedBy(d, d.roles[k])
      ensures Agrees(cfg, d.roles[k], d.secrets[k].data)
    {
      assert OwnedBy(c, c.roles[k]);
    }
  }

  lemma SettledTask(cfg: Setup, q: bool, c: Cluster, d: Cluster, r: Role, t: Task, due: bool)
    requires Settled(c, d, r) && TaskSound(c, t, due) && TaskAgrees(q, c, t)
    requires !t.Drop? && KeyOf(t) == r.key ==> t.role == r
    ensures TaskAgrees(q, d, t)
  {
    match t
    case Renew(s, r') =>
    case Drop(_) =>
    case Settle(r', held) =>
  }

  // ---------------------------------------------------------------- the role side's steps

  lemma BeginAgrees(cfg: Setup, q: bool, c: Cluster, tasks: seq<Task>)
    requires Paired(tasks) && TasksAgree(q, c, tasks)
    ensures LocalAgrees(cfg, q, c, RM.Begin(tasks))
  {
    if |tasks| > 0 {
      assert TaskAgrees(q, c, tasks[0]);
    }
  }

  lemma TailAgrees(q: bool, c: Cluster, tasks: seq<Task>)
    requires |tasks| > 0 && Paired(tasks) && TasksAgree(q, c, tasks)
    ensures Paired(tasks[1..]) && TasksAgree(q, c, tasks[1..])
  {
    forall i, j | 0 <= i < |tasks[1..]| && 0 <= j < |tasks[1..]| ensures ForOneRole(tasks[1..][i], tasks[1..][j]) {
      assert ForOneRole(tasks[i + 1], tasks[j + 1]);
    }
  }

  lemma TaskAgreesWrite(cfg: Setup, q: bool, c: Cluster, tasks: seq<Task>, stage: RM.Stage, e: Event, f: Fault)
    requires WellFormed(c) && ClusterSound(cfg, q, c)
    requires RoleLocal(c, RM.Running(tasks, stage)) && LocalAgrees(cfg, q, c, RM.Running(tasks, stage))
    requires RM.StepTask(cfg.role, tasks, stage, e).Some? && !e.StatusPut?
    ensures ClusterSound(cfg, q, After(c, e, f)) && TasksAgree(q, After(c, e, f), tasks)
  {
    var d, t := After(c, e, f), tasks[0];
    assert TaskAgrees(q, c, t) && TaskSound(c, t, !stage.Reporting?);
    EventWrote(cfg, q, c, tasks, stage, e, f);
    WroteCluster(cfg, q, c, d, t);
    forall i | 0 <= i < |tasks| ensures TaskAgrees(q, d, tasks[i]) {
      assert ForOneRole(t, tasks[i]);
      WroteTask(cfg, q, c, d, t, tasks[i]);
    }
  }

  lemma TaskAgreesReport(cfg: Setup, q: bool, c: Cluster, tasks: seq<Task>, stage: RM.Stage, e: Event, f: Fault)
    requires WellFormed(c) && ClusterSound(cfg, q, c)
    requires RoleLocal(c, RM.Running(tasks, stage)) && LocalAgrees(cfg, q, c, RM.Running(tasks, stage))
    requires RM.StepTask(cfg.role, tasks, stage, e).Some? && e.StatusPut?
    ensures Settled(c, After(c, e, f), tasks[0].role)
    ensures ClusterSound(cfg, q, After(c, e, f)) && TasksAgree(q, After(c, e, f), tasks)
  {
    var d, t := After(c, e, f), tasks[0];
    assert TaskAgrees(q, c, t) && Recorded(q, c, t.role);
    assert Settled(c, d, t.role);
    SettledCluster(cfg, q, c, d, t.role);
    forall i | 0 <= i < |tasks| ensures TaskAgrees(q, d, tasks[i]) {
      assert ForOneRole(t, tasks[i]);
      assert i > 0 ==> tasks[1..][i - 1] == tasks[i];
      SettledTask(cfg, q, c, d, t.role, tasks[i], i > 0 || !stage.Reporting?);
    }
  }

  lemma ServedRecords(q: bool, scope: string, w: World, e: Event, f: Fault, r: Role)
    requires (e.SecretPut? || e.SecretMade?) && e.ok && Heard(scope, w, e, f)
    requires e.secret.key == r.key && GenerationOf(e.secret.data) == Some(r.generation)
    ensures Recorded(q, After(w.c, e, f), r)
  {
  }

  /** Once a write has been answered, the secret records the generation. */
  lemma WrittenRecords(cfg: Setup, q: bool, w: World, e: Event, f: Fault)
    requires InOrder(cfg, q, w) && Enabled(cfg, w, Request(RoleSide, e, f))
    requires w.a.Running? && (e.SecretPut? || e.SecretMade?) && e.ok
    ensures Recorded(q, After(w.c, e, f), w.a.tasks[0].role)
  {
    var t := w.a.tasks[0];
    assert TaskAgrees(q, w.c, t);
    GenerationReadsBack(w.a.stage.arn, w.a.stage.issued, t.role.generation);
    ServedRecords(q, cfg.role.namespace, w, e, f, t.role);
  }

  lemma RoleTaskAgrees(cfg: Setup, q: bool, w: World, e: Event, f: Fault)
    requires InOrder(cfg, q, w) && Enabled(cfg, w, Request(RoleSide, e, f)) && w.a.Running?
    ensures ClusterSound(cfg, q, After(w.c, e, f))
    ensures LocalAgrees(cfg, q, After(w.c, e, f), RM.Step(cfg.role, w.a, e).value)
  {
    var d, tasks, stage := After(w.c, e, f), w.a.tasks, w.a.stage;
    var l := RM.StepTask(cfg.role, tasks, stage, e).value;
    if e.StatusPut? {
      TaskAgreesReport(cfg, q, w.c, tasks, stage, e, f);
    } else {
      TaskAgreesWrite(cfg, q, w.c, tasks, stage, e, f);
    }
    RoleTrace.StepShape(cfg.role, tasks, stage, e);
    if l == RM.Begin(tasks[1..]) {
      TailAgrees(q, d, tasks);
      BeginAgrees(cfg, q, d, tasks[1..]);
    } else if l.stage.Reporting? {
      WrittenRecords(cfg, q, w, e, f);
    }
  }

  /** The plan of a pass agrees with the cluster when the roles are listed. */
  lemma PlanAgrees(cfg: Setup, q: bool, c: Cluster, secrets: seq<Secret>, roles: seq<Role>)
    requires WellFormed(c) && ClusterSound(cfg, q, c) && RoleListing(c, cfg.role.namespace, roles)
    requires forall s :: s in secrets ==> Stored(c, s)
    ensures LocalAgrees(cfg, q, c, RM.Begin(Plan(secrets, roles)))
  {
    var p := Plan(secrets, roles);
    forall i | 0 <= i < |p|
      ensures TaskAgrees(q, c, p[i]) && (!p[i].Drop? ==> p[i].role in roles && p[i].role.key == KeyOf(p[i]))
    {
      assert p[i] in p;
      RoleTrace.PlanMembers(secrets, roles, p[i]);
      if !p[i].Drop? {
        ListedIsCopy(cfg, q, c, roles, p[i].role);
      }
    }
    forall i, j | 0 <= i < |p| && 0 <= j < |p| ensures ForOneRole(p[i], p[j]) {
    }
    BeginAgrees(cfg, q, c, p);
  }

  lemma ListedIsCopy(cfg: Setup, q: bool, c: Cluster, roles: seq<Role>, r: Role)
    requires WellFormed(c) && ClusterSound(cfg, q, c) && RoleListing(c, cfg.role.namespace, roles) && r in roles
    ensures r.key in c.roles && c.roles[r.key] == r && RoleCopy(c, r)
  {
    assert RoleIsListed(c, cfg.role.namespace, r);
  }

  lemma RoleRequestInOrder(cfg: Setup, q: bool, w: World, e: Event, f: Fault)
    requires InOrder(cfg, q, w) && Enabled(cfg, w, Request(RoleSide, e, f))
    ensures InOrder(cfg, q, Next(cfg, w, Request(RoleSide, e, f)))
  {
    RoleRequestKeeps(cfg, w, e, f);
    match w.a
    case Idle =>
    case HaveSecrets(secrets) =>
      if e.roles.Some? {
        PlanAgrees(cfg, q, w.c, secrets, e.roles.value);
      }
    case Running(_, _) => RoleTaskAgrees(cfg, q, w, e, f);
  }

  lemma StepInOrder(cfg: Setup, q: bool, w: World, act: Action)
    requires InOrder(cfg, q, w) && Enabled(cfg, w, act)
    ensures InOrder(cfg, q, Next(cfg, w, act))
  {
    if act.Request? && act.who == RoleSide {
      RoleRequestInOrder(cfg, q, w, act.e, act.fault);
    } else {
      var v := Next(cfg, w, act);
      StepKeeps(cfg, w, act);
      if act.Request? {
        StoreMoves(cfg, q, w, act.e, act.fault);
      } else {
        OthersMove(cfg, q, w, act);
      }
      var who := if act.Request? then act.who else Others;
      ClusterStable(cfg, q, who, w.c, v.c);
      LocalStable(cfg, q, who, w.c, v.c, w.a);
    }
  }

  // ---------------------------------------------------------------- whole runs

  lemma {:induction false} RunInOrder(cfg: Setup, q: bool, w: World, acts: seq<Action>)
    requires Start(w) && ClusterSound(cfg, q, w.c) && Possible(cfg, w, acts)
    ensures InOrder(cfg, q, Reached(cfg, w, acts))
  {
    if |acts| > 0 {
      RunInOrder(cfg, q, w, acts[..|acts| - 1]);
      StepInOrder(cfg, q, Reached(cfg, w, acts[..|acts| - 1]), acts[|acts| - 1]);
    }
  }

  /** In every reachable state, a role that owns the labelled secret of its name: what the secret
      records lies between what the role reports and the role's generation. */
  lemma {:induction false} GenerationOrder(cfg: Setup, w: World, acts: seq<Action>, k: Key)
    requires Start(w) && ClusterSound(cfg, true, w.c) && Possible(cfg, w, acts)
    requires var c := Reached(cfg, w, acts).c; k in c.roles && OwnedBy(c, c.roles[k])
    ensures var c := Reached(cfg, w, acts).c;
            k in c.secrets && GenerationOf(c.secrets[k].data).Some? &&
            Observed(c.roles[k]) <= GenerationOf(c.secrets[k].data).value <= c.roles[k].generation
  {
    RunInOrder(cfg, true, w, acts);
    assert RoleFits(Reached(cfg, w, acts).c.roles[k], k, Reached(cfg, w, acts).c.next);
  }

  /** And where the two agree, the stored ARN is the resolution of the role's present reference. */
  lemma {:induction false} CurrentMeansRightRole(cfg: Setup, w: World, acts: seq<Action>, k: Key)
    requires Start(w) && ClusterSound(cfg, true, w.c) && Possible(cfg, w, acts)
    requires var c := Reached(cfg, w, acts).c;
             k in c.roles && OwnedBy(c, c.roles[k]) && k in c.secrets
             && GenerationOf(c.secrets[k].data) == Some(c.roles[k].generation)
    ensures var c := Reached(cfg, w, acts).c;
            NamesRole(cfg, c.roles[k], c.secrets[k].data)
  {
    RunInOrder(cfg, true, w, acts);
    assert RoleFits(Reached(cfg, w, acts).c.roles[k], k, Reached(cfg, w, acts).c.next);
  }

  lemma MoveReports(c: Cluster, d: Cluster, k: Key)
    requires RolesMove(c, d) && k in d.roles && d.roles[k].uid < c.next
    ensures k in c.roles && c.roles[k].uid == d.roles[k].uid && Observed(c.roles[k]) == Observed(d.roles[k])
  {
  }

  lemma RoleReports(cfg: Setup, q: bool, w: World, e: Event, f: Fault, k: Key)
    requires InOrder(cfg, q, w) && Enabled(cfg, w, Request(RoleSide, e, f)) && k in After(w.c, e, f).roles
    ensures k in w.c.roles && w.c.roles[k].uid == After(w.c, e, f).roles[k].uid
    ensures Observed(w.c.roles[k]) <= Observed(After(w.c, e, f).roles[k])
  {
    if e.StatusPut? {
      assert w.a.Running?;
      TaskAgreesReport(cfg, q, w.c, w.a.tasks, w.a.stage, e, f);
      assert RoleSound(w.c.roles[k]);
    } else {
      assert After(w.c, e, f).roles == w.c.roles;
    }
  }

  /** Versions and UIDs only go up, and a role that was there before reports no lower generation. */
  ghost predicate RolesGrow(c: Cluster, d: Cluster) {
    && c.next <= d.next
    && forall k :: k in d.roles && d.roles[k].uid < c.next ==> k in c.roles && GrewTo(c.roles[k], d.roles[k])
  }

  ghost predicate GrewTo(r: Role, r': Role) {
    r.uid == r'.uid && Observed(r) <= Observed(r')
  }

  lemma StepGrows(cfg: Setup, q: bool, w: World, act: Action)
    requires InOrder(cfg, q, w) && Enabled(cfg, w, act)
    ensures RolesGrow(w.c, Next(cfg, w, act).c)
  {
    var d := Next(cfg, w, act).c;
    StepKeeps(cfg, w, act);
    forall k | k in d.roles && d.roles[k].uid < w.c.next ensures k in w.c.roles && GrewTo(w.c.roles[k], d.roles[k]) {
      if act.Request? && act.who == RoleSide {
        RoleReports(cfg, q, w, act.e, act.fault, k);
      } else {
        if act.Request? {
          StoreMoves(cfg, q, w, act.e, act.fault);
        } else {
          OthersMove(cfg, q, w, act);
        }
        MoveReports(w.c, d, k);
      }
    }
  }

  lemma GrowTransitive(c: Cluster, d: Cluster, e: Cluster)
    requires RolesGrow(c, d) && RolesGrow(d, e)
    ensures RolesGrow(c, e)
  {
  }

  lemma LastGrows(cfg: Setup, q: bool, w: World, acts: seq<Action>)
    requires Start(w) && ClusterSound(cfg, q, w.c) && Possible(cfg, w, acts) && |acts| > 0
    ensures Possible(cfg, w, acts[..|acts| - 1])
    ensures RolesGrow(Reached(cfg, w, acts[..|acts| - 1]).c, Reached(cfg, w, acts).c)
  {
    RunInOrder(cfg, q, w, acts[..|acts| - 1]);
    StepGrows(cfg, q, Reached(cfg, w, acts[..|acts| - 1]), acts[|acts| - 1]);
  }

  lemma {:induction false} RunGrows(cfg: Setup, q: bool, w: World, acts: seq<Action>, more: seq<Action>)
    requires Start(w) && ClusterSound(cfg, q, w.c) && Possible(cfg, w, acts + more)
    ensures Possible(cfg, w, acts) && RolesGrow(Reached(cfg, w, acts).c, Reached(cfg, w, acts + more).c)
    decreases |more|
  {
    var all := acts + more;
    if |more| == 0 {
      assert all == acts;
    } else {
      var init := more[..|more| - 1];
      assert all[..|all| - 1] == acts + init;
      LastGrows(cfg, q, w, all);
      RunGrows(cfg, q, w, acts, init);
      GrowTransitive(Reached(cfg, w, acts).c, Reached(cfg, w, acts + init).c, Reached(cfg, w, all).c);
    }
  }

  /** For one UID the reported generation never goes down. */
  lemma {:induction false} ObservedNeverDecreases(cfg: Setup, w: World, acts: seq<Action>, more: seq<Action>, k: Key)
    requires Start(w) && RolesSound(w.c) && Possible(cfg, w, acts + more)
    requires var c, d := Reached(cfg, w, acts).c, Reached(cfg, w, acts + more).c;
             k in c.roles && k in d.roles && c.roles[k].uid == d.roles[k].uid
    ensures Observed(Reached(cfg, w, acts).c.roles[k]) <= Observed(Reached(cfg, w, acts + more).c.roles[k])
  {
    RunGrows(cfg, false, w, acts, more);
    RunKeeps(cfg, w, acts);
    var c := Reached(cfg, w, acts).c;
    assert RoleFits(c.roles[k], k, c.next);
  }
}
