/** What the log of an AWSIAMRole controller looks like, under every pattern of failures and
    whatever else happens to the cluster. */
module RoleTrace {
  import opened Options
  import opened Decimal
  import opened Kube
  import opened Payload
  import opened RolePass
  import opened RoleMachine
  import opened Events

  /** A pass starts at `m` with these two lists, and no list was read since. */
  ghost predicate PassSince(log: seq<Event>, m: nat, secrets: seq<Secret>, roles: seq<Role>) {
    && m + 1 < |log|
    && log[m] == SecretsListed(map["heritage" := "kube-aws-iam-controller", "type" := "awsiamrole"], Some(secrets))
    && log[m + 1] == RolesListed(Some(roles))
    && forall j :: m + 2 <= j < |log| ==> !log[j].SecretsListed? && !log[j].RolesListed?
  }

  ghost predicate IsSuffix<T(!new)>(part: seq<T>, whole: seq<T>) {
    |part| <= |whole| && part == whole[|whole| - |part|..]
  }

  /** STS was just asked for a role's credentials and gave these. */
  ghost predicate JustAsked(log: seq<Event>, r: Role, i: Issued) {
    LastHeard(log, Asked(r.spec.roleReference, SessionDuration(r.spec.roleSessionDuration), Some(i)))
  }

  /** A role's payload made of one STS answer: its credentials field by field, the resolved ARN, the
      role's generation, and nothing else. */
  ghost predicate MadeFor(cfg: Config, data: Data, r: Role, i: Issued) {
    && FromAnswer(data, i) && data.Keys == STORE_KEYS + {"role-arn", "awsiamrole-generation"}
    && data["role-arn"].Text? && ResolvesTo(cfg, r.spec.roleReference, data["role-arn"].text)
    && data["awsiamrole-generation"] == Text(FormatInt(r.generation))
  }

  lemma PayloadMadeFor(cfg: Config, r: Role, i: Issued)
    ensures MadeFor(cfg, RolePayload(Resolve(cfg, r.spec.roleReference), i, r.generation), r, i)
  {
    var data := RolePayload(Resolve(cfg, r.spec.roleReference), i, r.generation);
    assert data["role-arn"] == Text(Resolve(cfg, r.spec.roleReference));
  }

  /** A status describes a secret's data: its ARN, or none where it has none, and its readable expiry. */
  ghost predicate Describes(st: Status, data: Data) {
    && st.roleARN == (if "role-arn" in data then data["role-arn"] else Text(""))
    && "expire" in data && data["expire"].Stamp? && st.expiration == Some(data["expire"].at)
  }

  /** What a reported status says. After a write it is about the credentials just written: loop 1 and a
      creation report when they really expire, a rewriting in loop 3 what the secret says. Without one
      it is about the listed secret, which records the role's generation. */
  ghost predicate Truthful(cfg: Config, log: seq<Event>, t: Task, st: Status)
    requires !t.Drop?
  {
    && st.observedGeneration == Some(t.role.generation)
    && (AfterWrite(cfg, log, t, st) || AsListed(t, st))
  }

  ghost predicate EndsInWrite(log: seq<Event>) {
    |log| > 0 && (log[|log| - 1].SecretPut? || log[|log| - 1].SecretMade?) && log[|log| - 1].ok
  }

  ghost predicate AfterWrite(cfg: Config, log: seq<Event>, t: Task, st: Status)
    requires !t.Drop?
  {
    EndsInWrite(log) && exists i :: Announces(cfg, log, t, st, i)
  }

  ghost predicate Announces(cfg: Config, log: seq<Event>, t: Task, st: Status, i: Issued)
    requires !t.Drop? && EndsInWrite(log)
  {
    var s := log[|log| - 1].secret;
    && JustAsked(log[..|log| - 1], t.role, i) && s.key == t.role.key && MadeFor(cfg, s.data, t.role, i)
    && st.roleARN == s.data["role-arn"]
    && st.expiration == Some(if t.Settle? && t.held.Some? then s.data["expire"].at else i.expiration)
  }

  ghost predicate AsListed(t: Task, st: Status) {
    && t.Settle? && t.held.Some? && GenerationOf(t.held.value.data) == Some(t.role.generation)
    && Describes(st, t.held.value.data)
  }

  /** Why the first task stands where it does. */
  ghost predicate Explained(cfg: Config, log: seq<Event>, t: Task, stage: Stage) {
    match stage
    case Check => t.Renew? && "expire" in t.secret.data && t.secret.data["expire"].Stamp?
    case Due =>
      && !t.Drop? && (t.Renew? ==> DueNow(cfg.refreshLimit, log, t.secret.data))
      && (t.Settle? && t.held.Some? ==> GenerationOf(t.held.value.data) != Some(t.role.generation))
    case Holding(arn, i) =>
      && !t.Drop? && JustAsked(log, t.role, i) && ResolvesTo(cfg, t.role.spec.roleReference, arn)
      && arn == Resolve(cfg, t.role.spec.roleReference)
      && (t.Settle? && t.held.Some? ==> GenerationOf(t.held.value.data) != Some(t.role.generation))
    case Reporting(st) => !t.Drop? && Truthful(cfg, log, t, st)
    case Doomed => true
  }

  lemma BeginExplained(cfg: Config, log: seq<Event>, t: Task)
    ensures Explained(cfg, log, t, StartStage(t))
  {
  }

  /** An event keeps the first task or finishes it; only an STS answer puts credentials in hand. */
  lemma StepShape(cfg: Config, tasks: seq<Task>, stage: Stage, e: Event)
    requires |tasks| > 0 && StepTask(cfg, tasks, stage, e).Some?
    ensures var l := StepTask(cfg, tasks, stage, e).value;
            && !e.SecretsListed? && !e.RolesListed?
            && (l == Begin(tasks[1..]) || (l.Running? && l.tasks == tasks))
            && (l.Running? && l.stage.Holding? ==>
                  && l.tasks == tasks && !tasks[0].Drop?
                  && e == Asked(tasks[0].role.spec.roleReference,
                                SessionDuration(tasks[0].role.spec.roleSessionDuration), Some(l.stage.issued))
                  && l.stage.arn == Resolve(cfg, tasks[0].role.spec.roleReference))
  {
    match stage
    case Holding(arn, i) =>
    case _ =>
  }

  /** A successful write leads to a truthful report. */
  lemma WriteTruthful(cfg: Config, log: seq<Event>, t: Task, i: Issued, e: Event, st: Status)
    requires !t.Drop? && JustAsked(log, t.role, i) && (e.SecretPut? || e.SecretMade?) && e.ok
    requires e.secret.key == t.role.key
    requires e.secret.data == RolePayload(Resolve(cfg, t.role.spec.roleReference), i, t.role.generation)
    requires if t.Settle? && t.held.Some? then StatusDue(t.role, e.secret.data) == Some(st)
             else st == IssuedStatus(t.role, Resolve(cfg, t.role.spec.roleReference), i)
    ensures Truthful(cfg, log + [e], t, st)
  {
    PayloadMadeFor(cfg, t.role, i);
    assert (log + [e])[..|log|] == log;
    assert Announces(cfg, log + [e], t, st, i);
  }

  lemma StepExplained(cfg: Config, log: seq<Event>, tasks: seq<Task>, stage: Stage, e: Event)
    requires |tasks| > 0 && StepTask(cfg, tasks, stage, e).Some? && Explained(cfg, log, tasks[0], stage)
    requires !tasks[0].Drop? ==> tasks[0].role.key == KeyOf(tasks[0])
    requires tasks[0].Settle? && tasks[0].held.Some? ==> tasks[0].held.value.key == tasks[0].role.key
    ensures var l := StepTask(cfg, tasks, stage, e).value;
            l.Running? ==> |l.tasks| > 0 && Explained(cfg, log + [e], l.tasks[0], l.stage)
  {
    var t, l := tasks[0], StepTask(cfg, tasks, stage, e).value;
    if |tasks| > 1 {
      BeginExplained(cfg, log + [e], tasks[1]);
    }
    match stage
    case Check => RefreshIff(t.secret.data, e.now, cfg.refreshLimit);
    case Holding(arn, i) =>
      if l.Running? && l.tasks == tasks && l.stage.Reporting? && e.ok {
        HoldingReports(cfg, log, tasks, arn, i, e);
      }
    case _ =>
  }

  lemma HoldingReports(cfg: Config, log: seq<Event>, tasks: seq<Task>, arn: string, i: Issued, e: Event)
    requires |tasks| > 0 && StepHolding(tasks, arn, i, e).Some? && Explained(cfg, log, tasks[0], Holding(arn, i))
    requires tasks[0].role.key == KeyOf(tasks[0])
    requires tasks[0].Settle? && tasks[0].held.Some? ==> tasks[0].held.value.key == tasks[0].role.key
    ensures var l := StepHolding(tasks, arn, i, e).value;
            l == Begin(tasks[1..]) || (l.Running? && l.tasks == tasks && Explained(cfg, log + [e], tasks[0], l.stage))
  {
    var l := StepHolding(tasks, arn, i, e).value;
    if l != Begin(tasks[1..]) {
      WriteTruthful(cfg, log, tasks[0], i, e, l.stage.status);
    }
  }

  lemma SuffixTail<T(!new)>(part: seq<T>, whole: seq<T>)
    requires IsSuffix(part, whole) && |part| > 0
    ensures IsSuffix(part[1..], whole)
  {
  }

  lemma PassGoesOn(log: seq<Event>, e: Event, m: nat, secrets: seq<Secret>, roles: seq<Role>)
    requires PassSince(log, m, secrets, roles) && !e.SecretsListed? && !e.RolesListed?
    ensures PassSince(log + [e], m, secrets, roles)
  {
  }

  /** The agenda is what is left of the plan for the two lists of the pass. */
  ghost predicate AgendaPlanned(cfg: Config, log: seq<Event>, l: Local, m: nat, secrets: seq<Secret>,
          roles: seq<Role>) {
    && (l.HaveSecrets? ==> LastHeard(log, SecretsListed(ROLE_OWNER_LABELS, Some(l.secrets))))
    && (l.Running? ==>
          && |l.tasks| > 0
          && PassSince(log, m, secrets, roles) && IsSuffix(l.tasks, Plan(secrets, roles))
          && Explained(cfg, log, l.tasks[0], l.stage))
  }

  lemma {:induction false} AgendaIsPlanned(cfg: Config, log: seq<Event>)
    returns (m: nat, secrets: seq<Secret>, roles: seq<Role>)
    requires Replay(cfg, log).Some?
    ensures AgendaPlanned(cfg, log, Replay(cfg, log).value, m, secrets, roles)
  {
    m, secrets, roles := 0, [], [];
    if |log| > 0 {
      var init, e := log[..|log| - 1], log[|log| - 1];
      assert log == init + [e];
      m, secrets, roles := AgendaIsPlanned(cfg, init);
      var l := Replay(cfg, init).value;
      if l.HaveSecrets? && e.RolesListed? && e.roles.Some? {
        m, secrets, roles := |init| - 1, l.secrets, e.roles.value;
        PassBegins(cfg, init, l.secrets, roles);
      } else if l.Running? {
        PassContinues(cfg, init, e, l, m, secrets, roles);
      }
    }
  }

  lemma PassBegins(cfg: Config, log: seq<Event>, secrets: seq<Secret>, roles: seq<Role>)
    requires LastHeard(log, SecretsListed(ROLE_OWNER_LABELS, Some(secrets)))
    ensures AgendaPlanned(cfg, log + [RolesListed(Some(roles))], Begin(Plan(secrets, roles)), |log| - 1, secrets, roles)
  {
    if |Plan(secrets, roles)| > 0 {
      BeginExplained(cfg, log + [RolesListed(Some(roles))], Plan(secrets, roles)[0]);
    }
  }

  lemma PassContinues(cfg: Config, log: seq<Event>, e: Event, l: Local, m: nat, secrets: seq<Secret>, roles: seq<Role>)
    requires l.Running? && AgendaPlanned(cfg, log, l, m, secrets, roles) && Step(cfg, l, e).Some?
    ensures AgendaPlanned(cfg, log + [e], Step(cfg, l, e).value, m, secrets, roles)
  {
    StepShape(cfg, l.tasks, l.stage, e);
    PassGoesOn(log, e, m, secrets, roles);
    SuffixTail(l.tasks, Plan(secrets, roles));
    assert l.tasks[0] in Plan(secrets, roles);
    PlanMembers(secrets, roles, l.tasks[0]);
    StepExplained(cfg, log, l.tasks, l.stage, e);
  }

  /** A request for a deletion names a secret of the pass's list that carries no reference to a role
      of the pass's list under that name. */
  lemma DeletionsAreOrphans(cfg: Config, log: seq<Event>, k: Key, ok: bool)
    returns (m: nat, secrets: seq<Secret>, roles: seq<Role>, s: Secret)
    requires Replay(cfg, log + [SecretRemoved(k, ok)]).Some?
    ensures PassSince(log, m, secrets, roles)
    ensures s in secrets && s.key == k
    ensures UniqueRoles(roles) ==>
              forall r, ref :: r in roles && r.key == k && ref in s.owners ==> !RefersTo(ref, r)
  {
    ReplaySnoc(cfg, log, SecretRemoved(k, ok));
    m, secrets, roles := AgendaIsPlanned(cfg, log);
    var t := Replay(cfg, log).value.tasks[0];
    s := t.secret;
    PlanMembers(secrets, roles, t);
    FindRoleIff(roles, k);
    forall r | r in roles { OwnedIff(r, s); }
  }

  /** The first task of a pass under way: where it comes from, and why it stands where it does. */
  lemma FirstTask(cfg: Config, log: seq<Event>) returns (m: nat, secrets: seq<Secret>, roles: seq<Role>)
    requires Replay(cfg, log).Some? && Replay(cfg, log).value.Running?
    ensures var l := Replay(cfg, log).value;
            && PassSince(log, m, secrets, roles) && |l.tasks| > 0 && Planned(secrets, roles, l.tasks[0])
            && Explained(cfg, log, l.tasks[0], l.stage)
  {
    m, secrets, roles := AgendaIsPlanned(cfg, log);
    var t := Replay(cfg, log).value.tasks[0];
    assert t in Plan(secrets, roles);
    PlanMembers(secrets, roles, t);
  }

  /** The labels of a role's secret: the role's own and, over them, these two. */
  ghost predicate LabelledFor(labels: Labels, r: Role) {
    labels == r.labels + map["heritage" := "kube-aws-iam-controller", "type" := "awsiamrole"]
  }

  /** A new secret belongs to its role alone and takes a name no listed secret has; a rewritten one is a
      listed secret of the name with other labels and data. */
  ghost predicate Placed(secrets: seq<Secret>, r: Role, e: Event)
    requires e.SecretPut? || e.SecretMade?
  {
    && e.secret.key == r.key && LabelledFor(e.secret.labels, r)
    && (e.SecretMade? ==>
          && |e.secret.owners| == 1 && RefersTo(e.secret.owners[0], r)
          && forall s :: s in secrets ==> s.key != r.key)
    && (e.SecretPut? ==>
          exists s :: s in secrets && e.secret == s.(labels := e.secret.labels, data := e.secret.data))
  }

  /** A secret goes to the API server right after the STS answer it is made of: its payload is made of
      that answer and for that role, field by field, and it belongs where it goes. */
  lemma {:induction false} WritesFromOneAnswer(cfg: Config, log: seq<Event>, e: Event)
    returns (m: nat, secrets: seq<Secret>, roles: seq<Role>, r: Role, i: Issued)
    requires e.SecretPut? || e.SecretMade?
    requires Replay(cfg, log + [e]).Some?
    ensures PassSince(log, m, secrets, roles) && r in roles
    ensures JustAsked(log, r, i) && MadeFor(cfg, e.secret.data, r, i) && Placed(secrets, r, e)
  {
    ReplaySnoc(cfg, log, e);
    m, secrets, roles := FirstTask(cfg, log);
    var l := Replay(cfg, log).value;
    r, i := l.tasks[0].role, l.stage.issued;
    PayloadMadeFor(cfg, r, i);
    OwnedIff(r, e.secret);
    FindSecretIff(secrets, r.key);
  }

  /** Why a role's credentials are asked for: the listed secret of its name carries a reference to it
      and is due, or records another generation, or there is none. */
  ghost predicate Reason(cfg: Config, log: seq<Event>, secrets: seq<Secret>, r: Role) {
    || (exists s :: s in secrets && s.key == r.key && DueNow(cfg.refreshLimit, log, s.data)
                    && exists ref :: ref in s.owners && RefersTo(ref, r))
    || (exists s :: s in secrets && s.key == r.key && Outdated(s.data, r.generation))
    || (forall s :: s in secrets ==> s.key != r.key)
  }

  ghost predicate Outdated(data: Data, generation: int) {
    exists g :: GenerationOf(data) == Some(g) && g != generation
  }

  /** STS is asked for listed roles only, and never without one of these reasons. */
  lemma {:induction false} AsksForAReason(cfg: Config, log: seq<Event>, e: Event)
    returns (m: nat, secrets: seq<Secret>, roles: seq<Role>, r: Role)
    requires e.Asked? && Replay(cfg, log + [e]).Some?
    ensures PassSince(log, m, secrets, roles) && r in roles
    ensures e.role == r.spec.roleReference && e.duration == SessionDuration(r.spec.roleSessionDuration)
    ensures Reason(cfg, log, secrets, r)
  {
    ReplaySnoc(cfg, log, e);
    m, secrets, roles := FirstTask(cfg, log);
    var t := Replay(cfg, log).value.tasks[0];
    r := t.role;
    match t
    case Renew(s, _) => OwnedIff(r, s);
    case Settle(_, held) =>
      FindSecretIff(secrets, r.key);
      if held.Some? {
        assert GenerationOf(held.value.data).Some?;
        assert Outdated(held.value.data, r.generation);
      }
  }

  /** The clock is read for a listed secret with a readable expiry that its listed role owns, and
      decides: credentials are asked for next exactly when the expiry is less than the limit away. */
  lemma {:induction false} ClockDecides(cfg: Config, log: seq<Event>, now: int)
    returns (m: nat, secrets: seq<Secret>, roles: seq<Role>, s: Secret, r: Role)
    requires Replay(cfg, log + [ClockRead(now)]).Some?
    ensures PassSince(log, m, secrets, roles) && s in secrets && r in roles && s.key == r.key
    ensures exists ref :: ref in s.owners && RefersTo(ref, r)
    ensures "expire" in s.data && s.data["expire"].Stamp?
    ensures var tasks := Replay(cfg, log).value.tasks;
            && |tasks| > 0 && tasks[0] == Renew(s, r)
            && Replay(cfg, log + [ClockRead(now)])
               == Some(if s.data["expire"].at < now + cfg.refreshLimit then Running(tasks, Due) else Begin(tasks[1..]))
  {
    ReplaySnoc(cfg, log, ClockRead(now));
    m, secrets, roles := FirstTask(cfg, log);
    s, r := Replay(cfg, log).value.tasks[0].secret, Replay(cfg, log).value.tasks[0].role;
    OwnedIff(r, s);
    RefreshIff(s.data, now, cfg.refreshLimit);
  }

  /** Every reported status is for a listed role, changes nothing else of it, and is truthful. */
  lemma {:induction false} ReportsAreTruthful(cfg: Config, log: seq<Event>, resource: Role, ok: bool)
    returns (m: nat, secrets: seq<Secret>, roles: seq<Role>, t: Task)
    requires Replay(cfg, log + [StatusPut(resource, ok)]).Some?
    ensures PassSince(log, m, secrets, roles) && Planned(secrets, roles, t)
    ensures !t.Drop? && resource == t.role.(status := resource.status)
    ensures Truthful(cfg, log, t, resource.status)
  {
    ReplaySnoc(cfg, log, StatusPut(resource, ok));
    m, secrets, roles := FirstTask(cfg, log);
    t := Replay(cfg, log).value.tasks[0];
  }

  /** A successful write leads to a report of its role, or finishes the task. */
  lemma WriteLeads(cfg: Config, tasks: seq<Task>, stage: Stage, w: Event)
    requires |tasks| > 0 && (w.SecretPut? || w.SecretMade?) && w.ok && StepTask(cfg, tasks, stage, w).Some?
    ensures stage.Holding? && !tasks[0].Drop?
    ensures var l := StepTask(cfg, tasks, stage, w).value;
            || (l.Running? && l.tasks == tasks && l.stage.Reporting?)
            || (w.SecretPut? && tasks[0].Settle? && tasks[0].held.Some?
                && tasks[0].role.status.observedGeneration == Some(tasks[0].role.generation))
  {
  }

  lemma ReportNext(cfg: Config, tasks: seq<Task>, stage: Stage, e: Event)
    requires |tasks| > 0 && stage.Reporting? && StepTask(cfg, tasks, stage, e).Some?
    ensures e.StatusPut? && !tasks[0].Drop? && e.resource.key == tasks[0].role.key
  {
  }

  /** A task that writes to a listed secret in loop 3 finds another generation recorded there. */
  lemma RewritesOutdated(cfg: Config, log: seq<Event>, w: Event)
    returns (m: nat, secrets: seq<Secret>, roles: seq<Role>)
    requires (w.SecretPut? || w.SecretMade?) && Replay(cfg, log).Some? && Replay(cfg, log).value.Running?
    requires Step(cfg, Replay(cfg, log).value, w).Some?
    ensures PassSince(log, m, secrets, roles)
    ensures var l := Replay(cfg, log).value;
            && |l.tasks| > 0 && !l.tasks[0].Drop? && l.tasks[0].role in roles && w.secret.key == l.tasks[0].role.key
            && (l.tasks[0].Settle? && l.tasks[0].held.Some? ==>
                  && l.tasks[0].held.value in secrets && l.tasks[0].held.value.key == w.secret.key
                  && Outdated(l.tasks[0].held.value.data, l.tasks[0].role.generation))
  {
    m, secrets, roles := FirstTask(cfg, log);
    var t := Replay(cfg, log).value.tasks[0];
    if t.Settle? && t.held.Some? {
      assert GenerationOf(t.held.value.data).Some?;
    }
  }

  /** A successful write is reported next, unless it was of a listed secret that recorded another
      generation than the role's, which the role's status already had. */
  lemma {:induction false} WritesAreReported(cfg: Config, log: seq<Event>, w: Event, e: Event)
    returns (m: nat, secrets: seq<Secret>, roles: seq<Role>, r: Role)
    requires (w.SecretPut? || w.SecretMade?) && w.ok
    requires Replay(cfg, log + [w]).Some? && Replay(cfg, log + [w] + [e]).Some?
    ensures PassSince(log, m, secrets, roles) && r in roles && w.secret.key == r.key
    ensures || (e.StatusPut? && e.resource.key == r.key)
            || (w.SecretPut? && r.status.observedGeneration == Some(r.generation)
                && exists s :: s in secrets && s.key == r.key && Outdated(s.data, r.generation))
  {
    ReplaySnoc(cfg, log, w);
    ReplaySnoc(cfg, log + [w], e);
    m, secrets, roles := RewritesOutdated(cfg, log, w);
    var l, l' := Replay(cfg, log).value, Replay(cfg, log + [w]).value;
    r := l.tasks[0].role;
    WriteLeads(cfg, l.tasks, l.stage, w);
    if l'.Running? && l'.tasks == l.tasks && l'.stage.Reporting? {
      ReportNext(cfg, l'.tasks, l'.stage, e);
    }
  }

  lemma PayloadCoherent(arn: string, i: Issued, generation: int)
    ensures Coherent(RolePayload(arn, i, generation))
  {
    assert FromAnswer(RolePayload(arn, i, generation), i);
  }

  /** What membership of the plan means for a task. */
  ghost predicate Planned(secrets: seq<Secret>, roles: seq<Role>, t: Task) {
    match t
    case Renew(s, r) => s in secrets && r in roles && r.key == s.key && OwnerOf(s, roles) == Some(r)
    case Drop(s) => s in secrets && OwnerOf(s, roles).None?
    case Settle(r, held) =>
      && r in roles && held == FindSecret(secrets, r.key) && HasWork(r, held)
      && (held.Some? ==> held.value in secrets && held.value.key == r.key)
  }

  lemma PlanMembers(secrets: seq<Secret>, roles: seq<Role>, t: Task)
    requires t in Plan(secrets, roles)
    ensures Planned(secrets, roles, t)
  {
    RenewalsMembers(secrets, roles);
    OrphansMembers(secrets, roles);
    DropsMembers(Orphans(secrets, roles));
    SettlementsMembers(roles, secrets);
    match t
    case Renew(s, r) => FindRoleIff(roles, s.key);
    case Drop(s) => DropMember(Orphans(secrets, roles), s);
    case Settle(r, held) => FindSecretIff(secrets, r.key);
  }

  lemma DropMember(orphans: seq<Secret>, s: Secret)
    requires Drop(s) in Drops(orphans)
    ensures s in orphans
  {
    DropsMembers(orphans);
  }
}
