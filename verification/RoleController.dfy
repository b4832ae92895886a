/** awsiamrole_controller.go in its own form: a controller object whose refresh runs three loops of
    requests. Every pass is proved to be a run of RoleMachine, whatever the rest of the world does
    in between, and to have the effect RolePass gives it when nobody else does anything. */
module RoleControllers {
  import opened Options
  import opened Decimal
  import opened Kube
  import opened Payload
  import opened RolePass
  import RoleReconcile
  import Convergence
  import opened RoleMachine
  import opened Events
  import opened Clients

  /** The part of a map that a loop over its keys has copied. */
  function Copied(from: Labels, todo: set<string>): Labels {
    map k | k in from && k !in todo :: from[k]
  }

  lemma CopyOne(into: Labels, from: Labels, todo: set<string>, k: string)
    requires k in todo && k in from
    ensures (into + Copied(from, todo))[k := from[k]] == into + Copied(from, todo - {k})
  {
  }

  /** A range loop that copies a map into another. */
  method CopyInto(into: Labels, from: Labels) returns (labels: Labels)
    ensures labels == into + from
  {
    labels := into;
    var todo := from.Keys;
    while todo != {}
      invariant todo <= from.Keys && labels == into + Copied(from, todo)
      decreases |todo|
    {
      var k :| k in todo;
      CopyOne(into, from, todo, k);
      labels := labels[k := from[k]];
      todo := todo - {k};
    }
    assert Copied(from, {}) == from;
  }

  /** mergeLabels */
  method MergeLabels(base: Labels, additional: Labels) returns (labels: Labels)
    ensures labels == base + additional
  {
    labels := map[];
    labels := CopyInto(labels, base);
    assert labels == base;
    labels := CopyInto(labels, additional);
  }

  /** isOwnedReference */
  method IsOwnedReference(owner: Role, dependent: Secret) returns (owned: bool)
    ensures owned <==>
              exists ref :: ref in dependent.owners && ref.apiVersion == owner.apiVersion && ref.kind == owner.kind
                            && ref.uid == owner.uid && ref.name == owner.key.name
    ensures owned <==> IsOwned(owner, dependent)
  {
    OwnedIff(owner, dependent);
    for i := 0 to |dependent.owners|
      invariant RefTo(owner) !in dependent.owners[..i]
    {
      var ref := dependent.owners[i];
      if ref.apiVersion == owner.apiVersion && ref.kind == owner.kind &&
         ref.uid == owner.uid && ref.name == owner.key.name
      {
        assert ref == RefTo(owner);
        return true;
      }
    }
    assert dependent.owners[..|dependent.owners|] == dependent.owners;
    return false;
  }

  lemma ListedFit(c: Cluster, scope: string, secrets: seq<Secret>)
    requires WellFormed(c) && SecretListing(c, scope, ROLE_OWNER_LABELS, secrets)
    ensures forall s :: s in secrets ==> SecretFits(s, s.key, c.next)
  {
    assert forall s :: s in secrets ==> SecretIsListed(c, scope, ROLE_OWNER_LABELS, s);
  }

  /** One iteration of loop 1 peels one secret off. */
  lemma RenewalsStep(secrets: seq<Secret>, roles: seq<Role>, i: nat, rest: seq<Task>)
    requires i < |secrets|
    ensures var s, owner := secrets[i], OwnerOf(secrets[i], roles);
            if owner.None? then
              && Renewals(secrets[i..], roles) + rest == Renewals(secrets[i + 1..], roles) + rest
              && Orphans(secrets[i..], roles) == [s] + Orphans(secrets[i + 1..], roles)
            else
              && Renewals(secrets[i..], roles) + rest
                 == [Renew(s, owner.value)] + (Renewals(secrets[i + 1..], roles) + rest)
              && Orphans(secrets[i..], roles) == Orphans(secrets[i + 1..], roles)
  {
    assert secrets[i..][0] == secrets[i] && secrets[i..][1..] == secrets[i + 1..];
  }

  /** One iteration of loop 3 peels one role off. */
  lemma SettlementsStep(roles: seq<Role>, secrets: seq<Secret>, i: nat)
    requires i < |roles|
    ensures var r, held := roles[i], FindSecret(secrets, roles[i].key);
            Settlements(roles[i..], secrets)
            == (if HasWork(r, held) then [Settle(r, held)] else []) + Settlements(roles[i + 1..], secrets)
  {
    assert roles[i..][0] == roles[i] && roles[i..][1..] == roles[i + 1..];
  }

  lemma DropsStep(orphans: seq<Secret>, i: nat, rest: seq<Task>)
    requires i < |orphans|
    ensures Drops(orphans[i..]) + rest == [Drop(orphans[i])] + (Drops(orphans[i + 1..]) + rest)
  {
    assert orphans[i..][0] == orphans[i] && orphans[i..][1..] == orphans[i + 1..];
  }

  lemma ExecStep(cfg: Config, c: Cluster, t: Task, left: seq<Task>, o: Oracle)
    ensures ExecAll(cfg, c, [t] + left, o) == ExecAll(cfg, ExecTask(cfg, c, t, o(KeyOf(t))), left, o)
  {
    assert ([t] + left)[1..] == left;
  }

  lemma PlanParts(secrets: seq<Secret>, roles: seq<Role>)
    ensures Plan(secrets, roles)
         == Renewals(secrets, roles) + (Drops(Orphans(secrets, roles)) + Settlements(roles, secrets))
  {
  }

  /** A creation and the report that follows its success. */
  lemma CreatedParts(c: Cluster, r: Role, arn: string, i: Issued, a: Answers)
    ensures var put := Answered(a.settlePut, c, CreateSecret(c, NewSecret(r, arn, i)));
            ExecCreated(c, r, arn, i, a)
            == if put.1 then Report(put.0, r, IssuedStatus(r, arn, i), a.settleReport) else put.0
  {
  }

  lemma RewrittenParts(c: Cluster, r: Role, s: Secret, arn: string, i: Issued, a: Answers)
    ensures var s' := Rewritten(s, r, arn, i);
            var put := Answered(a.settlePut, c, UpdateSecret(c, s'));
            ExecRewritten(c, r, s, arn, i, a) == if put.1 then ReportDue(put.0, r, s'.data, a.settleReport) else put.0
  {
  }

  lemma NoWorkNoEffect(cfg: Config, c: Cluster, r: Role, s: Secret, a: Answers)
    ensures !HasWork(r, Some(s)) ==> ExecUpdate(cfg, c, r, s, a) == c
  {
  }

  /** The two lookup maps built from the lists, as functions of a key. */
  ghost predicate SecretsMapped(m: map<string, Secret>, secrets: seq<Secret>) {
    forall k: Key :: Text.Lacks(k.ns, '/') ==>
      (MapKey(k) in m <==> FindSecret(secrets, k).Some?) &&
      (MapKey(k) in m ==> m[MapKey(k)] == FindSecret(secrets, k).value)
  }

  ghost predicate RolesMapped(m: map<string, Role>, roles: seq<Role>) {
    forall k: Key :: Text.Lacks(k.ns, '/') ==>
      (MapKey(k) in m <==> FindRole(roles, k).Some?) &&
      (MapKey(k) in m ==> m[MapKey(k)] == FindRole(roles, k).value)
  }

  method MapSecrets(secrets: seq<Secret>) returns (m: map<string, Secret>)
    requires forall s :: s in secrets ==> Text.Lacks(s.key.ns, '/')
    ensures SecretsMapped(m, secrets)
  {
    m := map[];
    for i := 0 to |secrets|
      invariant SecretsMapped(m, secrets[..i])
    {
      var s := secrets[i];
      m := m[MapKey(s.key) := s];
      assert secrets[..i + 1][..i] == secrets[..i];
      forall k: Key | Text.Lacks(k.ns, '/') && k != s.key ensures MapKey(k) != MapKey(s.key) {
        if MapKey(k) == MapKey(s.key) { MapKeyInjective(k, s.key); }
      }
    }
    assert secrets[..|secrets|] == secrets;
  }

  method MapRoles(roles: seq<Role>) returns (m: map<string, Role>)
    requires forall r :: r in roles ==> Text.Lacks(r.key.ns, '/')
    ensures RolesMapped(m, roles)
  {
    m := map[];
    for i := 0 to |roles|
      invariant RolesMapped(m, roles[..i])
    {
      var r := roles[i];
      m := m[MapKey(r.key) := r];
      assert roles[..i + 1][..i] == roles[..i];
      forall k: Key | Text.Lacks(k.ns, '/') && k != r.key ensures MapKey(k) != MapKey(r.key) {
        if MapKey(k) == MapKey(r.key) { MapKeyInjective(k, r.key); }
      }
    }
    assert roles[..|roles|] == roles;
  }

  /** The owner test at the head of loop 1: the listed role of the same name, if it owns the secret. */
  method FindOwner(secret: Secret, rolesMap: map<string, Role>, ghost roles: seq<Role>) returns (owner: Option<Role>)
    requires RolesMapped(rolesMap, roles) && Text.Lacks(secret.key.ns, '/')
    ensures owner == OwnerOf(secret, roles)
    ensures owner.Some? ==> owner.value.key == secret.key && owner.value in roles
    ensures owner.Some? ==> exists ref :: ref in secret.owners && RefersTo(ref, owner.value)
    ensures owner.None? && UniqueRoles(roles) ==>
              forall r, ref :: r in roles && r.key == secret.key && ref in secret.owners ==> !RefersTo(ref, r)
  {
    FindRoleIff(roles, secret.key);
    forall r { OwnedIff(r, secret); }
    owner := None;
    if MapKey(secret.key) in rolesMap {
      var role := rolesMap[MapKey(secret.key)];
      var owned := IsOwnedReference(role, secret);
      if owned {
        owner := Some(role);
      }
    }
  }

  class RoleController {
    const cfg: Config
    const client: Client

    constructor (cfg: Config, client: Client)
      ensures this.cfg == cfg && this.client == client
    {
      this.cfg, this.client := cfg, client;
    }

    /** The log so far is a run of the machine, and this is the agenda left in the current pass. */
    ghost predicate Agenda(tasks: seq<Task>)
      reads this, client
    {
      client.Valid() && Replay(cfg, client.log) == Some(Begin(tasks))
    }

    /** The machine stands at a stage of the first task of the agenda. */
    ghost predicate At(tasks: seq<Task>, stage: Stage)
      reads this, client
    {
      client.Valid() && Replay(cfg, client.log) == Some(Running(tasks, stage))
    }

    /** getCreds for the task's role: the payload, or None when STS gives no credentials. */
    method GetCreds(role: Role, site: Site, ghost tasks: seq<Task>)
      returns (arn: string, answer: Option<Issued>, data: Data)
      requires |tasks| > 0 && !tasks[0].Drop? && tasks[0].role == role && At(tasks, Due)
      modifies client`log
      ensures answer == AskAt(client.oracle(role.key), site) && arn == Resolve(cfg, role.spec.roleReference)
      ensures answer.None? ==> Agenda(tasks[1..])
      ensures answer.Some? ==> At(tasks, Holding(arn, answer.value)) && data == RoleCreds(arn, answer.value)
      ensures client.log
           == old(client.log) + [Asked(role.spec.roleReference, SessionDuration(role.spec.roleSessionDuration), answer)]
      ensures ResolvesTo(cfg, role.spec.roleReference, arn)
      ensures answer.Some? ==> FromAnswer(data, answer.value)
      ensures answer.Some? ==> data.Keys == STORE_KEYS + {"role-arn"} && data["role-arn"] == Text(arn)
    {
      ghost var log0 := client.log;
      var duration := SessionDuration(role.spec.roleSessionDuration);
      answer := client.AssumeRole(role.key, site, role.spec.roleReference, duration);
      ReplaySnoc(cfg, log0, client.log[|log0|]);
      arn := Resolve(cfg, role.spec.roleReference);
      data := map[];
      if answer.Some? {
        var i := answer.value;
        data := map[
          ROLE_ARN_KEY := Text(arn),
          EXPIRE_KEY := Stamp(Truncated(i.expiration)),
          CREDENTIALS_FILE_KEY :=
            CredentialsFile(i.accessKeyID, i.secretAccessKey, i.sessionToken, Truncated(i.expiration)),
          PROCESS_FILE_KEY := ProcessFile,
          JSON_FILE_KEY := CredentialsJson(1, i.accessKeyID, i.secretAccessKey, i.sessionToken, i.expiration)
        ];
      }
    }

    /** The expiry test: a missing or unreadable expiry, or one closer than the limit. */
    method CheckExpiry(secret: Secret, role: Role, ghost rest: seq<Task>) returns (refreshCreds: bool)
      requires Agenda([Renew(secret, role)] + rest)
      modifies client`log
      ensures refreshCreds ==> At([Renew(secret, role)] + rest, Due)
      ensures !refreshCreds ==> Agenda(rest)
      ensures var readable := "expire" in secret.data && secret.data["expire"].Stamp?;
              && client.log == old(client.log) + (if readable then [ClockRead(client.oracle(secret.key).now)] else [])
              && (refreshCreds <==>
                    !readable || secret.data["expire"].at < client.oracle(secret.key).now + cfg.refreshLimit)
      ensures refreshCreds <==> NeedsRefresh(secret.data, client.oracle(secret.key).now, cfg.refreshLimit)
    {
      assert ([Renew(secret, role)] + rest)[1..] == rest;
      if EXPIRE_KEY !in secret.data || !secret.data[EXPIRE_KEY].Stamp? {
        return true;
      }
      var expire := secret.data[EXPIRE_KEY].at;
      ghost var log0 := client.log;
      var now := client.Now(secret.key);
      ReplaySnoc(cfg, log0, ClockRead(now));
      return now + cfg.refreshLimit > expire;
    }

    /** Sending a status that the machine is about to report ends the task. */
    method SendStatus(role: Role, status: Status, site: Site, ghost tasks: seq<Task>)
      requires |tasks| > 0 && !tasks[0].Drop? && tasks[0].role == role && At(tasks, Reporting(status))
      modifies client`cluster, client`requests, client`log
      ensures Agenda(tasks[1..]) && client.cluster.next >= old(client.cluster.next)
      ensures exists ok :: client.log == old(client.log) + [StatusPut(role.(status := status), ok)]
      ensures client.Alone() ==>
                client.cluster == Report(old(client.cluster), role, status, FaultAt(client.oracle(role.key), site))
    {
      ghost var log0 := client.log;
      var ok := client.UpdateStatus(role.(status := status), site);
      ReplaySnoc(cfg, log0, client.log[|log0|]);
    }

    /** Labels and data for a role into the copy of its secret, and the update request. */
    method PutFresh(listed: Secret, role: Role, data: Data, site: Site, ghost arn: string, ghost i: Issued,
            ghost tasks: seq<Task>)
      returns (secret: Secret, ok: bool)
      requires |tasks| > 0 && (tasks[0] == Renew(listed, role) || tasks[0] == Settle(role, Some(listed)))
      requires At(tasks, Holding(arn, i)) && data == RoleCreds(arn, i)
      requires SecretFits(listed, listed.key, client.cluster.next)
      modifies client`cluster, client`requests, client`log
      ensures client.Valid() && client.cluster.next >= old(client.cluster.next)
      ensures secret == Rewritten(listed, role, arn, i)
      ensures !ok ==> Agenda(tasks[1..])
      ensures ok && tasks[0].Renew? ==> At(tasks, Reporting(IssuedStatus(role, arn, i)))
      ensures ok && tasks[0].Settle? && StatusDue(role, secret.data).Some? ==>
                At(tasks, Reporting(StatusDue(role, secret.data).value))
      ensures ok && tasks[0].Settle? && StatusDue(role, secret.data).None? ==> Agenda(tasks[1..])
      ensures client.Alone() ==>
                (client.cluster, ok) == Answered(FaultAt(client.oracle(listed.key), site), old(client.cluster),
                                                 UpdateSecret(old(client.cluster), secret))
    {
      var labels := MergeLabels(role.labels, ROLE_OWNER_LABELS);
      secret := listed.(labels := labels, data := data[GENERATION_KEY := Text(FormatInt(role.generation))]);
      ghost var log0 := client.log;
      ok := client.UpdateSecret(secret, site);
      ReplaySnoc(cfg, log0, client.log[|log0|]);
    }

    /** The body of loop 1 for an owned secret. */
    method RenewSecret(listed: Secret, role: Role, ghost rest: seq<Task>)
      requires Agenda([Renew(listed, role)] + rest) && role.key == listed.key
      requires SecretFits(listed, listed.key, client.cluster.next)
      modifies client`cluster, client`requests, client`log
      ensures Agenda(rest) && client.cluster.next >= old(client.cluster.next)
      ensures client.Alone() ==>
                client.cluster == ExecRenew(cfg, old(client.cluster), listed, role, client.oracle(listed.key))
    {
      ghost var tasks := [Renew(listed, role)] + rest;
      assert tasks[1..] == rest;
      var refreshCreds := CheckExpiry(listed, role, rest);
      if refreshCreds {
        var arn, answer, data := GetCreds(role, RenewAsk, tasks);
        if answer.Some? {
          PutAndAnnounce(role, listed, data, arn, answer.value, rest);
        }
      }
    }

    method PutAndAnnounce(role: Role, listed: Secret, data: Data, arn: string, i: Issued, ghost rest: seq<Task>)
      requires At([Renew(listed, role)] + rest, Holding(arn, i)) && role.key == listed.key
      requires SecretFits(listed, listed.key, client.cluster.next) && data == RoleCreds(arn, i)
      modifies client`cluster, client`requests, client`log
      ensures Agenda(rest) && client.cluster.next >= old(client.cluster.next)
      ensures client.Alone() ==>
                client.cluster == ExecRenewed(old(client.cluster), listed, role, arn, i, client.oracle(listed.key))
    {
      ghost var tasks := [Renew(listed, role)] + rest;
      assert tasks[1..] == rest;
      var secret, ok := PutFresh(listed, role, data, RenewPut, arn, i, tasks);
      if ok {
        SendStatus(role, Status(Some(role.generation), Text(arn), Some(i.expiration)), RenewReport, tasks);
      }
    }

    /** The body of loop 2. */
    method DropSecret(secret: Secret, ghost rest: seq<Task>)
      requires Agenda([Drop(secret)] + rest)
      modifies client`cluster, client`requests, client`log
      ensures Agenda(rest) && client.cluster.next >= old(client.cluster.next)
      ensures client.Alone() ==>
                client.cluster == ExecTask(cfg, old(client.cluster), Drop(secret), client.oracle(secret.key))
    {
      assert ([Drop(secret)] + rest)[1..] == rest;
      ghost var log0 := client.log;
      var ok := client.DeleteSecret(secret.key, DropSite);
      ReplaySnoc(cfg, log0, client.log[|log0|]);
    }

    /** getGeneration, with None for its error. */
    method ReadGeneration(data: Data) returns (generation: Option<int>)
      ensures GENERATION_KEY !in data ==> generation == Some(0)
      ensures GENERATION_KEY in data ==>
                forall n :: generation == Some(n) <==>
                  IsInt64(n) && data[GENERATION_KEY].Text? && Reads(data[GENERATION_KEY].text, n)
      ensures generation == GenerationOf(data)
    {
      forall n ensures GenerationOf(data) == Some(n) <==>
                         if GENERATION_KEY !in data then n == 0
                         else IsInt64(n) && data[GENERATION_KEY].Text? && Reads(data[GENERATION_KEY].text, n) {
        RecordedGeneration(data, n);
      }
      generation := Some(0);
      if GENERATION_KEY in data {
        generation := None;
        if data[GENERATION_KEY].Text? {
          generation := ParseInt64(data[GENERATION_KEY].text);
        }
      }
    }

    /** The agenda before an iteration of loop 3: its task, unless there is nothing to do. */
    ghost function WithSettle(role: Role, held: Option<Secret>, rest: seq<Task>): seq<Task> {
      (if HasWork(role, held) then [Settle(role, held)] else []) + rest
    }

    /** The first half of loop 3's body, for a role with a secret in the snapshot. */
    method UpdateRole(role: Role, listed: Secret, ghost rest: seq<Task>)
      requires Agenda(WithSettle(role, Some(listed), rest)) && role.key == listed.key
      requires SecretFits(listed, listed.key, client.cluster.next)
      modifies client`cluster, client`requests, client`log
      ensures Agenda(rest) && client.cluster.next >= old(client.cluster.next)
      ensures client.Alone() ==>
                client.cluster == ExecUpdate(cfg, old(client.cluster), role, listed, client.oracle(role.key))
    {
      ghost var tasks := WithSettle(role, Some(listed), rest);
      assert HasWork(role, Some(listed)) ==> tasks[1..] == rest;
      assert !HasWork(role, Some(listed)) ==> tasks == rest;
      var generation := ReadGeneration(listed.data);
      if generation.None? {
        return;
      }
      if role.generation != generation.value {
        RewriteSecret(role, listed, rest);
      } else {
        ReportStatus(role, listed.data, Settle(role, Some(listed)), rest);
      }
    }

    /** New credentials for an out-of-date secret, then the status. */
    method RewriteSecret(role: Role, listed: Secret, ghost rest: seq<Task>)
      requires At([Settle(role, Some(listed))] + rest, Due) && role.key == listed.key
      requires SecretFits(listed, listed.key, client.cluster.next)
      requires GenerationOf(listed.data).Some? && GenerationOf(listed.data).value != role.generation
      modifies client`cluster, client`requests, client`log
      ensures Agenda(rest) && client.cluster.next >= old(client.cluster.next)
      ensures client.Alone() ==>
                client.cluster == ExecUpdate(cfg, old(client.cluster), role, listed, client.oracle(role.key))
    {
      ghost var tasks := [Settle(role, Some(listed))] + rest;
      assert tasks[1..] == rest;
      var arn, answer, data := GetCreds(role, SettleAsk, tasks);
      if answer.Some? {
        PutAndReport(role, listed, data, arn, answer.value, rest);
      }
    }

    method PutAndReport(role: Role, listed: Secret, data: Data, ghost arn: string, ghost i: Issued,
            ghost rest: seq<Task>)
      requires At([Settle(role, Some(listed))] + rest, Holding(arn, i)) && role.key == listed.key
      requires SecretFits(listed, listed.key, client.cluster.next) && data == RoleCreds(arn, i)
      modifies client`cluster, client`requests, client`log
      ensures Agenda(rest) && client.cluster.next >= old(client.cluster.next)
      ensures client.Alone() ==>
                client.cluster == ExecRewritten(old(client.cluster), role, listed, arn, i, client.oracle(role.key))
    {
      ghost var tasks := [Settle(role, Some(listed))] + rest;
      assert tasks[1..] == rest;
      RewrittenParts(client.cluster, role, listed, arn, i, client.oracle(role.key));
      var secret, ok := PutFresh(listed, role, data, SettlePut, arn, i, tasks);
      if ok {
        ReportStatus(role, secret.data, Settle(role, Some(listed)), rest);
      }
    }

    /** The one request since then was a report of the role with the ARN, if any, and the expiry that the
        data holds. */
    ghost predicate Sent(before: seq<Event>, role: Role, data: Data)
      reads client
    {
      && |client.log| == |before| + 1 && before == client.log[..|before|]
      && client.log[|before|].StatusPut?
      && client.log[|before|].resource == role.(status := client.log[|before|].resource.status)
      && var st := client.log[|before|].resource.status;
         && st.observedGeneration == Some(role.generation)
         && st.roleARN == (if "role-arn" in data then data["role-arn"] else Text(""))
         && "expire" in data && data["expire"].Stamp? && st.expiration == Some(data["expire"].at)
    }

    /** The status update at the end of loop 3's first half. */
    method ReportStatus(role: Role, data: Data, ghost task: Task, ghost rest: seq<Task>)
      requires StatusDue(role, data).Some? ==>
                 task.Settle? && task.role == role && At([task] + rest, Reporting(StatusDue(role, data).value))
      requires StatusDue(role, data).None? ==> Agenda(rest)
      modifies client`cluster, client`requests, client`log
      ensures Agenda(rest) && client.cluster.next >= old(client.cluster.next)
      ensures if role.status.observedGeneration != Some(role.generation) && "expire" in data && data["expire"].Stamp?
              then Sent(old(client.log), role, data) else client.log == old(client.log)
      ensures client.Alone() ==>
                client.cluster == ReportDue(old(client.cluster), role, data, client.oracle(role.key).settleReport)
    {
      assert ([task] + rest)[1..] == rest;
      if role.status.observedGeneration.None? || role.status.observedGeneration.value != role.generation {
        if EXPIRE_KEY !in data || !data[EXPIRE_KEY].Stamp? {
          return;
        }
        var arn := if ROLE_ARN_KEY in data then data[ROLE_ARN_KEY] else Text("");
        SendStatus(role, Status(Some(role.generation), arn, Some(data[EXPIRE_KEY].at)), SettleReport, [task] + rest);
      }
    }

    method MakeSecret(role: Role, data: Data, ghost arn: string, ghost i: Issued,
            ghost rest: seq<Task>) returns (ok: bool)
      requires At([Settle(role, None)] + rest, Holding(arn, i)) && RoleFits(role, role.key, client.cluster.next)
      requires data == RolePayload(arn, i, role.generation)
      modifies client`cluster, client`requests, client`log
      ensures client.cluster.next >= old(client.cluster.next)
      ensures ok ==> At([Settle(role, None)] + rest, Reporting(IssuedStatus(role, arn, i)))
      ensures !ok ==> Agenda(rest)
      ensures client.Alone() ==>
                (client.cluster, ok) == Answered(client.oracle(role.key).settlePut, old(client.cluster),
                                                 CreateSecret(old(client.cluster), NewSecret(role, arn, i)))
    {
      assert ([Settle(role, None)] + rest)[1..] == rest;
      var labels := MergeLabels(role.labels, ROLE_OWNER_LABELS);
      var owner := OwnerRef(role.apiVersion, role.kind, role.key.name, role.uid);
      var secret := Secret(role.key, labels, [owner], data, 0, 0);
      assert secret == NewSecret(role, arn, i);
      ghost var log0 := client.log;
      ok := client.CreateSecret(secret, SettlePut);
      ReplaySnoc(cfg, log0, client.log[|log0|]);
    }

    /** The secret for a role's first credentials, then the status. */
    method MakeAndReport(role: Role, data: Data, arn: string, i: Issued, ghost rest: seq<Task>)
      requires At([Settle(role, None)] + rest, Holding(arn, i)) && RoleFits(role, role.key, client.cluster.next)
      requires data == RoleCreds(arn, i)
      modifies client`cluster, client`requests, client`log
      ensures Agenda(rest) && client.cluster.next >= old(client.cluster.next)
      ensures client.Alone() ==>
                client.cluster == ExecCreated(old(client.cluster), role, arn, i, client.oracle(role.key))
    {
      ghost var tasks := [Settle(role, None)] + rest;
      assert tasks[1..] == rest;
      CreatedParts(client.cluster, role, arn, i, client.oracle(role.key));
      var ok := MakeSecret(role, data[GENERATION_KEY := Text(FormatInt(role.generation))], arn, i, rest);
      if ok {
        SendStatus(role, Status(Some(role.generation), Text(arn), Some(i.expiration)), SettleReport, tasks);
      }
    }

    /** The second half of loop 3's body, for a role without a secret in the snapshot. */
    method CreateForRole(role: Role, ghost rest: seq<Task>)
      requires Agenda([Settle(role, None)] + rest) && RoleFits(role, role.key, client.cluster.next)
      modifies client`cluster, client`requests, client`log
      ensures Agenda(rest) && client.cluster.next >= old(client.cluster.next)
      ensures client.Alone() ==>
                client.cluster == ExecCreate(cfg, old(client.cluster), role, client.oracle(role.key))
    {
      ghost var tasks := [Settle(role, None)] + rest;
      assert tasks[1..] == rest;
      var arn, answer, data := GetCreds(role, SettleAsk, tasks);
      if answer.Some? {
        MakeAndReport(role, data, arn, answer.value, rest);
      }
    }

    /** The objects of the snapshot are ones the API server has handed out. */
    ghost predicate Known(secrets: seq<Secret>, roles: seq<Role>)
      reads this, client
    {
      && (forall s :: s in secrets ==> SecretFits(s, s.key, client.cluster.next))
      && (forall r :: r in roles ==> RoleFits(r, r.key, client.cluster.next))
    }

    /** What is left of the pass will lead, undisturbed, where the whole pass leads from `c0`. */
    ghost predicate OnCourse(c0: Cluster, plan: seq<Task>, left: seq<Task>)
      reads this, client
    {
      && Agenda(left)
      && (client.Alone() ==>
            ExecAll(cfg, client.cluster, left, client.oracle) == ExecAll(cfg, c0, plan, client.oracle))
    }

    method RenewOnCourse(secret: Secret, role: Role, ghost left: seq<Task>, ghost c0: Cluster, ghost plan: seq<Task>)
      requires OnCourse(c0, plan, [Renew(secret, role)] + left) && role.key == secret.key
      requires SecretFits(secret, secret.key, client.cluster.next)
      modifies client`cluster, client`requests, client`log
      ensures OnCourse(c0, plan, left) && client.cluster.next >= old(client.cluster.next)
    {
      ExecStep(cfg, client.cluster, Renew(secret, role), left, client.oracle);
      RenewSecret(secret, role, left);
    }

    /** Loop 1: renew what expires and collect the orphans. */
    method RenewAll(secrets: seq<Secret>, rolesMap: map<string, Role>, ghost roles: seq<Role>, ghost rest: seq<Task>,
            ghost c0: Cluster, ghost plan: seq<Task>)
      returns (orphanSecrets: seq<Secret>)
      requires OnCourse(c0, plan, Renewals(secrets, roles) + rest)
      requires Known(secrets, roles) && RolesMapped(rolesMap, roles)
      modifies client`cluster, client`requests, client`log
      ensures OnCourse(c0, plan, rest) && client.cluster.next >= old(client.cluster.next)
      ensures orphanSecrets == Orphans(secrets, roles)
    {
      orphanSecrets := [];
      assert secrets[0..] == secrets;
      for i := 0 to |secrets|
        invariant orphanSecrets + Orphans(secrets[i..], roles) == Orphans(secrets, roles)
        invariant OnCourse(c0, plan, Renewals(secrets[i..], roles) + rest)
        invariant client.cluster.next >= old(client.cluster.next)
      {
        var secret := secrets[i];
        RenewalsStep(secrets, roles, i, rest);
        var owner := FindOwner(secret, rolesMap, roles);
        if owner.None? {
          orphanSecrets := orphanSecrets + [secret];
        } else {
          assert secret in secrets;
          RenewOnCourse(secret, owner.value, Renewals(secrets[i + 1..], roles) + rest, c0, plan);
        }
      }
      assert Renewals(secrets[|secrets|..], roles) + rest == rest;
    }

    /** Loop 2: delete the orphans. */
    method DropAll(orphanSecrets: seq<Secret>, ghost rest: seq<Task>, ghost c0: Cluster, ghost plan: seq<Task>)
      requires OnCourse(c0, plan, Drops(orphanSecrets) + rest)
      modifies client`cluster, client`requests, client`log
      ensures OnCourse(c0, plan, rest) && client.cluster.next >= old(client.cluster.next)
    {
      assert orphanSecrets[0..] == orphanSecrets;
      for i := 0 to |orphanSecrets|
        invariant OnCourse(c0, plan, Drops(orphanSecrets[i..]) + rest)
        invariant client.cluster.next >= old(client.cluster.next)
      {
        ghost var left := Drops(orphanSecrets[i + 1..]) + rest;
        DropsStep(orphanSecrets, i, rest);
        ExecStep(cfg, client.cluster, Drop(orphanSecrets[i]), left, client.oracle);
        DropSecret(orphanSecrets[i], left);
      }
      assert Drops(orphanSecrets[|orphanSecrets|..]) + rest == rest;
    }

    /** The body of loop 3. */
    method SettleRole(role: Role, held: Option<Secret>, ghost left: seq<Task>, ghost c0: Cluster, ghost plan: seq<Task>)
      requires OnCourse(c0, plan, WithSettle(role, held, left)) && RoleFits(role, role.key, client.cluster.next)
      requires held.Some? ==> SecretFits(held.value, role.key, client.cluster.next)
      modifies client`cluster, client`requests, client`log
      ensures OnCourse(c0, plan, left) && client.cluster.next >= old(client.cluster.next)
    {
      ExecStep(cfg, client.cluster, Settle(role, held), left, client.oracle);
      if held.None? {
        assert WithSettle(role, held, left) == [Settle(role, None)] + left;
        CreateForRole(role, left);
      } else {
        NoWorkNoEffect(cfg, client.cluster, role, held.value, client.oracle(role.key));
        assert !HasWork(role, held) ==> WithSettle(role, held, left) == left;
        UpdateRole(role, held.value, left);
      }
    }

    /** Loop 3: create, update or report, role by role. */
    method SettleAll(roles: seq<Role>, secretsMap: map<string, Secret>, ghost secrets: seq<Secret>, ghost c0: Cluster,
            ghost plan: seq<Task>)
      requires OnCourse(c0, plan, Settlements(roles, secrets)) && Known(secrets, roles)
      requires SecretsMapped(secretsMap, secrets)
      modifies client`cluster, client`requests, client`log
      ensures OnCourse(c0, plan, [])
    {
      assert roles[0..] == roles;
      for i := 0 to |roles|
        invariant OnCourse(c0, plan, Settlements(roles[i..], secrets))
        invariant client.cluster.next >= old(client.cluster.next)
      {
        var role := roles[i];
        assert role in roles;
        FindSecretIff(secrets, role.key);
        var held := if MapKey(role.key) in secretsMap then Some(secretsMap[MapKey(role.key)]) else None;
        assert held == FindSecret(secrets, role.key);
        SettlementsStep(roles, secrets, i);
        SettleRole(role, held, Settlements(roles[i + 1..], secrets), c0, plan);
      }
    }

    /** The two lists of a pass, or None when one of them fails. */
    method ListAll() returns (lists: Option<(seq<Secret>, seq<Role>)>)
      requires Agenda([])
      modifies client`cluster, client`requests, client`log
      ensures lists.Some? <==> !client.secretsFail && !client.rolesFail
      ensures lists.None? ==> Agenda([])
      ensures lists.Some? ==> Agenda(Plan(lists.value.0, lists.value.1)) && Known(lists.value.0, lists.value.1)
      ensures client.Alone() ==> client.cluster == old(client.cluster)
      ensures client.Alone() && lists.Some? ==>
                RoleReconcile.Listings(cfg, old(client.cluster), lists.value.0, lists.value.1)
    {
      lists := None;
      ghost var log0 := client.log;
      var secretList := client.ListSecrets(cfg.namespace, ROLE_OWNER_LABELS);
      ReplaySnoc(cfg, log0, client.log[|log0|]);
      if secretList.Some? {
        ListedFit(client.cluster, cfg.namespace, secretList.value);
        ghost var log1 := client.log;
        var roleList := client.ListRoles(cfg.namespace);
        ReplaySnoc(cfg, log1, client.log[|log1|]);
        if roleList.Some? {
          assert forall r :: r in roleList.value ==> RoleIsListed(client.cluster, cfg.namespace, r);
          lists := Some((secretList.value, roleList.value));
        }
      }
    }

    /** One pass. The lists it worked from come back as ghosts. */
    method Refresh() returns (ok: bool, ghost secrets: seq<Secret>, ghost roles: seq<Role>)
      requires Agenda([])
      modifies client`cluster, client`requests, client`log
      ensures Agenda([])
      ensures ok <==> !client.secretsFail && !client.rolesFail
      ensures client.Alone() && !ok ==> client.cluster == old(client.cluster)
      ensures client.Alone() && ok ==>
                && RoleReconcile.Listings(cfg, old(client.cluster), secrets, roles)
                && client.cluster == ExecAll(cfg, old(client.cluster), Plan(secrets, roles), client.oracle)
    {
      secrets, roles := [], [];
      var lists := ListAll();
      ok := lists.Some?;
      if ok {
        secrets, roles := lists.value.0, lists.value.1;
        WorkThrough(lists.value.0, lists.value.1);
      }
    }

    /** The lookup maps and the three loops. */
    method WorkThrough(secrets: seq<Secret>, roles: seq<Role>)
      requires Agenda(Plan(secrets, roles)) && Known(secrets, roles)
      modifies client`cluster, client`requests, client`log
      ensures Agenda([])
      ensures client.Alone() ==>
                client.cluster == ExecAll(cfg, old(client.cluster), Plan(secrets, roles), client.oracle)
    {
      ghost var c0, plan := client.cluster, Plan(secrets, roles);
      ghost var settlements := Settlements(roles, secrets);
      ghost var drops := Drops(Orphans(secrets, roles));
      PlanParts(secrets, roles);
      var secretsMap := MapSecrets(secrets);
      var rolesMap := MapRoles(roles);
      var orphanSecrets := RenewAll(secrets, rolesMap, roles, drops + settlements, c0, plan);
      DropAll(orphanSecrets, settlements, c0, plan);
      SettleAll(roles, secretsMap, secrets, c0, plan);
    }

    /** The controller's loop, for any number of passes, each with its own answers and failures. The
        clusters between the passes come back as a ghost. */
    method Run(passes: nat) returns (ghost trail: seq<Cluster>)
      requires Agenda([])
      modifies client`cluster, client`requests, client`log
      modifies client`oracle, client`secretsFail, client`rolesFail, client`pass
      ensures Agenda([]) && client.pass == old(client.pass) + passes
      ensures |trail| == passes + 1 && trail[0] == old(client.cluster) && trail[passes] == client.cluster
      ensures client.Alone() ==> Trail(cfg, trail, client.forecast, old(client.pass))
    {
      trail := [client.cluster];
      for i := 0 to passes
        invariant Agenda([]) && client.pass == old(client.pass) + i
        invariant |trail| == i + 1 && trail[0] == old(client.cluster) && trail[i] == client.cluster
        invariant client.Alone() ==> Trail(cfg, trail, client.forecast, old(client.pass))
      {
        RunPass();
        trail := trail + [client.cluster];
      }
    }

    method RunPass()
      requires Agenda([])
      modifies client`cluster, client`requests, client`log
      modifies client`oracle, client`secretsFail, client`rolesFail, client`pass
      ensures Agenda([]) && client.pass == old(client.pass) + 1
      ensures client.Alone() ==> LeadsOnce(cfg, old(client.cluster), client.forecast(old(client.pass)), client.cluster)
    {
      client.NextPass();
      ghost var secrets, roles;
      var ok;
      ok, secrets, roles := Refresh();
    }
  }

  /** A pass leads from one cluster to another; one whose lists fail leads nowhere. */
  ghost predicate LeadsOnce(cfg: Config, c: Cluster, w: Weather, d: Cluster) {
    if w.secretsFail || w.rolesFail then d == c else Convergence.Pass(cfg, c, w.oracle, d)
  }

  /** Each cluster comes from the one before by a pass in the weather of its number. */
  ghost predicate Trail(cfg: Config, trail: seq<Cluster>, forecast: nat -> Weather, from: nat) {
    forall i :: 0 <= i < |trail| - 1 ==> LeadsOnce(cfg, trail[i], forecast(from + i), trail[i + 1])
  }
}
