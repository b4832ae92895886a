/** AWSIAMRoleController.refresh as a value: the list of things one pass has to do, decided from
    the two lists it reads, and what each of them does to a cluster nobody else touches. */
module RolePass {
  import opened Options
  import opened Kube
  import opened Payload
  import SessionName
  import Text

  datatype Config = Config(namespace: string, refreshLimit: int, baseRoleARN: string, baseRoleARNPrefix: string)

  function Resolve(cfg: Config, reference: string): string {
    SessionName.Resolve(cfg.baseRoleARN, cfg.baseRoleARNPrefix, reference)
  }

  /** The reference a created secret carries, and the one isOwnedReference looks for. */
  function RefTo(r: Role): OwnerRef {
    OwnerRef(r.apiVersion, r.kind, r.key.name, r.uid)
  }

  predicate IsOwned(r: Role, s: Secret) {
    RefTo(r) in s.owners
  }

  /** A reference names a role by its API version, kind, name and UID. */
  ghost predicate RefersTo(ref: OwnerRef, r: Role) {
    ref.apiVersion == r.apiVersion && ref.kind == r.kind && ref.name == r.key.name && ref.uid == r.uid
  }

  lemma OwnedIff(r: Role, s: Secret)
    ensures IsOwned(r, s) <==> exists ref :: ref in s.owners && RefersTo(ref, r)
    ensures RefersTo(RefTo(r), r)
  {
    forall ref ensures RefersTo(ref, r) <==> ref == RefTo(r) {
    }
  }

  /** What a role reference resolves to: itself if it is an ARN already, else the base ARN and it. */
  ghost predicate ResolvesTo(cfg: Config, reference: string, arn: string) {
    arn == if cfg.baseRoleARNPrefix <= reference then reference else cfg.baseRoleARN + reference
  }

  // ---------------------------------------------------------------- what a pass writes

  /** A secret with fresh credentials for a role: new labels and data, everything else kept. */
  function Rewritten(s: Secret, r: Role, arn: string, i: Issued): Secret {
    s.(labels := r.labels + ROLE_OWNER_LABELS, data := RolePayload(arn, i, r.generation))
  }

  /** The secret created for a role; the API server assigns the UID and the version. */
  function NewSecret(r: Role, arn: string, i: Issued): Secret {
    Secret(r.key, r.labels + ROLE_OWNER_LABELS, [RefTo(r)], RolePayload(arn, i, r.generation), 0, 0)
  }

  function IssuedStatus(r: Role, arn: string, i: Issued): Status {
    Status(Some(r.generation), Text(arn), Some(i.expiration))
  }

  /** The status derived from a secret's data, when it is out of date and the expiry readable. */
  function StatusDue(r: Role, data: Data): Option<Status> {
    if r.status.observedGeneration == Some(r.generation) || ExpireOf(data).None? then None
    else
      var arn := if ROLE_ARN_KEY in data then data[ROLE_ARN_KEY] else Text("");
      Some(Status(Some(r.generation), arn, ExpireOf(data)))
  }

  // ---------------------------------------------------------------- the plan of a pass

  /** One unit of work: an iteration of loop 1 on an owned secret, of loop 2 on an orphan, or of
      loop 3 on a role and the copy of its secret in the snapshot. */
  datatype Task = Renew(secret: Secret, role: Role) | Drop(secret: Secret) | Settle(role: Role, held: Option<Secret>)

  function KeyOf(t: Task): Key {
    match t
    case Renew(s, _) => s.key
    case Drop(s) => s.key
    case Settle(r, _) => r.key
  }

  /** Lookup in `awsIAMRolesMap`: a later item overwrites an earlier one. */
  function FindRole(roles: seq<Role>, k: Key): Option<Role> {
    if |roles| == 0 then None
    else if roles[|roles| - 1].key == k then Some(roles[|roles| - 1])
    else FindRole(roles[..|roles| - 1], k)
  }

  /** Lookup in `secretsMap`. */
  function FindSecret(secrets: seq<Secret>, k: Key): Option<Secret> {
    if |secrets| == 0 then None
    else if secrets[|secrets| - 1].key == k then Some(secrets[|secrets| - 1])
    else FindSecret(secrets[..|secrets| - 1], k)
  }

  /** The listed role that owns a listed secret. */
  function OwnerOf(s: Secret, roles: seq<Role>): Option<Role> {
    match FindRole(roles, s.key)
    case None => None
    case Some(r) => if IsOwned(r, s) then Some(r) else None
  }

  function Renewals(secrets: seq<Secret>, roles: seq<Role>): seq<Task> {
    if |secrets| == 0 then []
    else
      var owner := OwnerOf(secrets[0], roles);
      (if owner.Some? then [Renew(secrets[0], owner.value)] else []) + Renewals(secrets[1..], roles)
  }

  function Orphans(secrets: seq<Secret>, roles: seq<Role>): seq<Secret> {
    if |secrets| == 0 then []
    else (if OwnerOf(secrets[0], roles).None? then [secrets[0]] else []) + Orphans(secrets[1..], roles)
  }

  function Drops(orphans: seq<Secret>): seq<Task> {
    if |orphans| == 0 then [] else [Drop(orphans[0])] + Drops(orphans[1..])
  }

  /** Whether an iteration of loop 3 asks for anything at all. */
  predicate HasWork(r: Role, held: Option<Secret>) {
    match held
    case None => true
    case Some(s) =>
      var g := GenerationOf(s.data);
      g.Some? && (g.value != r.generation || StatusDue(r, s.data).Some?)
  }

  function Settlements(roles: seq<Role>, secrets: seq<Secret>): seq<Task> {
    if |roles| == 0 then []
    else
      var held := FindSecret(secrets, roles[0].key);
      (if HasWork(roles[0], held) then [Settle(roles[0], held)] else []) + Settlements(roles[1..], secrets)
  }

  /** The three loops in order. All of it is fixed by the two lists. */
  function Plan(secrets: seq<Secret>, roles: seq<Role>): seq<Task> {
    Renewals(secrets, roles) + Drops(Orphans(secrets, roles)) + Settlements(roles, secrets)
  }

  // ---------------------------------------------------------------- running it alone

  /** The requests of a pass about one object, by the place in the source that makes them. */
  datatype Site = RenewAsk | RenewPut | RenewReport | DropSite | SettleAsk | SettlePut | SettleReport

  /** Everything from outside that a pass can meet at one namespace/name key: the clock at the
      expiry test, what STS answers (None is a failure), and the fate of each API request. */
  datatype Answers = Answers(
    now: int, renewAsk: Option<Issued>, renewPut: Fault, renewReport: Fault, drop: Fault,
    settleAsk: Option<Issued>, settlePut: Fault, settleReport: Fault)

  type Oracle = Key -> Answers

  function AskAt(a: Answers, site: Site): Option<Issued> {
    if site == RenewAsk then a.renewAsk else a.settleAsk
  }

  function FaultAt(a: Answers, site: Site): Fault {
    match site
    case RenewPut => a.renewPut
    case RenewReport => a.renewReport
    case DropSite => a.drop
    case SettlePut => a.settlePut
    case _ => a.settleReport
  }

  function Report(c: Cluster, r: Role, st: Status, f: Fault): Cluster {
    Answered(f, c, UpdateStatus(c, r.(status := st))).0
  }

  /** An iteration of loop 1 on an owned secret, and its part with the credentials in hand. */
  function ExecRenew(cfg: Config, c: Cluster, s: Secret, r: Role, a: Answers): Cluster {
    if !NeedsRefresh(s.data, a.now, cfg.refreshLimit) || a.renewAsk.None? then c
    else ExecRenewed(c, s, r, Resolve(cfg, r.spec.roleReference), a.renewAsk.value, a)
  }

  function ExecRenewed(c: Cluster, s: Secret, r: Role, arn: string, i: Issued, a: Answers): Cluster {
    var put := Answered(a.renewPut, c, UpdateSecret(c, Rewritten(s, r, arn, i)));
    if put.1 then Report(put.0, r, IssuedStatus(r, arn, i), a.renewReport) else put.0
  }

  /** An iteration of loop 3 on a role without a secret in the snapshot. */
  function ExecCreate(cfg: Config, c: Cluster, r: Role, a: Answers): Cluster {
    if a.settleAsk.None? then c
    else ExecCreated(c, r, Resolve(cfg, r.spec.roleReference), a.settleAsk.value, a)
  }

  function ExecCreated(c: Cluster, r: Role, arn: string, i: Issued, a: Answers): Cluster {
    var put := Answered(a.settlePut, c, CreateSecret(c, NewSecret(r, arn, i)));
    if put.1 then Report(put.0, r, IssuedStatus(r, arn, i), a.settleReport) else put.0
  }

  /** An iteration of loop 3 on a role with one. */
  function ExecUpdate(cfg: Config, c: Cluster, r: Role, s: Secret, a: Answers): Cluster {
    if GenerationOf(s.data).None? then c
    else if GenerationOf(s.data).value == r.generation then ReportDue(c, r, s.data, a.settleReport)
    else if a.settleAsk.None? then c
    else ExecRewritten(c, r, s, Resolve(cfg, r.spec.roleReference), a.settleAsk.value, a)
  }

  function ExecRewritten(c: Cluster, r: Role, s: Secret, arn: string, i: Issued, a: Answers): Cluster {
    var s' := Rewritten(s, r, arn, i);
    var put := Answered(a.settlePut, c, UpdateSecret(c, s'));
    if put.1 then ReportDue(put.0, r, s'.data, a.settleReport) else put.0
  }

  function ExecTask(cfg: Config, c: Cluster, t: Task, a: Answers): Cluster {
    match t
    case Renew(s, r) => ExecRenew(cfg, c, s, r, a)
    case Drop(s) => Answered(a.drop, c, DeleteSecret(c, s.key)).0
    case Settle(r, held) => if held.None? then ExecCreate(cfg, c, r, a) else ExecUpdate(cfg, c, r, held.value, a)
  }

  function ReportDue(c: Cluster, r: Role, data: Data, f: Fault): Cluster {
    var due := StatusDue(r, data);
    if due.Some? then Report(c, r, due.value, f) else c
  }

  function ExecAll(cfg: Config, c: Cluster, tasks: seq<Task>, o: Oracle): Cluster
    decreases |tasks|
  {
    if |tasks| == 0 then c
    else ExecAll(cfg, ExecTask(cfg, c, tasks[0], o(KeyOf(tasks[0]))), tasks[1..], o)
  }

  lemma {:induction false} ExecAppend(cfg: Config, c: Cluster, a: seq<Task>, b: seq<Task>, o: Oracle)
    ensures ExecAll(cfg, c, a + b, o) == ExecAll(cfg, ExecAll(cfg, c, a, o), b, o)
    decreases |a|
  {
    if |a| == 0 {
      assert a + b == b;
    } else {
      assert (a + b)[1..] == a[1..] + b;
      ExecAppend(cfg, ExecTask(cfg, c, a[0], o(KeyOf(a[0]))), a[1..], b, o);
    }
  }

  // ---------------------------------------------------------------- frames

  ghost predicate SameCell(c: Cluster, d: Cluster, k: Key) {
    && (k in c.secrets <==> k in d.secrets) && (k in c.secrets ==> c.secrets[k] == d.secrets[k])
    && (k in c.roles <==> k in d.roles) && (k in c.roles ==> c.roles[k] == d.roles[k])
  }

  /** The secrets and roles inside a task are ones the API server has handed out. */
  ghost predicate TaskFits(t: Task, next: nat) {
    match t
    case Renew(s, r) => SecretFits(s, s.key, next) && RoleFits(r, r.key, next) && r.key == s.key
    case Drop(s) => SecretFits(s, s.key, next)
    case Settle(r, held) =>
      && RoleFits(r, r.key, next)
      && (held.Some? ==> SecretFits(held.value, r.key, next))
  }

  /** `d` came from `c` by requests about the key `at`: still well formed, and every other key as
      it was. */
  ghost predicate OnlyAt(c: Cluster, d: Cluster, at: Key) {
    WellFormed(d) && d.next >= c.next && forall k :: k != at ==> SameCell(d, c, k)
  }

  lemma OnlyAtTransitive(c: Cluster, d: Cluster, e: Cluster, at: Key)
    requires OnlyAt(c, d, at) && OnlyAt(d, e, at)
    ensures OnlyAt(c, e, at)
  {
    forall k | k != at ensures SameCell(e, c, k) {
      assert SameCell(d, c, k) && SameCell(e, d, k);
    }
  }

  /** A task leaves every other key alone. */
  lemma TaskFrame(cfg: Config, c: Cluster, t: Task, a: Answers)
    requires WellFormed(c) && TaskFits(t, c.next)
    ensures OnlyAt(c, ExecTask(cfg, c, t, a), KeyOf(t))
  {
    match t
    case Renew(s, r) => RenewFrame(cfg, c, s, r, a);
    case Drop(s) =>
    case Settle(r, held) => SettleFrame(cfg, c, r, held, a);
  }

  lemma SettleFrame(cfg: Config, c: Cluster, r: Role, held: Option<Secret>, a: Answers)
    requires WellFormed(c) && TaskFits(Settle(r, held), c.next)
    ensures OnlyAt(c, ExecTask(cfg, c, Settle(r, held), a), r.key)
  {
    if held.None? {
      CreateTaskFrame(cfg, c, r, a);
    } else {
      UpdateFrame(cfg, c, r, held.value, a);
    }
  }

  lemma RenewFrame(cfg: Config, c: Cluster, s: Secret, r: Role, a: Answers)
    requires WellFormed(c) && SecretFits(s, s.key, c.next) && r.key == s.key
    ensures OnlyAt(c, ExecRenew(cfg, c, s, r, a), s.key)
  {
    if a.renewAsk.Some? {
      var arn, i := Resolve(cfg, r.spec.roleReference), a.renewAsk.value;
      PutFrame(c, Rewritten(s, r, arn, i), a.renewPut);
      var put := Answered(a.renewPut, c, UpdateSecret(c, Rewritten(s, r, arn, i)));
      ReportFrame(c, put.0, r, IssuedStatus(r, arn, i), a.renewReport);
    }
  }

  lemma CreateTaskFrame(cfg: Config, c: Cluster, r: Role, a: Answers)
    requires WellFormed(c) && RoleFits(r, r.key, c.next)
    ensures OnlyAt(c, ExecCreate(cfg, c, r, a), r.key)
  {
    if a.settleAsk.Some? {
      var arn, i := Resolve(cfg, r.spec.roleReference), a.settleAsk.value;
      CreateFrame(c, NewSecret(r, arn, i), a.settlePut);
      var put := Answered(a.settlePut, c, CreateSecret(c, NewSecret(r, arn, i)));
      ReportFrame(c, put.0, r, IssuedStatus(r, arn, i), a.settleReport);
    }
  }

  lemma UpdateFrame(cfg: Config, c: Cluster, r: Role, s: Secret, a: Answers)
    requires WellFormed(c) && SecretFits(s, s.key, c.next) && r.key == s.key
    ensures OnlyAt(c, ExecUpdate(cfg, c, r, s, a), r.key)
  {
    ReportDueFrame(c, c, r, s.data, a.settleReport);
    if a.settleAsk.Some? {
      var s' := Rewritten(s, r, Resolve(cfg, r.spec.roleReference), a.settleAsk.value);
      PutFrame(c, s', a.settlePut);
      var put := Answered(a.settlePut, c, UpdateSecret(c, s'));
      ReportDueFrame(c, put.0, r, s'.data, a.settleReport);
    }
  }

  lemma PutFrame(c: Cluster, s: Secret, f: Fault)
    requires WellFormed(c) && SecretFits(s, s.key, c.next)
    ensures OnlyAt(c, Answered(f, c, UpdateSecret(c, s)).0, s.key)
  {
  }

  lemma CreateFrame(c: Cluster, s: Secret, f: Fault)
    requires WellFormed(c) && OwnersFit(s.owners, c.next) && Text.Lacks(s.key.ns, '/')
    ensures OnlyAt(c, Answered(f, c, CreateSecret(c, s)).0, s.key)
  {
  }

  lemma ReportFrame(c: Cluster, d: Cluster, r: Role, st: Status, f: Fault)
    requires OnlyAt(c, d, r.key)
    ensures OnlyAt(c, Report(d, r, st, f), r.key)
  {
    assert OnlyAt(d, Report(d, r, st, f), r.key);
    OnlyAtTransitive(c, d, Report(d, r, st, f), r.key);
  }

  lemma ReportDueFrame(c: Cluster, d: Cluster, r: Role, data: Data, f: Fault)
    requires OnlyAt(c, d, r.key)
    ensures OnlyAt(c, ReportDue(d, r, data, f), r.key)
  {
    var due := StatusDue(r, data);
    if due.Some? {
      ReportFrame(c, d, r, due.value, f);
    }
  }

  ghost predicate TasksFit(tasks: seq<Task>, next: nat) {
    forall t :: t in tasks ==> TaskFits(t, next)
  }

  lemma TaskFitsLater(t: Task, next: nat, next': nat)
    requires TaskFits(t, next) && next <= next'
    ensures TaskFits(t, next')
  {
  }

  ghost predicate NoneAbout(tasks: seq<Task>, k: Key) {
    forall t :: t in tasks ==> KeyOf(t) != k
  }

  lemma {:induction false} ExecFrame(cfg: Config, c: Cluster, tasks: seq<Task>, o: Oracle, k: Key)
    requires WellFormed(c) && TasksFit(tasks, c.next)
    ensures WellFormed(ExecAll(cfg, c, tasks, o)) && ExecAll(cfg, c, tasks, o).next >= c.next
    ensures NoneAbout(tasks, k) ==> SameCell(ExecAll(cfg, c, tasks, o), c, k)
    decreases |tasks|
  {
    if |tasks| > 0 {
      var t := tasks[0];
      var d := ExecTask(cfg, c, t, o(KeyOf(t)));
      TaskFrame(cfg, c, t, o(KeyOf(t)));
      TasksFitLater(tasks, c.next, d.next);
      ExecFrame(cfg, d, tasks[1..], o, k);
      if NoneAbout(tasks, k) {
        assert k != KeyOf(t) && SameCell(d, c, k);
        assert NoneAbout(tasks[1..], k);
      }
    }
  }

  lemma TasksFitLater(tasks: seq<Task>, next: nat, next': nat)
    requires TasksFit(tasks, next) && next <= next'
    ensures TasksFit(tasks, next')
  {
    forall t | t in tasks ensures TaskFits(t, next') {
      TaskFitsLater(t, next, next');
    }
  }

  ghost predicate DistinctKeys(tasks: seq<Task>) {
    forall i, j :: 0 <= i < j < |tasks| ==> KeyOf(tasks[i]) != KeyOf(tasks[j])
  }

  /** In a loop that meets a key once, the key sees that one task and nothing else. */
  lemma SegmentAt(cfg: Config, c: Cluster, tasks: seq<Task>, o: Oracle, i: nat) returns (mid: Cluster)
    requires WellFormed(c) && TasksFit(tasks, c.next) && DistinctKeys(tasks) && i < |tasks|
    ensures WellFormed(mid) && mid.next >= c.next && SameCell(mid, c, KeyOf(tasks[i]))
    ensures SameCell(ExecAll(cfg, c, tasks, o), ExecTask(cfg, mid, tasks[i], o(KeyOf(tasks[i]))), KeyOf(tasks[i]))
    ensures ExecAll(cfg, c, tasks, o).next >= ExecTask(cfg, mid, tasks[i], o(KeyOf(tasks[i]))).next
    ensures WellFormed(ExecAll(cfg, c, tasks, o))
  {
    var t, k := tasks[i], KeyOf(tasks[i]);
    OthersElsewhere(tasks, i);
    mid := ExecAll(cfg, c, tasks[..i], o);
    ExecFrame(cfg, c, tasks[..i], o, k);
    TaskFitsLater(t, c.next, mid.next);
    TaskFrame(cfg, mid, t, o(k));
    var after := ExecTask(cfg, mid, t, o(k));
    TasksFitLater(tasks, c.next, after.next);
    ExecFrame(cfg, after, tasks[i + 1..], o, k);
    ExecSplit(cfg, c, tasks, o, i);
  }

  lemma OthersElsewhere(tasks: seq<Task>, i: nat)
    requires DistinctKeys(tasks) && i < |tasks|
    ensures NoneAbout(tasks[..i], KeyOf(tasks[i])) && NoneAbout(tasks[i + 1..], KeyOf(tasks[i]))
  {
  }

  lemma ExecSplit(cfg: Config, c: Cluster, tasks: seq<Task>, o: Oracle, i: nat)
    requires i < |tasks|
    ensures ExecAll(cfg, c, tasks, o)
         == ExecAll(cfg, ExecTask(cfg, ExecAll(cfg, c, tasks[..i], o), tasks[i], o(KeyOf(tasks[i]))), tasks[i + 1..], o)
  {
    var tail := [tasks[i]] + tasks[i + 1..];
    assert tasks == tasks[..i] + tail;
    ExecAppend(cfg, c, tasks[..i], tail, o);
    assert tail[1..] == tasks[i + 1..];
  }

  // ---------------------------------------------------------------- the plan's members

  lemma {:induction false} FindRoleIff(roles: seq<Role>, k: Key)
    ensures FindRole(roles, k).Some? ==> FindRole(roles, k).value in roles && FindRole(roles, k).value.key == k
    ensures FindRole(roles, k).None? ==> forall r :: r in roles ==> r.key != k
    ensures UniqueRoles(roles) ==> forall r :: r in roles && r.key == k ==> FindRole(roles, k) == Some(r)
  {
    if |roles| > 0 {
      FindRoleIff(roles[..|roles| - 1], k);
    }
  }

  lemma {:induction false} FindSecretIff(secrets: seq<Secret>, k: Key)
    ensures FindSecret(secrets, k).Some? ==>
              FindSecret(secrets, k).value in secrets && FindSecret(secrets, k).value.key == k
    ensures FindSecret(secrets, k).None? ==> forall s :: s in secrets ==> s.key != k
    ensures UniqueSecrets(secrets) ==> forall s :: s in secrets && s.key == k ==> FindSecret(secrets, k) == Some(s)
  {
    if |secrets| > 0 {
      FindSecretIff(secrets[..|secrets| - 1], k);
    }
  }

  lemma {:induction false} RenewalsMembers(secrets: seq<Secret>, roles: seq<Role>)
    ensures forall t :: t in Renewals(secrets, roles) <==>
              t.Renew? && t.secret in secrets && OwnerOf(t.secret, roles) == Some(t.role)
    ensures UniqueSecrets(secrets) ==> DistinctKeys(Renewals(secrets, roles))
  {
    if |secrets| > 0 {
      RenewalsMembers(secrets[1..], roles);
      var rest := Renewals(secrets[1..], roles);
      assert forall s :: s in secrets <==> s == secrets[0] || s in secrets[1..];
      if UniqueSecrets(secrets) {
        forall j | 0 <= j < |rest| ensures KeyOf(rest[j]) != secrets[0].key {
          assert rest[j] in rest;
        }
      }
    }
  }

  lemma {:induction false} OrphansMembers(secrets: seq<Secret>, roles: seq<Role>)
    ensures forall s :: s in Orphans(secrets, roles) <==> s in secrets && OwnerOf(s, roles).None?
    ensures UniqueSecrets(secrets) ==> UniqueSecrets(Orphans(secrets, roles))
  {
    if |secrets| > 0 {
      OrphansMembers(secrets[1..], roles);
      var rest := Orphans(secrets[1..], roles);
      assert forall s :: s in secrets <==> s == secrets[0] || s in secrets[1..];
      if UniqueSecrets(secrets) {
        forall j | 0 <= j < |rest| ensures rest[j].key != secrets[0].key {
          assert rest[j] in rest;
        }
      }
    }
  }

  lemma {:induction false} DropsMembers(orphans: seq<Secret>)
    ensures |Drops(orphans)| == |orphans|
    ensures forall i :: 0 <= i < |orphans| ==> Drops(orphans)[i] == Drop(orphans[i])
  {
    if |orphans| > 0 {
      DropsMembers(orphans[1..]);
    }
  }

  lemma {:induction false} SettlementsMembers(roles: seq<Role>, secrets: seq<Secret>)
    ensures forall t :: t in Settlements(roles, secrets) <==>
              t.Settle? && t.role in roles && t.held == FindSecret(secrets, t.role.key) && HasWork(t.role, t.held)
    ensures UniqueRoles(roles) ==> DistinctKeys(Settlements(roles, secrets))
  {
    if |roles| > 0 {
      SettlementsMembers(roles[1..], secrets);
      var rest := Settlements(roles[1..], secrets);
      assert forall r :: r in roles <==> r == roles[0] || r in roles[1..];
      if UniqueRoles(roles) {
        forall j | 0 <= j < |rest| ensures KeyOf(rest[j]) != roles[0].key {
          assert rest[j] in rest;
        }
      }
    }
  }
}
