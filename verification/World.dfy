/** Both controllers at once, one API call at a time, with everybody else: users who edit roles and
    own other secrets, the passage of time, and crashes. */
module Worlds {
  import opened Options
  import opened Kube
  import opened Payload
  import opened Events
  import opened Decimal
  import R = RolePass
  import RM = RoleMachine
  import S = StorePass
  import SM = StoreMachine
  import Text

  /** AWSIAMRoleController, SecretsController, and everybody else. */
  datatype Actor = RoleSide | StoreSide | Others

  datatype Setup = Setup(role: R.Config, store: S.Config)

  /** The cluster, the clock, where each controller stands in its pass, and some history: which
      actor created the secret with a given UID, when a secret last passed a check or was written,
      when the role side last asked STS, and when the store side's pass began. */
  datatype World = World(
    c: Cluster, now: int, a: RM.Local, b: SM.Local,
    made: map<nat, Actor>, checked: map<Key, int>, askedAt: int, scanAt: int)

  datatype Action =
    | Request(who: Actor, e: Event, fault: Fault)
    | NewRole(role: Role)
    | EditSpec(key: Key, spec: Spec)
    | EditLabels(key: Key, labels: Labels)
    | DropRole(key: Key)
    | PutOther(secret: Secret)
    | DropOther(key: Key)
    | Tick(to: int)
    | Restart(who: Actor)

  // ---------------------------------------------------------------- whose secret it is

  /** Whom a secret belongs to: one with the heritage label and an owner to the role side, one with
      the label and no owner to the store side. */
  function Whose(s: Secret): Actor {
    if !Selected(s.labels, OWNER_LABELS) then Others
    else if s.owners != [] then RoleSide
    else StoreSide
  }

  /** With the heritage label, carrying the `type` label and having an owner come to the same. */
  predicate Coincides(s: Secret) {
    Selected(s.labels, OWNER_LABELS) ==> (Selected(s.labels, ROLE_OWNER_LABELS) <==> s.owners != [])
  }

  // ---------------------------------------------------------------- requests

  function After(c: Cluster, e: Event, f: Fault): Cluster {
    match e
    case SecretPut(s, _) => Answered(f, c, UpdateSecret(c, s)).0
    case SecretMade(s, _) => Answered(f, c, CreateSecret(c, s)).0
    case SecretRemoved(k, _) => Answered(f, c, DeleteSecret(c, k)).0
    case StatusPut(r, _) => Answered(f, c, UpdateStatus(c, r)).0
    case _ => c
  }

  /** The controller hears what the API server and the clock say. STS and the role store may say
      anything. */
  ghost predicate Heard(scope: string, w: World, e: Event, f: Fault) {
    match e
    case SecretsListed(selector, items) => items.Some? ==> SecretListing(w.c, scope, selector, items.value)
    case RolesListed(items) => items.Some? ==> RoleListing(w.c, scope, items.value)
    case ClockRead(now) => now == w.now
    case SecretPut(s, ok) => ok == Answered(f, w.c, UpdateSecret(w.c, s)).1
    case SecretMade(s, ok) => ok == Answered(f, w.c, CreateSecret(w.c, s)).1
    case SecretRemoved(k, ok) => ok == Answered(f, w.c, DeleteSecret(w.c, k)).1
    case StatusPut(r, ok) => ok == Answered(f, w.c, UpdateStatus(w.c, r)).1
    case Looked(_, _, _) => true
    case Asked(_, _, _) => true
    case StoreRead(work) => S.SlashFreeWork(work)
  }

  // ---------------------------------------------------------------- everybody else

  /** The resource schema: a session lasts 15 minutes to 12 hours, or is left to the default. */
  predicate Schema(spec: Spec) {
    spec.roleSessionDuration == 0 || 900 <= spec.roleSessionDuration <= 43200
  }

  function Observed(r: Role): int {
    if r.status.observedGeneration.None? then 0 else r.status.observedGeneration.value
  }

  function PutRole(c: Cluster, r: Role): Cluster {
    c.(roles := c.roles[r.key := r.(resourceVersion := c.next)], next := c.next + 1)
  }

  // ---------------------------------------------------------------- runs

  ghost predicate Enabled(cfg: Setup, w: World, act: Action) {
    match act
    case Request(who, e, f) =>
      (who == RoleSide && RM.Step(cfg.role, w.a, e).Some? && Heard(cfg.role.namespace, w, e, f)) ||
      (who == StoreSide && SM.Step(cfg.store, w.b, e).Some? && Heard(cfg.store.namespace, w, e, f))
    case NewRole(r) =>
      && r.key !in w.c.roles && Text.Lacks(r.key.ns, '/') && r.uid == w.c.next
      && r.generation == 1 && r.status.observedGeneration.None? && Schema(r.spec)
    case EditSpec(k, spec) => k in w.c.roles && Schema(spec) && IsInt64(w.c.roles[k].generation + 1)
    case EditLabels(k, _) => k in w.c.roles
    case DropRole(k) => k in w.c.roles
    case PutOther(s) =>
      && Whose(s) == Others && Text.Lacks(s.key.ns, '/') && OwnersFit(s.owners, w.c.next)
      && (if s.key in w.c.secrets then Whose(w.c.secrets[s.key]) == Others && s.uid == w.c.secrets[s.key].uid
          else s.uid == w.c.next)
    case DropOther(k) => k in w.c.secrets && Whose(w.c.secrets[k]) == Others
    case Tick(to) => to >= w.now
    case Restart(_) => true
  }

  function Next(cfg: Setup, w: World, act: Action): World {
    match act
    case Request(who, e, f) =>
      var c := After(w.c, e, f);
      var v := w.(c := c, made := Making(w, who, e, c), checked := Checking(cfg, w, who, e, c));
      if who == RoleSide && RM.Step(cfg.role, w.a, e).Some? then
        v.(a := RM.Step(cfg.role, w.a, e).value, askedAt := if e.Asked? then w.now else w.askedAt)
      else if who == StoreSide && SM.Step(cfg.store, w.b, e).Some? then
        v.(b := SM.Step(cfg.store, w.b, e).value, scanAt := if e.SecretsListed? then w.now else w.scanAt)
      else w
    case NewRole(r) => w.(c := PutRole(w.c, r))
    case EditSpec(k, spec) =>
      if k !in w.c.roles then w
      else w.(c := PutRole(w.c, w.c.roles[k].(spec := spec, generation := w.c.roles[k].generation + 1)))
    case EditLabels(k, labels) =>
      if k !in w.c.roles then w else w.(c := PutRole(w.c, w.c.roles[k].(labels := labels)))
    case DropRole(k) => w.(c := w.c.(roles := w.c.roles - {k}))
    case PutOther(s) =>
      w.(c := w.c.(secrets := w.c.secrets[s.key := s.(resourceVersion := w.c.next)], next := w.c.next + 1),
         made := w.made[s.uid := Others])
    case DropOther(k) => w.(c := w.c.(secrets := w.c.secrets - {k}))
    case Tick(to) => w.(now := to)
    case Restart(who) =>
      if who == RoleSide then w.(a := RM.Idle) else if who == StoreSide then w.(b := SM.Idle) else w
  }

  /** A request that creates a secret makes its sender the maker. */
  function Making(w: World, who: Actor, e: Event, c: Cluster): map<nat, Actor> {
    if e.SecretMade? && c.next != w.c.next then w.made[w.c.next := who] else w.made
  }

  /** A passed expiry test is a successful check now; a write is one as of the time the credentials
      were asked for, or as of the start of the pass that cached them. */
  function Checking(cfg: Setup, w: World, who: Actor, e: Event, c: Cluster): map<Key, int> {
    if (e.SecretPut? || e.SecretMade?) && c.next != w.c.next then
      w.checked[e.secret.key := if who == RoleSide then w.askedAt else w.scanAt]
    else if e.ClockRead? && who == RoleSide && w.a.Running? && |w.a.tasks| > 0 && w.a.tasks[0].Renew? then
      Passing(w.checked, w.a.tasks[0].secret, e.now, cfg.role.refreshLimit)
    else if e.ClockRead? && who == StoreSide && w.b.Scanning? && |w.b.todo| > 0 then
      Passing(w.checked, w.b.todo[0], e.now, cfg.store.refreshLimit)
    else w.checked
  }

  function Passing(checked: map<Key, int>, s: Secret, now: int, limit: int): map<Key, int> {
    if NeedsRefresh(s.data, now, limit) then checked else checked[s.key := now]
  }

  function Reached(cfg: Setup, w: World, acts: seq<Action>): World {
    if |acts| == 0 then w else Next(cfg, Reached(cfg, w, acts[..|acts| - 1]), acts[|acts| - 1])
  }

  ghost predicate Possible(cfg: Setup, w: World, acts: seq<Action>) {
    |acts| > 0 ==>
      && Possible(cfg, w, acts[..|acts| - 1])
      && Enabled(cfg, Reached(cfg, w, acts[..|acts| - 1]), acts[|acts| - 1])
  }

  /** A start: both controllers between passes, on a cluster where label and owner coincide. */
  ghost predicate Start(w: World) {
    && w.a == RM.Idle && w.b == SM.Idle && WellFormed(w.c)
    && (forall k :: k in w.c.secrets ==> Coincides(w.c.secrets[k]) && MadeBy(w.made, w.c.secrets[k]))
  }

  ghost predicate MadeBy(made: map<nat, Actor>, s: Secret) {
    s.uid in made && made[s.uid] == Whose(s)
  }
}
