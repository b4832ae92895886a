/** The two controllers keep out of each other's way: in every interleaving, whatever fails and
    whatever everybody else does, neither ever updates or deletes a secret the other created. */
module Separation {
  import opened Options
  import opened Kube
  import opened Payload
  import opened Events
  import opened RolePass
  import opened Worlds
  import RM = RoleMachine
  import SM = StoreMachine
  import StorePass
  import StoreExact
  import RoleTrace
  import Text

  // ---------------------------------------------------------------- snapshots

  /** The copy is what the API server stores. */
  ghost predicate Stored(c: Cluster, s: Secret) {
    s.key in c.secrets && c.secrets[s.key] == s
  }

  /** The copy was handed out by the API server; its version stands for nothing else. */
  ghost predicate Snapshot(c: Cluster, s: Secret) {
    && SecretFits(s, s.key, c.next)
    && (s.key in c.secrets && c.secrets[s.key].resourceVersion == s.resourceVersion ==> Stored(c, s))
  }

  ghost predicate CopyOf(who: Actor, c: Cluster, s: Secret) {
    Whose(s) == who && Coincides(s) && Snapshot(c, s)
  }

  /** What the role side relies on for a task; a secret yet to be renewed or dropped is unchanged. */
  ghost predicate TaskSound(c: Cluster, t: Task, due: bool) {
    match t
    case Renew(s, r) => CopyOf(RoleSide, c, s) && RoleFits(r, s.key, c.next) && (due ==> Stored(c, s))
    case Drop(s) => CopyOf(RoleSide, c, s) && (due ==> Stored(c, s))
    case Settle(r, held) =>
      RoleFits(r, r.key, c.next) && (held.Some? ==> CopyOf(RoleSide, c, held.value) && held.value.key == r.key)
  }

  ghost predicate TasksSound(c: Cluster, tasks: seq<Task>) {
    forall i :: 0 <= i < |tasks| ==> TaskSound(c, tasks[i], true)
  }

  /** Renewals and deletions come first and name no key twice. */
  ghost predicate Ordered(tasks: seq<Task>) {
    forall i, j :: 0 <= i < j < |tasks| && !tasks[j].Settle? ==> !tasks[i].Settle? && KeyOf(tasks[i]) != KeyOf(tasks[j])
  }

  ghost predicate RoleLocal(c: Cluster, a: RM.Local) {
    match a
    case Idle => true
    case HaveSecrets(secrets) =>
      UniqueSecrets(secrets) && forall s :: s in secrets ==> CopyOf(RoleSide, c, s) && Stored(c, s)
    case Running(tasks, stage) =>
      && |tasks| > 0 && Ordered(tasks)
      && TaskSound(c, tasks[0], !stage.Reporting?) && TasksSound(c, tasks[1..])
  }

  ghost predicate StoreLocal(c: Cluster, b: SM.Local) {
    match b
    case Idle => true
    case Scanning(todo, _, _, _) =>
      && |todo| > 0 && UniqueSecrets(todo)
      && forall s :: s in todo ==> CopyOf(StoreSide, c, s) && Stored(c, s)
    case Scanned(_, _) => true
    case Wanting(work, _, _) => StorePass.SlashFreeWork(work)
    case Making(_, namespaces, _, work, _, _) => StorePass.SlashFree(namespaces) && StorePass.SlashFreeWork(work)
  }

  ghost predicate Cleared(w: World, s: Secret) {
    Coincides(s) && MadeBy(w.made, s)
  }

  ghost predicate Inv(w: World) {
    && WellFormed(w.c)
    && (forall k :: k in w.c.secrets ==> Cleared(w, w.c.secrets[k]))
    && RoleLocal(w.c, w.a) && StoreLocal(w.c, w.b)
  }

  // ---------------------------------------------------------------- what an actor may do to secrets

  ghost predicate Unchanged(c: Cluster, d: Cluster, k: Key) {
    k in c.secrets && k in d.secrets && c.secrets[k] == d.secrets[k]
  }

  ghost predicate NewFrom(who: Actor, s: Secret, next: nat) {
    Whose(s) == who && s.resourceVersion >= next
  }

  /** An actor changes or removes only its own secrets, and adds only such. */
  ghost predicate Behaves(who: Actor, c: Cluster, d: Cluster) {
    && d.next >= c.next
    && (forall k :: k in c.secrets ==> Unchanged(c, d, k) || Whose(c.secrets[k]) == who)
    && (forall k :: k in d.secrets ==> Unchanged(c, d, k) || NewFrom(who, d.secrets[k], c.next))
  }

  lemma CopyStable(who: Actor, c: Cluster, d: Cluster, mine: Actor, s: Secret)
    requires Behaves(who, c, d) && CopyOf(mine, c, s)
    ensures CopyOf(mine, d, s)
    ensures who != mine && Stored(c, s) ==> Stored(d, s)
  {
    assert s.key in d.secrets ==> Unchanged(c, d, s.key) || NewFrom(who, d.secrets[s.key], c.next);
    assert s.key in c.secrets ==> Unchanged(c, d, s.key) || Whose(c.secrets[s.key]) == who;
  }

  lemma TaskStable(who: Actor, c: Cluster, d: Cluster, t: Task, due: bool)
    requires Behaves(who, c, d) && who != RoleSide && TaskSound(c, t, due)
    ensures TaskSound(d, t, due)
  {
    match t
    case Renew(s, r) => CopyStable(who, c, d, RoleSide, s);
    case Drop(s) => CopyStable(who, c, d, RoleSide, s);
    case Settle(r, held) =>
      if held.Some? {
        CopyStable(who, c, d, RoleSide, held.value);
      }
  }

  lemma RoleLocalStable(who: Actor, c: Cluster, d: Cluster, a: RM.Local)
    requires Behaves(who, c, d) && who != RoleSide && RoleLocal(c, a)
    ensures RoleLocal(d, a)
  {
    match a
    case Idle =>
    case HaveSecrets(secrets) =>
      forall s | s in secrets ensures CopyOf(RoleSide, d, s) && Stored(d, s) {
        CopyStable(who, c, d, RoleSide, s);
      }
    case Running(tasks, stage) =>
      TaskStable(who, c, d, tasks[0], !stage.Reporting?);
      forall i | 0 <= i < |tasks[1..]| ensures TaskSound(d, tasks[1..][i], true) {
        TaskStable(who, c, d, tasks[1..][i], true);
      }
  }

  lemma StoreLocalStable(who: Actor, c: Cluster, d: Cluster, b: SM.Local)
    requires Behaves(who, c, d) && who != StoreSide && StoreLocal(c, b)
    ensures StoreLocal(d, b)
  {
    if b.Scanning? {
      forall s | s in b.todo ensures CopyOf(StoreSide, d, s) && Stored(d, s) {
        CopyStable(who, c, d, StoreSide, s);
      }
    }
  }

  // ---------------------------------------------------------------- one request at one key

  /** A request of `who` that touched at most its own secret at `k`. */
  ghost predicate TouchedAt(who: Actor, c: Cluster, d: Cluster, k: Key) {
    && WellFormed(d) && d.next >= c.next
    && (forall j :: j != k ==>
          (j in c.secrets <==> j in d.secrets) && (j in c.secrets ==> c.secrets[j] == d.secrets[j]))
    && (k in c.secrets ==> Unchanged(c, d, k) || Whose(c.secrets[k]) == who)
    && (k in d.secrets ==> Unchanged(c, d, k) || Rewrote(who, c, d, k))
  }

  ghost predicate Rewrote(who: Actor, c: Cluster, d: Cluster, k: Key)
    requires k in d.secrets
  {
    var s := d.secrets[k];
    && Whose(s) == who && Coincides(s) && s.resourceVersion >= c.next
    && (k in c.secrets ==> s.uid == c.secrets[k].uid)
  }

  /** A key that had no secret and has one now was filled by a creation. */
  ghost predicate AddedBy(c: Cluster, d: Cluster, e: Event, k: Key) {
    k !in c.secrets && k in d.secrets ==> e.SecretMade? && d.next != c.next && d.secrets[k].uid == c.next
  }

  lemma TouchBehaves(who: Actor, c: Cluster, d: Cluster, k: Key)
    requires TouchedAt(who, c, d, k)
    ensures Behaves(who, c, d)
  {
    forall j | j in c.secrets ensures Unchanged(c, d, j) || Whose(c.secrets[j]) == who {
      assert j != k ==> j in d.secrets;
    }
    forall j | j in d.secrets ensures Unchanged(c, d, j) || NewFrom(who, d.secrets[j], c.next) {
      assert j != k ==> j in c.secrets;
    }
  }

  /** The cluster-wide part of the invariant after such a request. */
  lemma TouchCleared(w: World, who: Actor, e: Event, d: Cluster, k: Key, v: World)
    requires WellFormed(w.c) && forall j :: j in w.c.secrets ==> Cleared(w, w.c.secrets[j])
    requires TouchedAt(who, w.c, d, k) && AddedBy(w.c, d, e, k)
    requires v.c == d && v.made == Making(w, who, e, d)
    ensures forall j :: j in v.c.secrets ==> Cleared(v, v.c.secrets[j])
  {
    forall j | j in d.secrets ensures Cleared(v, d.secrets[j]) {
      if j in w.c.secrets {
        assert SecretFits(w.c.secrets[j], j, w.c.next) && Cleared(w, w.c.secrets[j]);
      }
    }
  }

  /** An Update with a copy goes through only where the copy is what is stored. */
  lemma PutTouches(who: Actor, c: Cluster, s: Secret, s': Secret, ok: bool, f: Fault)
    requires WellFormed(c) && CopyOf(who, c, s)
    requires s' == s.(labels := s'.labels, data := s'.data) && Whose(s') == who && Coincides(s')
    ensures TouchedAt(who, c, After(c, SecretPut(s', ok), f), s.key)
    ensures AddedBy(c, After(c, SecretPut(s', ok), f), SecretPut(s', ok), s.key)
  {
  }

  lemma MakeTouches(who: Actor, c: Cluster, s: Secret, ok: bool, f: Fault)
    requires WellFormed(c) && OwnersFit(s.owners, c.next) && Text.Lacks(s.key.ns, '/')
    requires Whose(s) == who && Coincides(s)
    ensures TouchedAt(who, c, After(c, SecretMade(s, ok), f), s.key)
    ensures AddedBy(c, After(c, SecretMade(s, ok), f), SecretMade(s, ok), s.key)
  {
  }

  lemma DropTouches(who: Actor, c: Cluster, s: Secret, ok: bool, f: Fault)
    requires WellFormed(c) && CopyOf(who, c, s) && Stored(c, s)
    ensures TouchedAt(who, c, After(c, SecretRemoved(s.key, ok), f), s.key)
    ensures AddedBy(c, After(c, SecretRemoved(s.key, ok), f), SecretRemoved(s.key, ok), s.key)
  {
  }

  lemma ReportTouches(who: Actor, c: Cluster, r: Role, ok: bool, f: Fault, k: Key)
    requires WellFormed(c)
    ensures TouchedAt(who, c, After(c, StatusPut(r, ok), f), k)
    ensures AddedBy(c, After(c, StatusPut(r, ok), f), StatusPut(r, ok), k)
  {
  }

  lemma ReadTouches(who: Actor, c: Cluster, e: Event, f: Fault, k: Key)
    requires WellFormed(c) && !e.SecretPut? && !e.SecretMade? && !e.SecretRemoved? && !e.StatusPut?
    ensures After(c, e, f) == c && TouchedAt(who, c, c, k) && AddedBy(c, c, e, k)
  {
  }

  // ---------------------------------------------------------------- the role side's steps

  lemma RoleLabels(labels: Labels)
    ensures Selected(labels + ROLE_OWNER_LABELS, OWNER_LABELS)
    ensures Selected(labels + ROLE_OWNER_LABELS, ROLE_OWNER_LABELS)
  {
  }

  /** What a role task rewrites is a copy it holds, or it makes a secret of its own. */
  lemma RoleWrites(cfg: Setup, c: Cluster, tasks: seq<Task>, stage: RM.Stage, e: Event)
    requires WellFormed(c) && RoleLocal(c, RM.Running(tasks, stage))
    requires RM.StepTask(cfg.role, tasks, stage, e).Some?
    ensures e.SecretPut? || e.SecretMade? ==>
              !tasks[0].Drop? && e.secret.key == KeyOf(tasks[0]) && Whose(e.secret) == RoleSide && Coincides(e.secret)
    ensures e.SecretPut? ==>
              var s := if tasks[0].Renew? then Some(tasks[0].secret) else tasks[0].held;
              s.Some? && e.secret == s.value.(labels := e.secret.labels, data := e.secret.data)
              && CopyOf(RoleSide, c, s.value)
    ensures e.SecretMade? ==> OwnersFit(e.secret.owners, c.next) && Text.Lacks(e.secret.key.ns, '/')
  {
    if !tasks[0].Drop? {
      RoleLabels(tasks[0].role.labels);
    }
  }

  /** Whatever the role side asks for in the middle of a task concerns its own secret of that name. */
  lemma RoleTouches(cfg: Setup, c: Cluster, tasks: seq<Task>, stage: RM.Stage, e: Event, f: Fault)
    requires WellFormed(c) && RoleLocal(c, RM.Running(tasks, stage))
    requires RM.StepTask(cfg.role, tasks, stage, e).Some?
    ensures TouchedAt(RoleSide, c, After(c, e, f), KeyOf(tasks[0])) && AddedBy(c, After(c, e, f), e, KeyOf(tasks[0]))
  {
    var t := tasks[0];
    RoleWrites(cfg, c, tasks, stage, e);
    match e
    case SecretPut(s, ok) => PutTouches(RoleSide, c, if t.Renew? then t.secret else t.held.value, s, ok, f);
    case SecretMade(s, ok) => MakeTouches(RoleSide, c, s, ok, f);
    case SecretRemoved(k, ok) => DropTouches(RoleSide, c, t.secret, ok, f);
    case StatusPut(r, ok) => ReportTouches(RoleSide, c, r, ok, f, KeyOf(t));
    case _ => ReadTouches(RoleSide, c, e, f, KeyOf(t));
  }

  /** The tasks behind the first one do not notice what happens at its key. */
  lemma RestSound(c: Cluster, d: Cluster, tasks: seq<Task>)
    requires |tasks| > 0 && Ordered(tasks) && TasksSound(c, tasks[1..])
    requires TouchedAt(RoleSide, c, d, KeyOf(tasks[0]))
    ensures TasksSound(d, tasks[1..])
  {
    TouchBehaves(RoleSide, c, d, KeyOf(tasks[0]));
    forall i | 0 <= i < |tasks[1..]| ensures TaskSound(d, tasks[1..][i], true) {
      var t := tasks[1..][i];
      assert t == tasks[i + 1] && TaskSound(c, t, true);
      match t
      case Renew(s, r) => CopyStable(RoleSide, c, d, RoleSide, s);
      case Drop(s) => CopyStable(RoleSide, c, d, RoleSide, s);
      case Settle(r, held) =>
        if held.Some? {
          CopyStable(RoleSide, c, d, RoleSide, held.value);
        }
    }
  }

  lemma BeginSound(c: Cluster, tasks: seq<Task>)
    requires Ordered(tasks) && TasksSound(c, tasks)
    ensures RoleLocal(c, RM.Begin(tasks))
  {
    if |tasks| > 0 {
      assert TaskSound(c, tasks[0], true);
      assert TaskSound(c, tasks[0], false);
      forall i | 0 <= i < |tasks[1..]| ensures TaskSound(c, tasks[1..][i], true) {
        assert tasks[1..][i] == tasks[i + 1];
      }
    }
  }

  lemma OrderedTail(tasks: seq<Task>)
    requires |tasks| > 0 && Ordered(tasks)
    ensures Ordered(tasks[1..])
  {
  }

  lemma RoleTaskKeeps(cfg: Setup, c: Cluster, tasks: seq<Task>, stage: RM.Stage, e: Event, f: Fault)
    requires WellFormed(c) && RoleLocal(c, RM.Running(tasks, stage))
    requires RM.StepTask(cfg.role, tasks, stage, e).Some?
    ensures RoleLocal(After(c, e, f), RM.StepTask(cfg.role, tasks, stage, e).value)
  {
    var d, l := After(c, e, f), RM.StepTask(cfg.role, tasks, stage, e).value;
    RoleTouches(cfg, c, tasks, stage, e, f);
    RoleTrace.StepShape(cfg.role, tasks, stage, e);
    RestSound(c, d, tasks);
    if l == RM.Begin(tasks[1..]) {
      OrderedTail(tasks);
      BeginSound(d, tasks[1..]);
    } else {
      TouchBehaves(RoleSide, c, d, KeyOf(tasks[0]));
      match tasks[0]
      case Renew(s, r) => CopyStable(RoleSide, c, d, RoleSide, s);
      case Drop(s) => CopyStable(RoleSide, c, d, RoleSide, s);
      case Settle(r, held) =>
        if held.Some? {
          CopyStable(RoleSide, c, d, RoleSide, held.value);
        }
    }
  }

  /** The plan of a pass is in order. */
  lemma PlanOrdered(secrets: seq<Secret>, roles: seq<Role>)
    requires UniqueSecrets(secrets)
    ensures Ordered(Plan(secrets, roles))
  {
    var a, b, c := Renewals(secrets, roles), Drops(Orphans(secrets, roles)), Settlements(roles, secrets);
    RenewalsMembers(secrets, roles);
    OrphansMembers(secrets, roles);
    DropsMembers(Orphans(secrets, roles));
    SettlementsMembers(roles, secrets);
    var p := Plan(secrets, roles);
    forall j | |a| + |b| <= j < |p| ensures p[j].Settle? {
      assert p[j] in c;
    }
    forall i, j | 0 <= i < j < |p| && !p[j].Settle? ensures !p[i].Settle? && KeyOf(p[i]) != KeyOf(p[j]) {
      assert i < |a| ==> p[i] in a;
      assert i >= |a| ==> p[i] == b[i - |a|];
      assert j < |a| ==> p[j] in a;
      assert j >= |a| ==> p[j] == b[j - |a|];
      if i < |a| && j >= |a| {
        SameKeySameSecret(secrets, p[i].secret, p[j].secret);
      }
    }
  }

  lemma SameKeySameSecret(secrets: seq<Secret>, s: Secret, t: Secret)
    requires UniqueSecrets(secrets) && s in secrets && t in secrets
    ensures s.key == t.key ==> s == t
  {
  }

  lemma PlanSound(c: Cluster, secrets: seq<Secret>, roles: seq<Role>, scope: string)
    requires WellFormed(c) && RoleListing(c, scope, roles)
    requires UniqueSecrets(secrets) && forall s :: s in secrets ==> CopyOf(RoleSide, c, s) && Stored(c, s)
    ensures RoleLocal(c, RM.Begin(Plan(secrets, roles)))
  {
    var p := Plan(secrets, roles);
    PlanOrdered(secrets, roles);
    forall r | r in roles ensures RoleFits(r, r.key, c.next) {
      assert RoleIsListed(c, scope, r);
    }
    forall i | 0 <= i < |p| ensures TaskSound(c, p[i], true) {
      assert p[i] in p;
      RoleTrace.PlanMembers(secrets, roles, p[i]);
    }
    BeginSound(c, p);
  }

  /** Every secret a list with the role side's selector returns is its own. */
  lemma RoleListSound(w: World, scope: string, items: seq<Secret>)
    requires Inv(w) && SecretListing(w.c, scope, ROLE_OWNER_LABELS, items)
    ensures RoleLocal(w.c, RM.HaveSecrets(items))
  {
    forall s | s in items ensures CopyOf(RoleSide, w.c, s) && Stored(w.c, s) {
      assert SecretIsListed(w.c, scope, ROLE_OWNER_LABELS, s);
      assert Cleared(w, s);
      RoleSelected(s.labels);
    }
  }

  lemma RoleSelected(labels: Labels)
    requires Selected(labels, ROLE_OWNER_LABELS)
    ensures Selected(labels, OWNER_LABELS)
  {
    assert HERITAGE_LABEL in ROLE_OWNER_LABELS;
  }

  lemma RoleRequestKeeps(cfg: Setup, w: World, e: Event, f: Fault)
    requires Inv(w) && Enabled(cfg, w, Request(RoleSide, e, f))
    ensures Inv(Next(cfg, w, Request(RoleSide, e, f)))
    ensures Behaves(RoleSide, w.c, After(w.c, e, f))
  {
    var v := Next(cfg, w, Request(RoleSide, e, f));
    var k: Key := if w.a.Running? then KeyOf(w.a.tasks[0]) else Key("", "");
    match w.a
    case Idle =>
      ReadTouches(RoleSide, w.c, e, f, k);
      if e.secrets.Some? {
        RoleListSound(w, cfg.role.namespace, e.secrets.value);
      }
    case HaveSecrets(secrets) =>
      ReadTouches(RoleSide, w.c, e, f, k);
      if e.roles.Some? {
        PlanSound(w.c, secrets, e.roles.value, cfg.role.namespace);
      }
    case Running(tasks, stage) =>
      RoleTouches(cfg, w.c, tasks, stage, e, f);
      RoleTaskKeeps(cfg, w.c, tasks, stage, e, f);
    TouchCleared(w, RoleSide, e, v.c, k, v);
    TouchBehaves(RoleSide, w.c, v.c, k);
    StoreLocalStable(RoleSide, w.c, v.c, w.b);
  }

  // ---------------------------------------------------------------- the store side's steps

  /** The key of the secret the store side is working on. */
  function StoreKey(b: SM.Local): Key {
    match b
    case Scanning(todo, _, _, _) => if |todo| > 0 then todo[0].key else Key("", "")
    case Making(role, namespaces, _, _, _, _) =>
      if |namespaces| > 0 then StorePass.KeyFor(StorePass.Pair(role, namespaces[0])) else Key("", "")
    case _ => Key("", "")
  }

  lemma StoreTouches(cfg: Setup, c: Cluster, b: SM.Local, e: Event, f: Fault)
    requires WellFormed(c) && StoreLocal(c, b) && SM.Step(cfg.store, b, e).Some?
    ensures TouchedAt(StoreSide, c, After(c, e, f), StoreKey(b)) && AddedBy(c, After(c, e, f), e, StoreKey(b))
  {
    match e
    case SecretPut(s, ok) => PutTouches(StoreSide, c, b.todo[0], s, ok, f);
    case SecretMade(s, ok) =>
      assert b.namespaces[0] in b.namespaces;
      StoreLabels();
      MakeTouches(StoreSide, c, s, ok, f);
    case SecretRemoved(k, ok) => DropTouches(StoreSide, c, b.todo[0], ok, f);
    case StatusPut(r, ok) => ReportTouches(StoreSide, c, r, ok, f, StoreKey(b));
    case _ => ReadTouches(StoreSide, c, e, f, StoreKey(b));
  }

  lemma StoreLabels()
    ensures Selected(OWNER_LABELS, OWNER_LABELS) && !Selected(OWNER_LABELS, ROLE_OWNER_LABELS)
  {
    assert TYPE_LABEL in ROLE_OWNER_LABELS && TYPE_LABEL !in OWNER_LABELS;
  }

  /** The secrets behind the first one are still as they were listed. */
  lemma TodoTail(c: Cluster, d: Cluster, todo: seq<Secret>, cache: SM.Cache, seen: set<StorePass.Pair>)
    requires |todo| > 0 && UniqueSecrets(todo) && forall s :: s in todo ==> CopyOf(StoreSide, c, s) && Stored(c, s)
    requires TouchedAt(StoreSide, c, d, todo[0].key)
    ensures StoreLocal(d, SM.ScanNext(todo[1..], cache, seen))
  {
    TouchBehaves(StoreSide, c, d, todo[0].key);
    forall s | s in todo[1..] ensures CopyOf(StoreSide, d, s) && Stored(d, s) {
      var i :| 0 <= i < |todo[1..]| && todo[1..][i] == s;
      assert s == todo[i + 1] && s.key != todo[0].key;
      assert s in todo;
      CopyStable(StoreSide, c, d, StoreSide, s);
    }
  }

  lemma {:induction false} FillSound(c: Cluster, work: seq<Wanted>, cache: SM.Cache, seen: set<StorePass.Pair>)
    requires StorePass.SlashFreeWork(work)
    ensures StoreLocal(c, SM.FillNext(work, cache, seen))
    decreases |work|, 0
  {
    if |work| > 0 && work[0].role in cache {
      assert work[0] in work;
      StoreExact.MissingMembers(work[0].role, work[0].namespaces, seen);
      MakeSound(c, work[0].role, StorePass.Missing(work[0].role, work[0].namespaces, seen), cache[work[0].role].data,
              work[1..], cache, seen);
    }
  }

  lemma {:induction false} MakeSound(c: Cluster, role: string, namespaces: seq<string>, data: Data, work: seq<Wanted>,
          cache: SM.Cache, seen: set<StorePass.Pair>)
    requires StorePass.SlashFree(namespaces) && StorePass.SlashFreeWork(work)
    ensures StoreLocal(c, SM.MakeNext(role, namespaces, data, work, cache, seen))
    decreases |work|, 1
  {
    if |namespaces| == 0 {
      FillSound(c, work, cache, seen);
    }
  }

  lemma StoreListSound(w: World, scope: string, items: seq<Secret>)
    requires Inv(w) && SecretListing(w.c, scope, OWNER_LABELS, items)
    ensures StoreLocal(w.c, SM.ScanNext(StorePass.UnownedOf(items), map[], {}))
  {
    StoreExact.UnownedMembers(items);
    forall s | s in StorePass.UnownedOf(items) ensures CopyOf(StoreSide, w.c, s) && Stored(w.c, s) {
      assert SecretIsListed(w.c, scope, OWNER_LABELS, s);
      assert Cleared(w, s);
    }
  }

  lemma StoreStepKeeps(cfg: Setup, w: World, e: Event, f: Fault)
    requires Inv(w) && Enabled(cfg, w, Request(StoreSide, e, f))
    ensures StoreLocal(After(w.c, e, f), SM.Step(cfg.store, w.b, e).value)
  {
    var d := After(w.c, e, f);
    StoreTouches(cfg, w.c, w.b, e, f);
    match w.b
    case Idle =>
      if e.secrets.Some? {
        StoreListSound(w, cfg.store.namespace, e.secrets.value);
      }
    case Scanning(todo, stage, cache, seen) =>
      StoreScanKeeps(cfg, w.c, d, todo, stage, cache, seen, e, f);
    case Scanned(cache, seen) =>
      FillSound(d, e.wanted, cache, seen);
    case Wanting(work, cache, seen) =>
      assert work[0] in work;
      FillSound(d, work[1..], cache, seen);
      StoreExact.MissingMembers(work[0].role, work[0].namespaces, seen);
      if e.answer.Some? {
        MakeSound(d, work[0].role, StorePass.Missing(work[0].role, work[0].namespaces, seen),
                StorePayload(e.answer.value), work[1..], cache, seen);
      }
    case Making(role, namespaces, data, work, cache, seen) =>
      MakeSound(d, role, namespaces[1..], data, work, cache, seen);
  }

  lemma StoreScanKeeps(cfg: Setup, c: Cluster, d: Cluster, todo: seq<Secret>, stage: SM.Stage, cache: SM.Cache,
          seen: set<StorePass.Pair>, e: Event, f: Fault)
    requires StoreLocal(c, SM.Scanning(todo, stage, cache, seen)) && WellFormed(c)
    requires d == After(c, e, f) && TouchedAt(StoreSide, c, d, todo[0].key)
    requires SM.StepScan(cfg.store, todo, stage, cache, seen, e).Some?
    ensures StoreLocal(d, SM.StepScan(cfg.store, todo, stage, cache, seen, e).value)
  {
    match stage
    case Look =>
    case Doomed => TodoTail(c, d, todo, cache, seen);
    case Check => TodoTail(c, d, todo, cache[StorePass.PairOf(todo[0].key).role := SM.Cached(todo[0].data,
            todo[0].key, SM.CheckedAt(e.now))], seen);
    case Due => TodoTail(c, d, todo, cache, seen);
    case Holding(i) =>
      TodoTail(c, d, todo, cache, seen);
      TodoTail(c, d, todo, cache[StorePass.PairOf(todo[0].key).role := SM.Cached(StorePayload(i), todo[0].key,
              SM.IssuedNow(i))], seen);
  }

  lemma StoreRequestKeeps(cfg: Setup, w: World, e: Event, f: Fault)
    requires Inv(w) && Enabled(cfg, w, Request(StoreSide, e, f))
    ensures Inv(Next(cfg, w, Request(StoreSide, e, f)))
    ensures Behaves(StoreSide, w.c, After(w.c, e, f))
  {
    var v := Next(cfg, w, Request(StoreSide, e, f));
    StoreTouches(cfg, w.c, w.b, e, f);
    StoreStepKeeps(cfg, w, e, f);
    TouchCleared(w, StoreSide, e, v.c, StoreKey(w.b), v);
    TouchBehaves(StoreSide, w.c, v.c, StoreKey(w.b));
    RoleLocalStable(StoreSide, w.c, v.c, w.a);
  }

  // ---------------------------------------------------------------- everybody else

  lemma PutOtherBehaves(cfg: Setup, w: World, s: Secret)
    requires Inv(w) && Enabled(cfg, w, PutOther(s))
    ensures var v := Next(cfg, w, PutOther(s));
            WellFormed(v.c) && Behaves(Others, w.c, v.c) && forall k :: k in v.c.secrets ==> Cleared(v, v.c.secrets[k])
  {
    var v := Next(cfg, w, PutOther(s));
    forall k | k in v.c.secrets ensures Cleared(v, v.c.secrets[k]) {
      if k != s.key {
        assert SecretFits(w.c.secrets[k], k, w.c.next) && Cleared(w, w.c.secrets[k]);
        assert s.key in w.c.secrets ==> Cleared(w, w.c.secrets[s.key]);
      }
    }
  }

  /** Whatever happens to roles and to time leaves the secrets alone. */
  lemma SameSecretsBehaves(cfg: Setup, w: World, act: Action)
    requires Inv(w) && Enabled(cfg, w, act) && !act.Request? && !act.PutOther? && !act.DropOther?
    ensures var v := Next(cfg, w, act);
            WellFormed(v.c) && v.c.secrets == w.c.secrets && v.c.next >= w.c.next && v.made == w.made
  {
  }

  lemma OtherBehaves(cfg: Setup, w: World, act: Action)
    requires Inv(w) && Enabled(cfg, w, act) && !act.Request?
    ensures var v := Next(cfg, w, act);
            WellFormed(v.c) && Behaves(Others, w.c, v.c) && forall k :: k in v.c.secrets ==> Cleared(v, v.c.secrets[k])
  {
    var v := Next(cfg, w, act);
    if act.PutOther? {
      PutOtherBehaves(cfg, w, act.secret);
    } else {
      if !act.DropOther? {
        SameSecretsBehaves(cfg, w, act);
      }
      forall k | k in v.c.secrets ensures Cleared(v, v.c.secrets[k]) {
        assert Cleared(w, w.c.secrets[k]);
      }
    }
  }

  lemma StepKeeps(cfg: Setup, w: World, act: Action)
    requires Inv(w) && Enabled(cfg, w, act)
    ensures Inv(Next(cfg, w, act))
    ensures Behaves(if act.Request? then act.who else Others, w.c, Next(cfg, w, act).c)
  {
    var v := Next(cfg, w, act);
    if act.Request? {
      if act.who == RoleSide {
        RoleRequestKeeps(cfg, w, act.e, act.fault);
      } else {
        StoreRequestKeeps(cfg, w, act.e, act.fault);
      }
    } else {
      OtherBehaves(cfg, w, act);
      RoleLocalStable(Others, w.c, v.c, w.a);
      StoreLocalStable(Others, w.c, v.c, w.b);
    }
  }

  // ---------------------------------------------------------------- whole runs

  lemma {:induction false} RunKeeps(cfg: Setup, w: World, acts: seq<Action>)
    requires Start(w) && Possible(cfg, w, acts)
    ensures Inv(Reached(cfg, w, acts))
  {
    if |acts| > 0 {
      RunKeeps(cfg, w, acts[..|acts| - 1]);
      StepKeeps(cfg, Reached(cfg, w, acts[..|acts| - 1]), acts[|acts| - 1]);
    }
  }

  /** In every reachable state a labelled secret has the `type` label exactly when it has an owner,
      and that says which controller created it. */
  lemma {:induction false} LabelTellsOwner(cfg: Setup, w: World, acts: seq<Action>, k: Key)
    requires Start(w) && Possible(cfg, w, acts) && k in Reached(cfg, w, acts).c.secrets
    requires Selected(Reached(cfg, w, acts).c.secrets[k].labels, OWNER_LABELS)
    ensures var v := Reached(cfg, w, acts);
            var s := v.c.secrets[k];
            && (Selected(s.labels, ROLE_OWNER_LABELS) <==> s.owners != [])
            && s.uid in v.made && v.made[s.uid] == (if s.owners != [] then RoleSide else StoreSide)
  {
    RunKeeps(cfg, w, acts);
    assert Cleared(Reached(cfg, w, acts), Reached(cfg, w, acts).c.secrets[k]);
  }

  /** No request of a controller ever changes or removes a secret it did not create. */
  lemma {:induction false} OnlyOwnSecrets(cfg: Setup, w: World, acts: seq<Action>, who: Actor, e: Event, f: Fault,
          k: Key)
    requires Start(w) && Possible(cfg, w, acts + [Request(who, e, f)])
    requires k in Reached(cfg, w, acts).c.secrets
    requires var v, v' := Reached(cfg, w, acts), Reached(cfg, w, acts + [Request(who, e, f)]);
             k !in v'.c.secrets || v'.c.secrets[k] != v.c.secrets[k]
    ensures var v := Reached(cfg, w, acts);
            v.c.secrets[k].uid in v.made && v.made[v.c.secrets[k].uid] == who
  {
    var all := acts + [Request(who, e, f)];
    assert all[..|all| - 1] == acts;
    var v := Reached(cfg, w, acts);
    RunKeeps(cfg, w, acts);
    StepKeeps(cfg, v, Request(who, e, f));
    assert Cleared(v, v.c.secrets[k]);
    assert Unchanged(v.c, Reached(cfg, w, all).c, k) || Whose(v.c.secrets[k]) == who;
  }
}
