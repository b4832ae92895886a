/** What the log of a SecretsController looks like, under every pattern of failures and whatever the
    role store answers from one request to the next. */
module StoreTrace {
  import opened Options
  import opened Kube
  import opened Payload
  import opened Events
  import opened StorePass
  import opened StoreMachine
  import opened StoreExact

  /** The keys written in the current pass, since the last list. */
  function Writes(log: seq<Event>): seq<Key> {
    if |log| == 0 then [] else WritesAfter(Writes(log[..|log| - 1]), log[|log| - 1])
  }

  function WritesAfter(before: seq<Key>, e: Event): seq<Key> {
    match e
    case SecretsListed(_, _) => []
    case SecretPut(s, _) => before + [s.key]
    case SecretMade(s, _) => before + [s.key]
    case SecretRemoved(k, _) => before + [k]
    case _ => before
  }

  /** A list names no key twice; a walk over the store no role and no namespace of a role twice. */
  ghost predicate Sensible(e: Event) {
    && (e.SecretsListed? && e.secrets.Some? ==> UniqueSecrets(e.secrets.value))
    && (e.StoreRead? ==> DistinctWork(e.wanted))
  }

  ghost predicate DistinctWork(work: seq<Wanted>) {
    && (forall i, j :: 0 <= i < j < |work| ==> work[i].role != work[j].role)
    && (forall w :: w in work ==> NoRepeats(w.namespaces))
  }

  ghost predicate NoRepeats<T>(xs: seq<T>) {
    forall i, j :: 0 <= i < j < |xs| ==> xs[i] != xs[j]
  }

  /** The role still has its turn to come. */
  ghost predicate Awaited(work: seq<Wanted>, role: string) {
    exists w :: w in work && w.role == role
  }

  /** What keeps the rest of a pass away from the keys already written. */
  ghost predicate Apart(l: Local, ws: seq<Key>) {
    match l
    case Idle => true
    case Scanning(todo, _, _, seen) =>
      && |todo| > 0 && UniqueSecrets(todo) && PairOf(todo[0].key) in seen
      && (forall k :: k in ws ==> PairOf(k) in seen)
      && (forall k, s :: k in ws && s in todo ==> s.key != k)
    case Scanned(_, seen) =>
      forall k :: k in ws ==> PairOf(k) in seen
    case Wanting(work, _, seen) =>
      && |work| > 0 && DistinctWork(work)
      && (forall k :: k in ws ==> PairOf(k) in seen || !Awaited(work, PairOf(k).role))
    case Making(role, namespaces, _, work, _, seen) =>
      && |namespaces| > 0 && NoRepeats(namespaces) && DistinctWork(work) && !Awaited(work, role)
      && (forall n :: n in namespaces ==> Pair(role, n) !in seen)
      && (forall k :: k in ws ==>
            PairOf(k) in seen || (!Awaited(work, PairOf(k).role) && !(PairOf(k).role == role && k.ns in namespaces)))
  }

  lemma ScanNextApart(todo: seq<Secret>, cache: Cache, seen: set<Pair>, ws: seq<Key>)
    requires UniqueSecrets(todo)
    requires forall k :: k in ws ==> PairOf(k) in seen
    requires forall k, s :: k in ws && s in todo ==> s.key != k
    ensures Apart(ScanNext(todo, cache, seen), ws)
  {
  }

  lemma TailApart(todo: seq<Secret>, ws: seq<Key>, k0: Key)
    requires |todo| > 0 && UniqueSecrets(todo) && k0 == todo[0].key
    requires forall k, s :: k in ws && s in todo ==> s.key != k
    ensures UniqueSecrets(todo[1..]) && forall k, s :: k in ws + [k0] && s in todo[1..] ==> s.key != k
  {
    forall s | s in todo[1..] ensures s.key != k0 {
      var j :| 0 <= j < |todo[1..]| && todo[1..][j] == s;
      assert todo[j + 1] == s;
    }
  }

  lemma {:induction false} FillNextApart(work: seq<Wanted>, cache: Cache, seen: set<Pair>, ws: seq<Key>)
    requires DistinctWork(work)
    requires forall k :: k in ws ==> PairOf(k) in seen || !Awaited(work, PairOf(k).role)
    ensures Apart(FillNext(work, cache, seen), ws)
    decreases |work|, 0
  {
    if |work| > 0 && work[0].role in cache {
      NextRole(work, seen, ws);
      MakeNextApart(work[0].role, Missing(work[0].role, work[0].namespaces, seen), cache[work[0].role].data,
              work[1..], cache, seen, ws);
    }
  }

  lemma {:induction false} MakeNextApart(role: string, namespaces: seq<string>, data: Data, work: seq<Wanted>,
          cache: Cache, seen: set<Pair>, ws: seq<Key>)
    requires NoRepeats(namespaces) && DistinctWork(work) && !Awaited(work, role)
    requires forall n :: n in namespaces ==> Pair(role, n) !in seen
    requires forall k :: k in ws ==>
               PairOf(k) in seen || (!Awaited(work, PairOf(k).role) && !(PairOf(k).role == role && k.ns in namespaces))
    ensures Apart(MakeNext(role, namespaces, data, work, cache, seen), ws)
    decreases |work|, 1
  {
    if |namespaces| == 0 {
      FillNextApart(work, cache, seen, ws);
    }
  }

  /** Taking the first role off the work list. */
  lemma NextRole(work: seq<Wanted>, seen: set<Pair>, ws: seq<Key>)
    requires |work| > 0 && DistinctWork(work)
    requires forall k :: k in ws ==> PairOf(k) in seen || !Awaited(work, PairOf(k).role)
    ensures DistinctWork(work[1..]) && !Awaited(work[1..], work[0].role)
    ensures NoRepeats(Missing(work[0].role, work[0].namespaces, seen))
    ensures forall n :: n in Missing(work[0].role, work[0].namespaces, seen) ==> Pair(work[0].role, n) !in seen
    ensures forall k :: k in ws ==>
              PairOf(k) in seen || (!Awaited(work[1..], PairOf(k).role) && PairOf(k).role != work[0].role)
  {
    assert work[0] in work;
    MissingNoRepeats(work[0].role, work[0].namespaces, seen);
    MissingMembers(work[0].role, work[0].namespaces, seen);
    forall k | k in ws && PairOf(k) !in seen
      ensures !Awaited(work[1..], PairOf(k).role) && PairOf(k).role != work[0].role
    {
      assert !Awaited(work, PairOf(k).role);
    }
    forall w | w in work[1..] ensures w.role != work[0].role {
      var j :| 0 <= j < |work[1..]| && work[1..][j] == w;
      assert work[j + 1] == w;
    }
  }

  lemma {:induction false} MissingNoRepeats(role: string, namespaces: seq<string>, seen: set<Pair>)
    requires NoRepeats(namespaces)
    ensures NoRepeats(Missing(role, namespaces, seen))
  {
    if |namespaces| > 0 {
      MissingNoRepeats(role, namespaces[1..], seen);
      MissingMembers(role, namespaces[1..], seen);
      var rest := Missing(role, namespaces[1..], seen);
      forall j | 0 <= j < |rest| ensures rest[j] != namespaces[0] {
        assert rest[j] in rest && rest[j] in namespaces[1..];
      }
    }
  }

  lemma ScanStepApart(cfg: Config, todo: seq<Secret>, stage: Stage, cache: Cache, seen: set<Pair>, e: Event,
          ws: seq<Key>)
    requires Apart(Scanning(todo, stage, cache, seen), ws) && NoRepeats(ws)
    requires StepScan(cfg, todo, stage, cache, seen, e).Some?
    ensures NoRepeats(WritesAfter(ws, e)) && Apart(StepScan(cfg, todo, stage, cache, seen, e).value, WritesAfter(ws, e))
  {
    var k0 := todo[0].key;
    assert todo[0] in todo;
    assert k0 !in ws;
    assert NoRepeats(ws + [k0]);
    TailApart(todo, ws, k0);
    match stage
    case Look =>
    case Doomed => ScanNextApart(todo[1..], cache, seen, ws + [k0]);
    case Check => ScanNextApart(todo[1..], cache[PairOf(k0).role := Cached(todo[0].data, k0, CheckedAt(e.now))], seen,
            ws);
    case Due => ScanNextApart(todo[1..], cache, seen, ws);
    case Holding(i) =>
      if e.ok {
        ScanNextApart(todo[1..], cache[PairOf(k0).role := Cached(StorePayload(i), k0, IssuedNow(i))], seen, ws + [k0]);
      } else {
        ScanNextApart(todo[1..], cache, seen, ws + [k0]);
      }
  }

  lemma MakingStepApart(role: string, namespaces: seq<string>, data: Data, work: seq<Wanted>, cache: Cache,
          seen: set<Pair>, ws: seq<Key>)
    requires Apart(Making(role, namespaces, data, work, cache, seen), ws) && NoRepeats(ws)
    ensures var k := KeyFor(Pair(role, namespaces[0]));
            NoRepeats(ws + [k]) && Apart(MakeNext(role, namespaces[1..], data, work, cache, seen), ws + [k])
  {
    var p := Pair(role, namespaces[0]);
    var k := KeyFor(p);
    PairOfKeyFor(p);
    assert namespaces[0] in namespaces;
    forall n | n in namespaces[1..] ensures n != namespaces[0] && n in namespaces {
      var j :| 0 <= j < |namespaces[1..]| && namespaces[1..][j] == n;
      assert namespaces[j + 1] == n;
    }
    assert k !in ws;
    MakeNextApart(role, namespaces[1..], data, work, cache, seen, ws + [k]);
  }

  lemma WantingStepApart(work: seq<Wanted>, cache: Cache, seen: set<Pair>, answer: Option<Issued>, ws: seq<Key>)
    requires Apart(Wanting(work, cache, seen), ws)
    ensures answer.None? ==> Apart(FillNext(work[1..], cache, seen), ws)
    ensures answer.Some? ==>
              var role := work[0].role;
              var missing := Missing(role, work[0].namespaces, seen);
              Apart(MakeNext(role, missing, StorePayload(answer.value), work[1..], cache, seen), ws)
  {
    NextRole(work, seen, ws);
    FillNextApart(work[1..], cache, seen, ws);
    if answer.Some? {
      MakeNextApart(work[0].role, Missing(work[0].role, work[0].namespaces, seen), StorePayload(answer.value),
              work[1..], cache, seen, ws);
    }
  }

  lemma StepApart(cfg: Config, l: Local, e: Event, ws: seq<Key>)
    requires Apart(l, ws) && NoRepeats(ws) && Sensible(e) && Step(cfg, l, e).Some?
    ensures NoRepeats(WritesAfter(ws, e)) && Apart(Step(cfg, l, e).value, WritesAfter(ws, e))
  {
    match l
    case Idle =>
      if e.secrets.Some? {
        UnownedMembers(e.secrets.value);
        ScanNextApart(UnownedOf(e.secrets.value), map[], {}, []);
      }
    case Scanning(todo, stage, cache, seen) => ScanStepApart(cfg, todo, stage, cache, seen, e, ws);
    case Scanned(cache, seen) => FillNextApart(e.wanted, cache, seen, ws);
    case Wanting(work, cache, seen) => WantingStepApart(work, cache, seen, e.answer, ws);
    case Making(role, namespaces, data, work, cache, seen) => MakingStepApart(role, namespaces, data, work, cache,
            seen, ws);
  }

  /** At most one Delete, Update or Create per key in a pass: for every failure pattern and every
      behaviour of the role store. In particular a deleted secret is not recreated. */
  lemma {:induction false} OneWritePerKey(cfg: Config, log: seq<Event>)
    requires Replay(cfg, log).Some? && forall e :: e in log ==> Sensible(e)
    ensures NoRepeats(Writes(log)) && Apart(Replay(cfg, log).value, Writes(log))
  {
    if |log| > 0 {
      var init, e := log[..|log| - 1], log[|log| - 1];
      OneWritePerKey(cfg, init);
      assert e in log;
      StepApart(cfg, Replay(cfg, init).value, e, Writes(init));
    }
  }

  // ---------------------------------------------------------------- what each request rests on

  /** The pass started at `m` with this list, and none was read since. */
  ghost predicate PassFrom(log: seq<Event>, m: nat, secrets: seq<Secret>) {
    && m < |log| && log[m] == SecretsListed(map["heritage" := "kube-aws-iam-controller"], Some(secrets))
    && forall j :: m < j < |log| ==> !log[j].SecretsListed?
  }

  /** Since then the store was walked over. */
  ghost predicate WalkedAt(log: seq<Event>, m: nat, j: nat, wanted: seq<Wanted>) {
    m < j < |log| && log[j] == StoreRead(wanted)
  }

  /** A secret stands for a role: its name is the prefixed role, or the bare one where that has no
      prefix of its own. */
  ghost predicate StandsFor(k: Key, role: string) {
    k.name == "aws-iam-" + role || (k.name == role && !("aws-iam-" <= k.name))
  }

  lemma PairStands(k: Key)
    ensures StandsFor(k, PairOf(k).role) && PairOf(k).ns == k.ns
  {
  }

  ghost predicate WantedIn(wanted: seq<Wanted>, role: string, ns: string) {
    exists w :: w in wanted && w.role == role && ns in w.namespaces
  }

  /** Why the secret under the first loop's hand stands where it does. */
  ghost predicate ScanExplained(cfg: Config, log: seq<Event>, s: Secret, stage: Stage) {
    match stage
    case Look => true
    case Doomed => LastHeard(log, Looked(PairOf(s.key).role, s.key.ns, false))
    case Check => "expire" in s.data && s.data["expire"].Stamp?
    case Due => DueNow(cfg.refreshLimit, log, s.data)
    case Holding(i) => LastHeard(log, Asked(PairOf(s.key).role, 3_600_000_000_000, Some(i)))
  }

  /** What is left to do comes from the list and from the walk of the pass. */
  ghost predicate Justified(cfg: Config, log: seq<Event>, l: Local, m: nat, secrets: seq<Secret>, j: nat,
          wanted: seq<Wanted>) {
    && (!l.Idle? ==> PassFrom(log, m, secrets))
    && (l.Scanning? ==>
          && |l.todo| > 0 && (forall s :: s in l.todo ==> s in secrets && s.owners == [])
          && ScanExplained(cfg, log, l.todo[0], l.stage))
    && (l.Wanting? ==>
          && WalkedAt(log, m, j, wanted) && |l.work| > 0 && (forall w :: w in l.work ==> w in wanted)
          && l.work[0].role !in l.cache)
    && (l.Making? ==>
          && WalkedAt(log, m, j, wanted) && (forall w :: w in l.work ==> w in wanted)
          && (forall n :: n in l.namespaces ==> WantedIn(wanted, l.role, n)))
  }

  lemma {:induction false} FillJustified(cfg: Config, log: seq<Event>, work: seq<Wanted>, cache: Cache, seen: set<Pair>,
          m: nat, secrets: seq<Secret>, j: nat, wanted: seq<Wanted>)
    requires PassFrom(log, m, secrets) && WalkedAt(log, m, j, wanted) && forall w :: w in work ==> w in wanted
    ensures Justified(cfg, log, FillNext(work, cache, seen), m, secrets, j, wanted)
    decreases |work|, 0
  {
    if |work| > 0 && work[0].role in cache {
      var role := work[0].role;
      MissingMembers(role, work[0].namespaces, seen);
      assert work[0] in wanted;
      MakeJustified(cfg, log, role, Missing(role, work[0].namespaces, seen), cache[role].data, work[1..], cache, seen,
        m, secrets, j, wanted);
    }
  }

  lemma {:induction false} MakeJustified(cfg: Config, log: seq<Event>, role: string, namespaces: seq<string>,
          data: Data, work: seq<Wanted>, cache: Cache, seen: set<Pair>, m: nat, secrets: seq<Secret>, j: nat,
          wanted: seq<Wanted>)
    requires PassFrom(log, m, secrets) && WalkedAt(log, m, j, wanted) && forall w :: w in work ==> w in wanted
    requires forall n :: n in namespaces ==> WantedIn(wanted, role, n)
    ensures Justified(cfg, log, MakeNext(role, namespaces, data, work, cache, seen), m, secrets, j, wanted)
    decreases |work|, 1
  {
    if |namespaces| == 0 {
      FillJustified(cfg, log, work, cache, seen, m, secrets, j, wanted);
    }
  }

  lemma ScanJustified(cfg: Config, log: seq<Event>, l: Local, e: Event, m: nat, secrets: seq<Secret>, j: nat,
          wanted: seq<Wanted>)
    requires l.Scanning? && Justified(cfg, log, l, m, secrets, j, wanted) && Step(cfg, l, e).Some?
    ensures Justified(cfg, log + [e], Step(cfg, l, e).value, m, secrets, j, wanted)
  {
    assert forall s :: s in l.todo[1..] ==> s in l.todo;
    if e.ClockRead? {
      RefreshIff(l.todo[0].data, e.now, cfg.refreshLimit);
    }
  }

  lemma StepJustified(cfg: Config, log: seq<Event>, l: Local, e: Event, m: nat, secrets: seq<Secret>, j: nat,
          wanted: seq<Wanted>)
    requires (l.Wanting? || l.Making?) && Justified(cfg, log, l, m, secrets, j, wanted) && Step(cfg, l, e).Some?
    ensures Justified(cfg, log + [e], Step(cfg, l, e).value, m, secrets, j, wanted)
  {
    var log' := log + [e];
    assert PassFrom(log', m, secrets) && WalkedAt(log', m, j, wanted);
    if l.Wanting? {
      var w, rest := l.work[0], l.work[1..];
      assert w in wanted && forall v :: v in rest ==> v in l.work;
      FillJustified(cfg, log', rest, l.cache, l.seen, m, secrets, j, wanted);
      MissingMembers(w.role, w.namespaces, l.seen);
      if e.answer.Some? {
        var missing := Missing(w.role, w.namespaces, l.seen);
        MakeJustified(cfg, log', w.role, missing, StorePayload(e.answer.value), rest, l.cache, l.seen, m, secrets, j,
          wanted);
      }
    } else {
      MakeJustified(cfg, log', l.role, l.namespaces[1..], l.data, l.work, l.cache, l.seen, m, secrets, j, wanted);
    }
  }

  lemma {:induction false} LogJustified(cfg: Config, log: seq<Event>)
    returns (m: nat, secrets: seq<Secret>, j: nat, wanted: seq<Wanted>)
    requires Replay(cfg, log).Some?
    ensures Justified(cfg, log, Replay(cfg, log).value, m, secrets, j, wanted)
  {
    m, secrets, j, wanted := 0, [], 0, [];
    if |log| > 0 {
      var init, e := log[..|log| - 1], log[|log| - 1];
      assert log == init + [e];
      m, secrets, j, wanted := LogJustified(cfg, init);
      var l := Replay(cfg, init).value;
      match l
      case Idle =>
        if e.secrets.Some? {
          m, secrets := |init|, e.secrets.value;
          UnownedMembers(secrets);
        }
      case Scanning(_, _, _, _) => ScanJustified(cfg, init, l, e, m, secrets, j, wanted);
      case Scanned(cache, seen) =>
        j, wanted := |init|, e.wanted;
        assert PassFrom(log, m, secrets) && WalkedAt(log, m, j, wanted);
        FillJustified(cfg, log, wanted, cache, seen, m, secrets, j, wanted);
      case Wanting(_, _, _) => StepJustified(cfg, init, l, e, m, secrets, j, wanted);
      case Making(_, _, _, _, _, _) => StepJustified(cfg, init, l, e, m, secrets, j, wanted);
    }
  }

  /** A deletion is of a listed secret without owners, and directly follows the store's answer that the
      role it stands for is not wanted in its namespace. */
  lemma DeletionsAreUnwanted(cfg: Config, log: seq<Event>, k: Key, ok: bool)
    returns (m: nat, secrets: seq<Secret>, s: Secret, role: string)
    requires Replay(cfg, log + [SecretRemoved(k, ok)]).Some?
    ensures PassFrom(log, m, secrets) && s in secrets && s.key == k && s.owners == []
    ensures StandsFor(k, role) && LastHeard(log, Looked(role, k.ns, false))
  {
    ReplaySnoc(cfg, log, SecretRemoved(k, ok));
    var j, wanted;
    m, secrets, j, wanted := LogJustified(cfg, log);
    s := Replay(cfg, log).value.todo[0];
    assert s in Replay(cfg, log).value.todo;
    role := PairOf(k).role;
    PairStands(k);
  }

  /** An update is of a listed secret without owners, changes its data only, directly follows an STS
      answer for the role it stands for, and all of the data is made of that answer, field by field. */
  lemma UpdatesFromOneAnswer(cfg: Config, log: seq<Event>, s: Secret, ok: bool)
    returns (m: nat, secrets: seq<Secret>, role: string, i: Issued)
    requires Replay(cfg, log + [SecretPut(s, ok)]).Some?
    ensures PassFrom(log, m, secrets) && exists t :: t in secrets && t.owners == [] && s == t.(data := s.data)
    ensures StandsFor(s.key, role) && LastHeard(log, Asked(role, 3_600_000_000_000, Some(i)))
    ensures FromAnswer(s.data, i) && s.data.Keys == STORE_KEYS
  {
    ReplaySnoc(cfg, log, SecretPut(s, ok));
    var j, wanted;
    m, secrets, j, wanted := LogJustified(cfg, log);
    var l := Replay(cfg, log).value;
    i, role := l.stage.issued, PairOf(s.key).role;
    assert l.todo[0] in l.todo;
    assert s == l.todo[0].(data := s.data);
    PairStands(s.key);
    PayloadReadsBack("", i, 0);
  }

  /** STS is asked for an hour, and only for the role of a listed secret without owners that is due, or
      for a role the store wants and no credentials are cached for. */
  lemma AsksForAReason(cfg: Config, log: seq<Event>, e: Event)
    returns (m: nat, secrets: seq<Secret>, j: nat, wanted: seq<Wanted>)
    requires e.Asked? && Replay(cfg, log + [e]).Some?
    ensures PassFrom(log, m, secrets) && e.duration == 3_600_000_000_000
    ensures || (exists s :: s in secrets && s.owners == [] && StandsFor(s.key, e.role)
                            && DueNow(cfg.refreshLimit, log, s.data))
            || (WalkedAt(log, m, j, wanted) && Awaited(wanted, e.role)
                && Replay(cfg, log).value.Wanting? && e.role !in Replay(cfg, log).value.cache)
  {
    ReplaySnoc(cfg, log, e);
    m, secrets, j, wanted := LogJustified(cfg, log);
    var l := Replay(cfg, log).value;
    if l.Scanning? {
      assert l.todo[0] in l.todo;
      PairStands(l.todo[0].key);
    } else {
      assert l.work[0] in l.work;
    }
  }

  /** The clock is read for a listed secret without owners that has a readable expiry, and decides:
      credentials are asked for next exactly when the expiry is less than the limit away. */
  lemma ClockDecides(cfg: Config, log: seq<Event>, now: int)
    returns (m: nat, secrets: seq<Secret>, s: Secret)
    requires Replay(cfg, log + [ClockRead(now)]).Some?
    ensures PassFrom(log, m, secrets) && s in secrets && s.owners == []
    ensures "expire" in s.data && s.data["expire"].Stamp? && Replay(cfg, log).value.Scanning?
    ensures var l, l' := Replay(cfg, log).value, Replay(cfg, log + [ClockRead(now)]).value;
            && |l.todo| > 0 && l.todo[0] == s
            && if s.data["expire"].at < now + cfg.refreshLimit
               then l' == l.(stage := Due)
               else exists cache :: l' == ScanNext(l.todo[1..], cache, l.seen)
  {
    ReplaySnoc(cfg, log, ClockRead(now));
    var j, wanted;
    m, secrets, j, wanted := LogJustified(cfg, log);
    s := Replay(cfg, log).value.todo[0];
    assert s in Replay(cfg, log).value.todo;
    RefreshIff(s.data, now, cfg.refreshLimit);
  }

  /** A creation is of a secret under the prefixed name of a role, in a namespace the store wants the
      role in, with the one label and no owner. */
  lemma CreationsAreWanted(cfg: Config, log: seq<Event>, s: Secret, ok: bool)
    returns (m: nat, secrets: seq<Secret>, j: nat, wanted: seq<Wanted>, role: string)
    requires Replay(cfg, log + [SecretMade(s, ok)]).Some?
    ensures PassFrom(log, m, secrets) && WalkedAt(log, m, j, wanted) && WantedIn(wanted, role, s.key.ns)
    ensures s.key.name == "aws-iam-" + role && s.owners == []
    ensures s.labels == map["heritage" := "kube-aws-iam-controller"]
  {
    ReplaySnoc(cfg, log, SecretMade(s, ok));
    m, secrets, j, wanted := LogJustified(cfg, log);
    role := Replay(cfg, log).value.role;
    assert s.key.ns in Replay(cfg, log).value.namespaces;
  }
}
