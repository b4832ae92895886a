/** SecretsController.refresh as a value: what one pass makes of a cluster nobody else touches,
    given the lists it reads and the pairs the role store wants. */
module StorePass {
  import opened Options
  import opened Kube
  import opened Payload
  import opened Events
  import Text

  const SECRET_PREFIX := "aws-iam-"

  /** Every session this controller asks for lasts an hour. */
  const SESSION := 3600 * SECOND

  datatype Config = Config(namespace: string, refreshLimit: int)

  datatype Pair = Pair(role: string, ns: string)

  /** The pair a secret stands for: its name without the prefix, if it has one, and its namespace. */
  function PairOf(k: Key): Pair {
    Pair(Text.TrimPrefix(k.name, SECRET_PREFIX), k.ns)
  }

  function KeyFor(p: Pair): Key {
    Key(p.ns, SECRET_PREFIX + p.role)
  }

  lemma PairOfKeyFor(p: Pair)
    ensures PairOf(KeyFor(p)) == p
  {
    assert (SECRET_PREFIX + p.role)[|SECRET_PREFIX|..] == p.role;
  }

  /** Namespaces are Kubernetes names, which hold no slash. */
  ghost predicate SlashFree(namespaces: seq<string>) {
    forall n :: n in namespaces ==> Text.Lacks(n, '/')
  }

  ghost predicate SlashFreeWork(work: seq<Wanted>) {
    forall w :: w in work ==> SlashFree(w.namespaces)
  }

  /** The secrets this controller looks after: its label, and nobody's owner reference. */
  predicate Unowned(s: Secret) {
    s.owners == []
  }

  function UnownedOf(secrets: seq<Secret>): seq<Secret> {
    if |secrets| == 0 then []
    else (if Unowned(secrets[0]) then [secrets[0]] else []) + UnownedOf(secrets[1..])
  }

  function StoreSecret(p: Pair, data: Data): Secret {
    Secret(KeyFor(p), OWNER_LABELS, [], data, 0, 0)
  }

  // ---------------------------------------------------------------- the first loop

  /** The outside at one key, and what STS says for a role in the second loop. */
  datatype Answers = Answers(now: int, ask: Option<Issued>, put: Fault, drop: Fault, make: Fault)
  datatype Outside = Outside(at: Key -> Answers, ask: string -> Option<Issued>)

  /** The cluster, `credsCache`, and the pairs in `tmpSecretStore`. */
  datatype Scan = Scan(c: Cluster, cache: map<string, Data>, seen: set<Pair>)

  function ScanOne(cfg: Config, st: Scan, s: Secret, wanted: set<Pair>, a: Answers): Scan {
    var p := PairOf(s.key);
    var st := st.(seen := st.seen + {p});
    if p !in wanted then st.(c := Answered(a.drop, st.c, DeleteSecret(st.c, s.key)).0)
    else if !NeedsRefresh(s.data, a.now, cfg.refreshLimit) then st.(cache := st.cache[p.role := s.data])
    else if a.ask.None? then st
    else
      var data := StorePayload(a.ask.value);
      var put := Answered(a.put, st.c, UpdateSecret(st.c, s.(data := data)));
      if put.1 then st.(c := put.0, cache := st.cache[p.role := data]) else st.(c := put.0)
  }

  function ScanAll(cfg: Config, st: Scan, secrets: seq<Secret>, wanted: set<Pair>, o: Outside): Scan
    decreases |secrets|
  {
    if |secrets| == 0 then st
    else ScanAll(cfg, ScanOne(cfg, st, secrets[0], wanted, o.at(secrets[0].key)), secrets[1..], wanted, o)
  }

  // ---------------------------------------------------------------- the second loop

  /** The namespaces of a role that no listed secret stood for. */
  function Missing(role: string, namespaces: seq<string>, seen: set<Pair>): seq<string> {
    if |namespaces| == 0 then []
    else (if Pair(role, namespaces[0]) in seen then [] else [namespaces[0]]) + Missing(role, namespaces[1..], seen)
  }

  function MakeAll(c: Cluster, role: string, namespaces: seq<string>, data: Data, o: Outside): Cluster
    decreases |namespaces|
  {
    if |namespaces| == 0 then c
    else
      var p := Pair(role, namespaces[0]);
      var made := Answered(o.at(KeyFor(p)).make, c, CreateSecret(c, StoreSecret(p, data))).0;
      MakeAll(made, role, namespaces[1..], data, o)
  }

  /** The credentials for a role: cached in this pass, or asked for. */
  function CredsFor(role: string, cache: map<string, Data>, o: Outside): Option<Data> {
    if role in cache then Some(cache[role])
    else if o.ask(role).Some? then Some(StorePayload(o.ask(role).value))
    else None
  }

  function FillOne(c: Cluster, w: Wanted, cache: map<string, Data>, seen: set<Pair>, o: Outside): Cluster {
    var data := CredsFor(w.role, cache, o);
    if data.None? then c else MakeAll(c, w.role, Missing(w.role, w.namespaces, seen), data.value, o)
  }

  function FillAll(c: Cluster, work: seq<Wanted>, cache: map<string, Data>, seen: set<Pair>, o: Outside): Cluster
    decreases |work|
  {
    if |work| == 0 then c
    else FillAll(FillOne(c, work[0], cache, seen, o), work[1..], cache, seen, o)
  }

  function PassOver(cfg: Config, c: Cluster, secrets: seq<Secret>, work: seq<Wanted>, wanted: set<Pair>,
          o: Outside): Cluster {
    var st := ScanAll(cfg, Scan(c, map[], {}), UnownedOf(secrets), wanted, o);
    FillAll(st.c, work, st.cache, st.seen, o)
  }
}
