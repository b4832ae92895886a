/** SecretsController.refresh as a state machine that makes one request at a time. The cache
    entries carry where they come from; the source keeps the data only. */
module StoreMachine {
  import opened Options
  import opened Kube
  import opened Payload
  import opened Events
  import opened StorePass

  /** Why cached data is good: it passed the expiry test at a time, or STS just issued it. */
  datatype Provenance = CheckedAt(now: int) | IssuedNow(issued: Issued)

  datatype Cached = Cached(data: Data, from: Key, how: Provenance)

  type Cache = map<string, Cached>

  /** Where the secret under the first loop's hand stands. */
  datatype Stage =
    | Look                      // ask the role store
    | Doomed                    // delete
    | Check                     // read the clock
    | Due                       // ask STS
    | Holding(issued: Issued)   // write

  datatype Local =
    | Idle
    | Scanning(todo: seq<Secret>, stage: Stage, cache: Cache, seen: set<Pair>)
    | Scanned(cache: Cache, seen: set<Pair>)
    | Wanting(work: seq<Wanted>, cache: Cache, seen: set<Pair>)
    | Making(role: string, namespaces: seq<string>, data: Data, work: seq<Wanted>, cache: Cache, seen: set<Pair>)

  /** On to the next secret of the first loop, which is noted in the index of what exists. */
  function ScanNext(todo: seq<Secret>, cache: Cache, seen: set<Pair>): Local {
    if |todo| == 0 then Scanned(cache, seen)
    else Scanning(todo, Look, cache, seen + {PairOf(todo[0].key)})
  }

  /** On to the next role of the second loop; a cached role with nothing missing needs no request. */
  function FillNext(work: seq<Wanted>, cache: Cache, seen: set<Pair>): Local
    decreases |work|, 0
  {
    if |work| == 0 then Idle
    else if work[0].role in cache then
      var role := work[0].role;
      MakeNext(role, Missing(role, work[0].namespaces, seen), cache[role].data, work[1..], cache, seen)
    else Wanting(work, cache, seen)
  }

  function MakeNext(role: string, namespaces: seq<string>, data: Data, work: seq<Wanted>, cache: Cache,
          seen: set<Pair>): Local
    decreases |work|, 1
  {
    if |namespaces| == 0 then FillNext(work, cache, seen) else Making(role, namespaces, data, work, cache, seen)
  }

  /** The state after an event, or None when the controller would not do this next. */
  function Step(cfg: Config, l: Local, e: Event): Option<Local> {
    match l
    case Idle =>
      if e.SecretsListed? && e.selector == OWNER_LABELS then
        Some(if e.secrets.None? then Idle else ScanNext(UnownedOf(e.secrets.value), map[], {}))
      else None
    case Scanning(todo, stage, cache, seen) =>
      if |todo| == 0 then None else StepScan(cfg, todo, stage, cache, seen, e)
    case Scanned(cache, seen) =>
      if e.StoreRead? then Some(FillNext(e.wanted, cache, seen)) else None
    case Wanting(work, cache, seen) =>
      if |work| > 0 && e.Asked? && e.role == work[0].role && e.duration == SESSION then
        var missing := Missing(e.role, work[0].namespaces, seen);
        Some(if e.answer.None? then FillNext(work[1..], cache, seen)
             else MakeNext(e.role, missing, StorePayload(e.answer.value), work[1..], cache, seen))
      else None
    case Making(role, namespaces, data, work, cache, seen) =>
      if |namespaces| > 0 && e.SecretMade? && e.secret == StoreSecret(Pair(role, namespaces[0]), data) then
        Some(MakeNext(role, namespaces[1..], data, work, cache, seen))
      else None
  }

  function StepScan(cfg: Config, todo: seq<Secret>, stage: Stage, cache: Cache, seen: set<Pair>,
          e: Event): Option<Local>
    requires |todo| > 0
  {
    var s, p := todo[0], PairOf(todo[0].key);
    var next := ScanNext(todo[1..], cache, seen);
    match stage
    case Look =>
      if e.Looked? && e.role == p.role && e.ns == p.ns then
        Some(Scanning(todo, if !e.found then Doomed else if ExpireOf(s.data).Some? then Check else Due, cache, seen))
      else None
    case Doomed =>
      if e.SecretRemoved? && e.key == s.key then Some(next) else None
    case Check =>
      if e.ClockRead? then
        Some(if NeedsRefresh(s.data, e.now, cfg.refreshLimit) then Scanning(todo, Due, cache, seen)
             else ScanNext(todo[1..], cache[p.role := Cached(s.data, s.key, CheckedAt(e.now))], seen))
      else None
    case Due =>
      if e.Asked? && e.role == p.role && e.duration == SESSION then
        Some(if e.answer.None? then next else Scanning(todo, Holding(e.answer.value), cache, seen))
      else None
    case Holding(i) =>
      if e.SecretPut? && e.secret == s.(data := StorePayload(i)) then
        var cached := Cached(StorePayload(i), s.key, IssuedNow(i));
        Some(if e.ok then ScanNext(todo[1..], cache[p.role := cached], seen) else next)
      else None
  }

  /** The state after a whole log, or None when some event is not what the controller does. */
  function Replay(cfg: Config, log: seq<Event>): Option<Local> {
    if |log| == 0 then Some(Idle)
    else
      var l := Replay(cfg, log[..|log| - 1]);
      if l.None? then None else Step(cfg, l.value, log[|log| - 1])
  }

  lemma ReplaySnoc(cfg: Config, log: seq<Event>, e: Event)
    ensures Replay(cfg, log + [e]) ==
            if Replay(cfg, log).None? then None else Step(cfg, Replay(cfg, log).value, e)
  {
    assert (log + [e])[..|log|] == log;
  }
}
