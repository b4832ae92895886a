/** AWSIAMRoleController.refresh as a state machine that makes one request at a time, so that a
    pass can be interleaved with everything else that happens to a cluster. */
module RoleMachine {
  import opened Options
  import opened Kube
  import opened Payload
  import opened RolePass
  import opened Events

  /** Where the first task of the agenda stands: which request comes next. */
  datatype Stage =
    | Check                                  // read the clock for the expiry test
    | Due                                    // ask STS
    | Holding(arn: string, issued: Issued)   // write the secret
    | Reporting(status: Status)              // write the role's status
    | Doomed                                 // delete the secret

  datatype Local =
    | Idle
    | HaveSecrets(secrets: seq<Secret>)
    | Running(tasks: seq<Task>, stage: Stage)

  function StartStage(t: Task): Stage {
    match t
    case Renew(s, _) => if ExpireOf(s.data).Some? then Check else Due
    case Drop(_) => Doomed
    case Settle(r, held) =>
      if held.None? then Due
      else if GenerationOf(held.value.data) != Some(r.generation) then Due
      else if StatusDue(r, held.value.data).Some? then Reporting(StatusDue(r, held.value.data).value)
      else Doomed // not planned: see HasWork
  }

  /** The state at the start of an agenda; an empty one ends the pass. */
  function Begin(tasks: seq<Task>): Local {
    if |tasks| == 0 then Idle else Running(tasks, StartStage(tasks[0]))
  }

  /** The state after an event, or None when the controller would not do this next. */
  function Step(cfg: Config, l: Local, e: Event): Option<Local> {
    match l
    case Idle =>
      if e.SecretsListed? && e.selector == ROLE_OWNER_LABELS then
        Some(if e.secrets.None? then Idle else HaveSecrets(e.secrets.value))
      else None
    case HaveSecrets(secrets) =>
      if e.RolesListed? then Some(if e.roles.None? then Idle else Begin(Plan(secrets, e.roles.value))) else None
    case Running(tasks, stage) =>
      if |tasks| == 0 then None else StepTask(cfg, tasks, stage, e)
  }

  function StepTask(cfg: Config, tasks: seq<Task>, stage: Stage, e: Event): Option<Local>
    requires |tasks| > 0
  {
    var t, next := tasks[0], Begin(tasks[1..]);
    match stage
    case Check =>
      if t.Renew? && e.ClockRead? then
        Some(if NeedsRefresh(t.secret.data, e.now, cfg.refreshLimit) then Running(tasks, Due) else next)
      else None
    case Due =>
      if !t.Drop? && e.Asked? && e.role == t.role.spec.roleReference
         && e.duration == SessionDuration(t.role.spec.roleSessionDuration)
      then
        Some(if e.answer.None? then next
             else Running(tasks, Holding(Resolve(cfg, t.role.spec.roleReference), e.answer.value)))
      else None
    case Holding(arn, i) =>
      StepHolding(tasks, arn, i, e)
    case Reporting(st) =>
      if !t.Drop? && e.StatusPut? && e.resource == t.role.(status := st) then Some(next) else None
    case Doomed =>
      if t.Drop? && e.SecretRemoved? && e.key == t.secret.key then Some(next) else None
  }

  function StepHolding(tasks: seq<Task>, arn: string, i: Issued, e: Event): Option<Local>
    requires |tasks| > 0
  {
    var t, next := tasks[0], Begin(tasks[1..]);
    match t
    case Renew(s, r) =>
      if e.SecretPut? && e.secret == Rewritten(s, r, arn, i) then
        Some(if e.ok then Running(tasks, Reporting(IssuedStatus(r, arn, i))) else next)
      else None
    case Drop(_) => None
    case Settle(r, held) =>
      if held.None? then
        if e.SecretMade? && e.secret == NewSecret(r, arn, i) then
          Some(if e.ok then Running(tasks, Reporting(IssuedStatus(r, arn, i))) else next)
        else None
      else if e.SecretPut? && e.secret == Rewritten(held.value, r, arn, i) then
        var due := StatusDue(r, e.secret.data);
        Some(if e.ok && due.Some? then Running(tasks, Reporting(due.value)) else next)
      else None
  }

  /** The state after a whole log, or None when some event is not what the controller does. */
  function Replay(cfg: Config, log: seq<Event>): Option<Local> {
    if |log| == 0 then Some(Idle)
    else
      var l := Replay(cfg, log[..|log| - 1]);
      if l.None? then None else Step(cfg, l.value, log[|log| - 1])
  }

  lemma ReplaySnoc(cfg: Config, log: seq<Event>, e: Event)
    ensures Replay(cfg, log + [e]) ==
            if Replay(cfg, log).None? then None else Step(cfg, Replay(cfg, log).value, e)
  {
    assert (log + [e])[..|log|] == log;
  }
}
