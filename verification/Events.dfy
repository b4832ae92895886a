/** What the controllers do to the outside and what they hear back, one event per request. */
module Events {
  import opened Options
  import opened Kube
  import opened Payload

  datatype Event =
    | SecretsListed(selector: Labels, secrets: Option<seq<Secret>>)
    | RolesListed(roles: Option<seq<Role>>)
    | ClockRead(now: int)
    | Asked(role: string, duration: int, answer: Option<Issued>)
    | SecretPut(secret: Secret, ok: bool)
    | SecretMade(secret: Secret, ok: bool)
    | SecretRemoved(key: Key, ok: bool)
    | StatusPut(resource: Role, ok: bool)
    | Looked(role: string, ns: string, found: bool)
    | StoreRead(wanted: seq<Wanted>)

  /** One entry of the role store as the creation loop walks it: a role and its namespaces. */
  datatype Wanted = Wanted(role: string, namespaces: seq<string>)

  // ---------------------------------------------------------------- the end of a log

  ghost predicate LastHeard(log: seq<Event>, e: Event) {
    |log| > 0 && log[|log| - 1] == e
  }

  /** The data has no readable expiry, or the clock was just read and the expiry is less than the limit
      away. */
  ghost predicate DueNow(refreshLimit: int, log: seq<Event>, data: Data) {
    || "expire" !in data || !data["expire"].Stamp?
    || (|log| > 0 && log[|log| - 1].ClockRead? && data["expire"].at < log[|log| - 1].now + refreshLimit)
  }
}
