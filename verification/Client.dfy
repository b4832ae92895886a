/** The outside as a controller meets it: the API server, the clock and STS. Before every request
    the rest of the world may change the cluster, as the script `meanwhile` says. */
module Clients {
  import opened Options
  import opened Kube
  import opened Payload
  import opened RolePass
  import opened Events
  import Text

  type Script = (nat, Cluster) -> Cluster

  /** A script that changes nothing. */
  ghost predicate Quiet(meanwhile: Script) {
    forall n, c :: meanwhile(n, c) == c
  }

  /** A script that keeps the API server's own invariants. */
  ghost predicate Sound(meanwhile: Script) {
    forall n, c :: WellFormed(c) ==> WellFormed(meanwhile(n, c)) && meanwhile(n, c).next >= c.next
  }

  /** What the outside holds ready for one pass: an answer to each question and the fate of each
      request, of which a pass makes at most one per key and place in the source. */
  datatype Weather = Weather(oracle: Oracle, secretsFail: bool, rolesFail: bool)

  lemma ListedExactly(c: Cluster, scope: string, selector: Labels, items: seq<Secret>)
    requires SecretListing(c, scope, selector, items)
    ensures UniqueSecrets(items)
    ensures forall s :: s in items <==>
              && s.key in c.secrets && c.secrets[s.key] == s && (scope == "" || s.key.ns == scope)
              && forall l :: l in selector ==> l in s.labels && s.labels[l] == selector[l]
  {
    forall s | s in items ensures SecretIsListed(c, scope, selector, s) {
    }
  }

  class Client {
    var cluster: Cluster
    var requests: nat
    var oracle: Oracle
    var secretsFail: bool
    var rolesFail: bool
    const meanwhile: Script

    /** The outside in every pass from here on, and the number of the next one. */
    const forecast: nat -> Weather
    var pass: nat

    /** Every request this client made and what came back. */
    ghost var log: seq<Event>

    /** Nobody else touches the cluster. */
    ghost predicate Alone() {
      Quiet(meanwhile)
    }

    ghost predicate Valid()
      reads this
    {
      WellFormed(cluster) && Sound(meanwhile)
    }

    /** The cluster that the next request meets. */
    ghost function Met(): Cluster
      reads this
    {
      meanwhile(requests, cluster)
    }

    constructor (cluster: Cluster, forecast: nat -> Weather, meanwhile: Script)
      requires WellFormed(cluster)
      requires Sound(meanwhile)
      ensures Valid() && log == [] && this.cluster == cluster && this.meanwhile == meanwhile
      ensures this.forecast == forecast && pass == 0
    {
      this.cluster, this.forecast, this.meanwhile := cluster, forecast, meanwhile;
      var w := forecast(0);
      oracle, secretsFail, rolesFail := w.oracle, w.secretsFail, w.rolesFail;
      requests, pass := 0, 0;
      log := [];
    }

    /** A new pass meets new weather. */
    method NextPass()
      modifies this`oracle, this`secretsFail, this`rolesFail, this`pass
      ensures pass == old(pass) + 1 && Weather(oracle, secretsFail, rolesFail) == forecast(old(pass))
    {
      var w := forecast(pass);
      oracle, secretsFail, rolesFail := w.oracle, w.secretsFail, w.rolesFail;
      pass := pass + 1;
    }

    method Await()
      requires Valid()
      modifies this`cluster, this`requests
      ensures Valid()
      ensures cluster == old(Met()) && cluster.next >= old(cluster.next)
      ensures Alone() ==> cluster == old(cluster)
    {
      cluster := meanwhile(requests, cluster);
      requests := requests + 1;
    }

    method ListSecrets(scope: string, selector: Labels) returns (items: Option<seq<Secret>>)
      requires Valid()
      modifies this`cluster, this`requests, this`log
      ensures Valid() && cluster.next >= old(cluster.next) && log == old(log) + [SecretsListed(selector, items)]
      ensures Alone() ==> cluster == old(cluster)
      ensures cluster == old(Met())
      ensures items.None? <==> secretsFail
      ensures items.Some? ==> SecretListing(cluster, scope, selector, items.value)
      ensures items.Some? ==>
                && UniqueSecrets(items.value)
                && forall s :: s in items.value <==>
                     && s.key in cluster.secrets && cluster.secrets[s.key] == s && (scope == "" || s.key.ns == scope)
                     && forall l :: l in selector ==> l in s.labels && s.labels[l] == selector[l]
    {
      Await();
      if secretsFail {
        items := None;
      } else {
        var found: seq<Secret> := [];
        var todo := cluster.secrets.Keys;
        while todo != {}
          invariant todo <= cluster.secrets.Keys
          invariant forall i :: 0 <= i < |found| ==>
                      SecretIsListed(cluster, scope, selector, found[i]) && found[i].key !in todo
          invariant forall i, j :: 0 <= i < j < |found| ==> found[i].key != found[j].key
          invariant forall k ::
                      (k in cluster.secrets && k !in todo &&
                       InScope(scope, k) && Selected(cluster.secrets[k].labels, selector)) ==>
                        cluster.secrets[k] in found
          decreases |todo|
        {
          var k :| k in todo;
          todo := todo - {k};
          if InScope(scope, k) && Selected(cluster.secrets[k].labels, selector) {
            found := found + [cluster.secrets[k]];
          }
        }
        items := Some(found);
        ListedExactly(cluster, scope, selector, found);
      }
      log := log + [SecretsListed(selector, items)];
    }

    method ListRoles(scope: string) returns (items: Option<seq<Role>>)
      requires Valid()
      modifies this`cluster, this`requests, this`log
      ensures Valid() && cluster.next >= old(cluster.next) && log == old(log) + [RolesListed(items)]
      ensures Alone() ==> cluster == old(cluster)
      ensures cluster == old(Met())
      ensures items.None? <==> rolesFail
      ensures items.Some? ==> RoleListing(cluster, scope, items.value)
      ensures items.Some? ==>
                && UniqueRoles(items.value)
                && forall r :: r in items.value <==>
                     r.key in cluster.roles && cluster.roles[r.key] == r && (scope == "" || r.key.ns == scope)
    {
      Await();
      if rolesFail {
        items := None;
      } else {
        var found: seq<Role> := [];
        var todo := cluster.roles.Keys;
        while todo != {}
          invariant todo <= cluster.roles.Keys
          invariant forall i :: 0 <= i < |found| ==> RoleIsListed(cluster, scope, found[i]) && found[i].key !in todo
          invariant forall i, j :: 0 <= i < j < |found| ==> found[i].key != found[j].key
          invariant forall k :: k in cluster.roles && k !in todo && InScope(scope, k) ==> cluster.roles[k] in found
          decreases |todo|
        {
          var k :| k in todo;
          todo := todo - {k};
          if InScope(scope, k) {
            found := found + [cluster.roles[k]];
          }
        }
        items := Some(found);
      }
      log := log + [RolesListed(items)];
    }

    method Now(k: Key) returns (now: int)
      requires Valid()
      modifies this`log
      ensures Valid() && log == old(log) + [ClockRead(now)] && now == oracle(k).now
    {
      now := oracle(k).now;
      log := log + [ClockRead(now)];
    }

    method AssumeRole(k: Key, site: Site, role: string, duration: int) returns (answer: Option<Issued>)
      requires Valid()
      modifies this`log
      ensures Valid() && log == old(log) + [Asked(role, duration, answer)] && answer == AskAt(oracle(k), site)
    {
      answer := AskAt(oracle(k), site);
      log := log + [Asked(role, duration, answer)];
    }

    method UpdateSecret(s: Secret, site: Site) returns (ok: bool)
      requires Valid() && SecretFits(s, s.key, cluster.next)
      modifies this`cluster, this`requests, this`log
      ensures Valid() && cluster.next >= old(cluster.next) && log == old(log) + [SecretPut(s, ok)]
      ensures (cluster, ok) == Answered(FaultAt(oracle(s.key), site), old(Met()), Kube.UpdateSecret(old(Met()), s))
      ensures Alone() ==> old(Met()) == old(cluster)
    {
      Await();
      var served := Answered(FaultAt(oracle(s.key), site), cluster, Kube.UpdateSecret(cluster, s));
      cluster, ok := served.0, served.1;
      log := log + [SecretPut(s, ok)];
    }

    method CreateSecret(s: Secret, site: Site) returns (ok: bool)
      requires Valid() && OwnersFit(s.owners, cluster.next) && Text.Lacks(s.key.ns, '/')
      modifies this`cluster, this`requests, this`log
      ensures Valid() && cluster.next >= old(cluster.next) && log == old(log) + [SecretMade(s, ok)]
      ensures (cluster, ok) == Answered(FaultAt(oracle(s.key), site), old(Met()), Kube.CreateSecret(old(Met()), s))
      ensures Alone() ==> old(Met()) == old(cluster)
    {
      Await();
      var served := Answered(FaultAt(oracle(s.key), site), cluster, Kube.CreateSecret(cluster, s));
      cluster, ok := served.0, served.1;
      log := log + [SecretMade(s, ok)];
    }

    method DeleteSecret(k: Key, site: Site) returns (ok: bool)
      requires Valid()
      modifies this`cluster, this`requests, this`log
      ensures Valid() && cluster.next >= old(cluster.next) && log == old(log) + [SecretRemoved(k, ok)]
      ensures (cluster, ok) == Answered(FaultAt(oracle(k), site), old(Met()), Kube.DeleteSecret(old(Met()), k))
      ensures Alone() ==> old(Met()) == old(cluster)
    {
      Await();
      var served := Answered(FaultAt(oracle(k), site), cluster, Kube.DeleteSecret(cluster, k));
      cluster, ok := served.0, served.1;
      log := log + [SecretRemoved(k, ok)];
    }

    method UpdateStatus(r: Role, site: Site) returns (ok: bool)
      requires Valid()
      modifies this`cluster, this`requests, this`log
      ensures Valid() && cluster.next >= old(cluster.next) && log == old(log) + [StatusPut(r, ok)]
      ensures (cluster, ok) == Answered(FaultAt(oracle(r.key), site), old(Met()), Kube.UpdateStatus(old(Met()), r))
      ensures Alone() ==> old(Met()) == old(cluster)
    {
      Await();
      var served := Answered(FaultAt(oracle(r.key), site), cluster, Kube.UpdateStatus(cluster, r));
      cluster, ok := served.0, served.1;
      log := log + [StatusPut(r, ok)];
    }
  }
}
