/** The Kubernetes objects the controllers use and the API server that stores them. */
module Kube {
  import opened Options
  import opened Text

  datatype Key = Key(ns: string, name: string)

  datatype OwnerRef = OwnerRef(apiVersion: string, kind: string, name: string, uid: nat)

  /** One value of a secret's data. The rendered forms the controllers write are kept apart by
      constructor; whatever is none of them is Text. A Stamp is an RFC 3339 `date-time`
      (section 5.6) naming an instant in nanoseconds; formatting has cut it to a second. */
  datatype Blob =
    | Text(text: string)
    | Stamp(at: int)
    | CredentialsFile(fileKeyID: string, fileKey: string, fileToken: string, fileExpiration: int)
    | ProcessFile
    | CredentialsJson(version: int, jsonKeyID: string, jsonKey: string, jsonToken: string, expiration: int)

  type Data = map<string, Blob>
  type Labels = map<string, string>

  datatype Secret = Secret(
    key: Key, labels: Labels, owners: seq<OwnerRef>, data: Data, uid: nat, resourceVersion: nat)

  datatype Spec = Spec(roleReference: string, roleSessionDuration: int)

  datatype Status = Status(observedGeneration: Option<int>, roleARN: Blob, expiration: Option<int>)

  /** An AWSIAMRole resource. */
  datatype Role = Role(
    key: Key, apiVersion: string, kind: string, uid: nat, resourceVersion: nat, generation: int,
    labels: Labels, spec: Spec, status: Status)

  /** The stored objects; `next` is the next unused resourceVersion and UID. */
  datatype Cluster = Cluster(secrets: map<Key, Secret>, roles: map<Key, Role>, next: nat)

  ghost predicate WellFormed(c: Cluster) {
    && (forall k :: k in c.secrets ==> SecretFits(c.secrets[k], k, c.next))
    && (forall k :: k in c.roles ==> RoleFits(c.roles[k], k, c.next))
  }

  ghost predicate SecretFits(s: Secret, k: Key, next: nat) {
    s.key == k && s.uid < next && s.resourceVersion < next && OwnersFit(s.owners, next) && Lacks(k.ns, '/')
  }

  ghost predicate OwnersFit(owners: seq<OwnerRef>, next: nat) {
    forall i :: 0 <= i < |owners| ==> owners[i].uid < next
  }

  ghost predicate RoleFits(r: Role, k: Key, next: nat) {
    r.key == k && r.uid < next && r.resourceVersion < next && Lacks(k.ns, '/')
  }

  // ---------------------------------------------------------------- requests

  /** What happens to a request: it is served and answered, it fails before having any effect,
      or it is served and the answer is lost. */
  datatype Fault = Clear | Refused | Lost

  function Answered(f: Fault, before: Cluster, served: (Cluster, bool)): (Cluster, bool) {
    match f
    case Clear => served
    case Refused => (before, false)
    case Lost => (served.0, false)
  }

  /** Update needs the stored object to exist at the resourceVersion the caller read. */
  function UpdateSecret(c: Cluster, s: Secret): (Cluster, bool) {
    if s.key in c.secrets && c.secrets[s.key].resourceVersion == s.resourceVersion
    then (c.(secrets := c.secrets[s.key := s.(resourceVersion := c.next)], next := c.next + 1), true)
    else (c, false)
  }

  /** Delete is by name only. */
  function DeleteSecret(c: Cluster, k: Key): (Cluster, bool) {
    if k in c.secrets then (c.(secrets := c.secrets - {k}), true) else (c, false)
  }

  function CreateSecret(c: Cluster, s: Secret): (Cluster, bool) {
    if s.key in c.secrets then (c, false)
    else (c.(secrets := c.secrets[s.key := s.(uid := c.next, resourceVersion := c.next)], next := c.next + 1), true)
  }

  /** The status subresource: only the status of the sent object is stored. */
  function UpdateStatus(c: Cluster, r: Role): (Cluster, bool) {
    if r.key in c.roles && c.roles[r.key].resourceVersion == r.resourceVersion
    then
      var stored := c.roles[r.key].(status := r.status, resourceVersion := c.next);
      (c.(roles := c.roles[r.key := stored], next := c.next + 1), true)
    else (c, false)
  }

  /** Apart from the secret of this name, the cluster is as it was. */
  ghost predicate SameButSecret(c: Cluster, d: Cluster, k: Key) {
    d.roles == c.roles && d.next >= c.next && d.secrets - {k} == c.secrets - {k}
  }

  /** Apart from the role of this name, the cluster is as it was. */
  ghost predicate SameButRole(c: Cluster, d: Cluster, k: Key) {
    d.secrets == c.secrets && d.next >= c.next && d.roles - {k} == c.roles - {k}
  }

  /** What the four requests do to any cluster: when they succeed, what they store and under which new
      version, and that they touch nothing else; a request that does not succeed changes nothing. */
  lemma RequestLaws(c: Cluster, s: Secret, k: Key, r: Role)
    requires WellFormed(c)
    ensures var (d, ok) := UpdateSecret(c, s);
            && (ok <==> s.key in c.secrets && c.secrets[s.key].resourceVersion == s.resourceVersion)
            && SameButSecret(c, d, s.key) && (!ok ==> d == c)
            && (ok ==> s.key in d.secrets && d.secrets[s.key] == s.(resourceVersion := c.next) && d.next > c.next)
    ensures var (d, ok) := CreateSecret(c, s);
            && (ok <==> s.key !in c.secrets) && SameButSecret(c, d, s.key) && (!ok ==> d == c)
            && (ok ==> s.key in d.secrets && d.secrets[s.key] == s.(uid := c.next, resourceVersion := c.next)
                       && d.next > c.next)
    ensures var (d, ok) := DeleteSecret(c, k);
            && (ok <==> k in c.secrets) && SameButSecret(c, d, k) && k !in d.secrets
    ensures var (d, ok) := UpdateStatus(c, r);
            && (ok <==> r.key in c.roles && c.roles[r.key].resourceVersion == r.resourceVersion)
            && SameButRole(c, d, r.key) && (!ok ==> d == c)
            && (ok ==> r.key in d.roles && d.next > c.next
                       && d.roles[r.key] == c.roles[r.key].(status := r.status, resourceVersion := c.next))
  {
  }

  predicate Selected(labels: Labels, selector: Labels) {
    forall l :: l in selector ==> l in labels && labels[l] == selector[l]
  }

  /** The namespace a client is limited to; the empty one means all. */
  predicate InScope(scope: string, k: Key) {
    scope == "" || k.ns == scope
  }

  ghost predicate UniqueSecrets(secrets: seq<Secret>) {
    forall i, j :: 0 <= i < j < |secrets| ==> secrets[i].key != secrets[j].key
  }

  ghost predicate UniqueRoles(roles: seq<Role>) {
    forall i, j :: 0 <= i < j < |roles| ==> roles[i].key != roles[j].key
  }

  /** A list answer: the selected objects in scope, each once, in any order. */
  ghost predicate SecretListing(c: Cluster, scope: string, selector: Labels, items: seq<Secret>) {
    && (forall i :: 0 <= i < |items| ==> SecretIsListed(c, scope, selector, items[i]))
    && UniqueSecrets(items)
    && (forall k :: k in c.secrets && InScope(scope, k) && Selected(c.secrets[k].labels, selector) ==>
          c.secrets[k] in items)
  }

  ghost predicate SecretIsListed(c: Cluster, scope: string, selector: Labels, s: Secret) {
    && s.key in c.secrets && c.secrets[s.key] == s
    && InScope(scope, s.key) && Selected(s.labels, selector)
  }

  ghost predicate RoleIsListed(c: Cluster, scope: string, r: Role) {
    r.key in c.roles && c.roles[r.key] == r && InScope(scope, r.key)
  }

  ghost predicate RoleListing(c: Cluster, scope: string, items: seq<Role>) {
    && (forall i :: 0 <= i < |items| ==> RoleIsListed(c, scope, items[i]))
    && UniqueRoles(items)
    && (forall k :: k in c.roles && InScope(scope, k) ==> c.roles[k] in items)
  }

  // ---------------------------------------------------------------- keys as map keys

  /** The string the controllers index their maps by. */
  function MapKey(k: Key): string {
    k.ns + "/" + k.name
  }

  /** It is injective because a namespace holds no slash. */
  lemma MapKeyInjective(a: Key, b: Key)
    requires Lacks(a.ns, '/') && Lacks(b.ns, '/')
    requires MapKey(a) == MapKey(b)
    ensures a == b
  {
    assert MapKey(a) == a.ns + ['/'] + a.name && MapKey(b) == b.ns + ['/'] + b.name;
    SplitCons(a.ns, '/', a.name);
    SplitCons(b.ns, '/', b.name);
    assert a.ns == Split(MapKey(a), '/')[0] == b.ns;
    assert a.name == MapKey(a)[|a.ns| + 1..];
    assert b.name == MapKey(b)[|b.ns| + 1..];
  }

  /** Without that, it is not. */
  lemma MapKeyNeedsSlashFreeNamespaces()
    ensures MapKey(Key("a/b", "c")) == MapKey(Key("a", "b/c")) && Key("a/b", "c") != Key("a", "b/c")
  {
  }
}
