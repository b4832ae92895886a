/** role_store.go: a map of maps of pod-name sets, changed in place. Go maps are references, so
    the inner maps are objects here and the model can say that none is shared. */
module RoleStores {

  /** The contents of a store as a value: role -> namespace -> pod names. */
  type Nested = map<string, map<string, set<string>>>

  /** The innermost Go map, `map[string]struct{}`. The ghost constants record the one place in a
      store where the object may hang. */
  class PodSet {
    var names: set<string>
    ghost const role: string
    ghost const ns: string

    constructor (name: string, ghost role: string, ghost ns: string)
      ensures names == {name} && this.role == role && this.ns == ns
    {
      names := {name};
      this.role, this.ns := role, ns;
    }
  }

  /** The middle Go map, from namespaces to pod sets. */
  class NamespaceMap {
    var pods: map<string, PodSet>
    ghost const role: string

    constructor (ns: string, podSet: PodSet, ghost role: string)
      ensures pods == map[ns := podSet] && this.role == role
    {
      pods := map[ns := podSet];
      this.role := role;
    }
  }

  class RoleStore {
    var store: map<string, NamespaceMap>

    ghost var Value: Nested
    ghost var Repr: set<object>

    ghost predicate Valid()
      reads this, Repr
    {
      && this in Repr
      && store.Keys == Value.Keys
      && (forall r :: r in store ==> store[r] in Repr && store[r].role == r)
      && (forall r :: r in store ==> store[r].pods.Keys == Value[r].Keys)
      && (forall r, n :: r in store && n in store[r].pods ==> store[r].pods[n] in Repr)
      && (forall r, n :: r in store && n in store[r].pods ==>
            store[r].pods[n].role == r && store[r].pods[n].ns == n)
      && (forall r, n :: r in store && n in store[r].pods ==> store[r].pods[n].names == Value[r][n])
    }

    /** No inner map is reachable by two paths. */
    lemma NothingShared(role: string, ns: string, role': string, ns': string)
      requires Valid() && role in store && role' in store
      ensures store[role] == store[role'] ==> role == role'
      ensures ns in store[role].pods && ns' in store[role'].pods && store[role].pods[ns] == store[role'].pods[ns'] ==>
                role == role' && ns == ns'
    {
      if ns in store[role].pods && ns' in store[role'].pods {
        assert store[role].pods[ns].role == role && store[role'].pods[ns'].role == role';
      }
    }

    constructor ()
      ensures Valid() && fresh(Repr) && Value == map[]
    {
      store := map[];
      Value, Repr := map[], {this};
    }

    method Exists(role: string, ns: string) returns (found: bool)
      requires Valid()
      ensures found <==> role in Value && ns in Value[role]
    {
      if role in store {
        if ns in store[role].pods {
          return true;
        }
      }
      return false;
    }

    method Add(role: string, ns: string, name: string)
      requires Valid()
      modifies Repr
      ensures Valid() && fresh(Repr - old(Repr))
      ensures Value == Added(old(Value), role, ns, name)
    {
      if role in store {
        if ns in store[role].pods {
          SetPods(role, ns, store[role].pods[ns].names + {name});
        } else {
          var pods := new PodSet(name, role, ns);
          LinkNamespace(role, ns, pods);
        }
      } else {
        var pods := new PodSet(name, role, ns);
        var spaces := new NamespaceMap(ns, pods, role);
        LinkRole(role, ns, spaces, pods);
      }
    }

    method Remove(role: string, ns: string, name: string)
      requires Valid()
      modifies Repr
      ensures Valid() && fresh(Repr - old(Repr))
      ensures Value == Removed(old(Value), role, ns, name)
    {
      if role in store {
        if ns in store[role].pods {
          if name in store[role].pods[ns].names {
            if |store[role].pods[ns].names| == 1 {
              UnlinkNamespace(role, ns);
            } else {
              SetPods(role, ns, store[role].pods[ns].names - {name});
            }
          }
          if |store[role].pods| == 0 {
            UnlinkRole(role);
          }
        }
      }
    }

    // The map assignments and deletions of Add and Remove, one each.

    method SetPods(role: string, ns: string, names: set<string>)
      requires Valid() && role in store && ns in store[role].pods
      modifies Repr
      ensures Valid() && Repr == old(Repr) && store == old(store)
      ensures Value == old(Value)[role := old(Value)[role][ns := names]]
    {
      var pods := store[role].pods[ns];
      pods.names := names;
      Value := Value[role := Value[role][ns := names]];
      forall r, n | r in store && n in store[r].pods ensures store[r].pods[n].names == Value[r][n] {
        if r != role || n != ns {
          assert store[r].pods[n] != pods;
        }
      }
    }

    method LinkNamespace(role: string, ns: string, pods: PodSet)
      requires Valid() && role in store && ns !in store[role].pods
      requires pods !in Repr && pods.role == role && pods.ns == ns
      modifies Repr
      ensures Valid() && Repr == old(Repr) + {pods}
      ensures Value == old(Value)[role := old(Value)[role][ns := pods.names]]
    {
      var spaces := store[role];
      spaces.pods := spaces.pods[ns := pods];
      Value := Value[role := Value[role][ns := pods.names]];
      Repr := Repr + {pods};
      forall r, n | r in store && n in store[r].pods
        ensures store[r].pods[n] in Repr && store[r].pods[n].role == r && store[r].pods[n].ns == n
        ensures store[r].pods[n].names == Value[r][n]
      {
        if r != role {
          assert store[r] != spaces;
        }
      }
    }

    method LinkRole(role: string, ns: string, spaces: NamespaceMap, pods: PodSet)
      requires Valid() && role !in store
      requires spaces !in Repr && spaces.role == role && spaces.pods == map[ns := pods]
      requires pods !in Repr && pods.role == role && pods.ns == ns
      modifies Repr
      ensures Valid() && Repr == old(Repr) + {spaces, pods}
      ensures Value == old(Value)[role := map[ns := pods.names]]
    {
      store := store[role := spaces];
      Value := Value[role := map[ns := pods.names]];
      Repr := Repr + {spaces, pods};
    }

    method UnlinkNamespace(role: string, ns: string)
      requires Valid() && role in store && ns in store[role].pods
      modifies Repr
      ensures Valid() && Repr == old(Repr) && store == old(store)
      ensures Value == old(Value)[role := old(Value)[role] - {ns}]
    {
      var spaces := store[role];
      spaces.pods := spaces.pods - {ns};
      Value := Value[role := Value[role] - {ns}];
    }

    method UnlinkRole(role: string)
      requires Valid()
      modifies Repr
      ensures Valid() && Repr == old(Repr)
      ensures Value == old(Value) - {role}
    {
      store := store - {role};
      Value := Value - {role};
    }
  }

  // ---------------------------------------------------------------- the nested map as a value

  /** The nested map after Add. */
  function Added(v: Nested, role: string, ns: string, name: string): Nested {
    if role !in v then v[role := map[ns := {name}]]
    else if ns !in v[role] then v[role := v[role][ns := {name}]]
    else v[role := v[role][ns := v[role][ns] + {name}]]
  }

  /** The nested map after Remove: a set that would become empty goes, and so does its parent. */
  function Removed(v: Nested, role: string, ns: string, name: string): Nested {
    if role !in v || ns !in v[role] then v
    else
      var spaces :=
        if name !in v[role][ns] then v[role]
        else if |v[role][ns]| == 1 then v[role] - {ns}
        else v[role][ns := v[role][ns] - {name}];
      if |spaces| == 0 then v - {role} else v[role := spaces]
  }

  /** The set of (role, namespace, pod) entries a nested map stands for. */
  datatype Entry = Entry(role: string, ns: string, pod: string)

  predicate Holds(v: Nested, e: Entry) {
    e.role in v && e.ns in v[e.role] && e.pod in v[e.role][e.ns]
  }

  /** No inner map is empty. */
  ghost predicate NoEmptyInner(v: Nested) {
    && (forall r :: r in v ==> v[r] != map[])
    && (forall r, n :: r in v && n in v[r] ==> v[r][n] != {})
  }

  /** Add is insertion of one entry. */
  lemma AddedIsInsertion(v: Nested, role: string, ns: string, name: string)
    requires NoEmptyInner(v)
    ensures NoEmptyInner(Added(v, role, ns, name))
    ensures forall e :: Holds(Added(v, role, ns, name), e) <==> Holds(v, e) || e == Entry(role, ns, name)
  {
    var w := Added(v, role, ns, name);
    assert ns in w[role] && name in w[role][ns];
  }

  /** Remove is removal of one entry. */
  lemma RemovedIsRemoval(v: Nested, role: string, ns: string, name: string)
    requires NoEmptyInner(v)
    ensures NoEmptyInner(Removed(v, role, ns, name))
    ensures forall e :: Holds(Removed(v, role, ns, name), e) <==> Holds(v, e) && e != Entry(role, ns, name)
  {
    if role in v && ns in v[role] && name in v[role][ns] {
      var pods := v[role][ns];
      if |pods| == 1 {
        OnlyMember(pods, name);
        RemovedNamespace(v, role, ns, name);
      } else {
        OtherMember(pods, name);
        assert v[role][ns := pods - {name}] != map[];
      }
    }
  }

  lemma RemovedNamespace(v: Nested, role: string, ns: string, name: string)
    requires NoEmptyInner(v)
    requires role in v && ns in v[role] && v[role][ns] == {name}
    ensures NoEmptyInner(Removed(v, role, ns, name))
    ensures forall e :: Holds(Removed(v, role, ns, name), e) <==> Holds(v, e) && e != Entry(role, ns, name)
  {
    var spaces := v[role] - {ns};
    if |spaces| == 0 {
      assert spaces == map[];
      forall e | Holds(v, e) && e.role == role ensures e == Entry(role, ns, name) {
        assert e.ns in v[role] && e.ns !in spaces;
      }
    }
  }

  lemma OnlyMember(s: set<string>, x: string)
    requires x in s && |s| == 1
    ensures s == {x}
  {
    assert |s - {x}| == 0;
  }

  lemma OtherMember(s: set<string>, x: string)
    requires x in s && |s| != 1
    ensures s - {x} != {}
  {
    assert s - {x} == {} ==> s == {x};
  }

  /** What Exists reads, a namespace entry under the role, means that some pod uses the role there. */
  ghost predicate HasPair(v: Nested, role: string, ns: string) {
    exists pod :: Holds(v, Entry(role, ns, pod))
  }

  lemma ExistsIffSomePod(v: Nested, role: string, ns: string)
    requires NoEmptyInner(v)
    ensures role in v && ns in v[role] <==> HasPair(v, role, ns)
  {
    if role in v && ns in v[role] {
      var pod :| pod in v[role][ns];
      assert Holds(v, Entry(role, ns, pod));
    }
  }

  // ---------------------------------------------------------------- whole histories

  datatype Op = AddOp(entry: Entry) | RemoveOp(entry: Entry)

  /** The nested map after a sequence of operations on a new store. */
  function Replay(ops: seq<Op>): Nested {
    if |ops| == 0 then map[]
    else
      var before := Replay(ops[..|ops| - 1]);
      match ops[|ops| - 1]
      case AddOp(e) => Added(before, e.role, e.ns, e.pod)
      case RemoveOp(e) => Removed(before, e.role, e.ns, e.pod)
  }

  /** Position `i` holds the last operation on `e`. */
  ghost predicate LastOn(ops: seq<Op>, e: Entry, i: int) {
    0 <= i < |ops| && ops[i].entry == e && forall j :: i < j < |ops| ==> ops[j].entry != e
  }

  /** An entry is present exactly when its last operation was Add. */
  lemma {:induction false} PresentIffLastAdded(ops: seq<Op>, e: Entry)
    ensures NoEmptyInner(Replay(ops))
    ensures Holds(Replay(ops), e) <==> exists i :: LastOn(ops, e, i) && ops[i].AddOp?
  {
    if |ops| > 0 {
      var n := |ops| - 1;
      PresentIffLastAdded(ops[..n], e);
      var last := ops[n].entry;
      AddedIsInsertion(Replay(ops[..n]), last.role, last.ns, last.pod);
      RemovedIsRemoval(Replay(ops[..n]), last.role, last.ns, last.pod);
      if last == e {
        assert LastOn(ops, e, n);
      } else {
        forall i | 0 <= i < n ensures LastOn(ops, e, i) <==> LastOn(ops[..n], e, i) {
        }
      }
    }
  }

  /** Exists holds exactly when some pod's last operation there was Add. */
  lemma ExistsIffSomePodAdded(ops: seq<Op>, role: string, ns: string)
    ensures role in Replay(ops) && ns in Replay(ops)[role] <==>
              exists pod, i :: LastOn(ops, Entry(role, ns, pod), i) && ops[i].AddOp?
  {
    PresentIffLastAdded(ops, Entry(role, ns, ""));
    ExistsIffSomePod(Replay(ops), role, ns);
    forall pod ensures Holds(Replay(ops), Entry(role, ns, pod)) <==>
                         exists i :: LastOn(ops, Entry(role, ns, pod), i) && ops[i].AddOp? {
      PresentIffLastAdded(ops, Entry(role, ns, pod));
    }
  }

  /** Any sequence of operations on a real store leaves it valid and holding the replayed value. */
  method Perform(ops: seq<Op>) returns (s: RoleStore)
    ensures s.Valid() && fresh(s.Repr) && s.Value == Replay(ops)
  {
    s := new RoleStore();
    for i := 0 to |ops|
      invariant s.Valid() && fresh(s.Repr) && s.Value == Replay(ops[..i])
    {
      assert ops[..i + 1][..i] == ops[..i];
      match ops[i] {
        case AddOp(e) => s.Add(e.role, e.ns, e.pod);
        case RemoveOp(e) => s.Remove(e.role, e.ns, e.pod);
      }
    }
    assert ops[..|ops|] == ops;
  }
}
