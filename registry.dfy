/** The component registry (packages/txmanager/src/lib/tccregister.ts). */
module Registry {
  import opened Wrappers
  import opened Errors
  import opened Component

  type Directory = map<string, ComponentRef>

  /** Every component sits under the identifier it reports. */
  predicate Keyed(m: Directory) {
    forall id :: id in m ==> m[id].id == id
  }

  /** `getComponents(...ids)` as a function of the map: every id resolved, in
      request order, or the error for the first id that is missing. */
  function Lookup(m: Directory, ids: seq<string>): (r: Result<seq<ComponentRef>, Error>)
    ensures r.Success? <==> forall i :: 0 <= i < |ids| ==> ids[i] in m
    ensures r.Success? ==> |r.value| == |ids| && forall i :: 0 <= i < |ids| ==> r.value[i] == m[ids[i]]
    ensures r.Failure? ==>
      exists k :: 0 <= k < |ids| && ids[k] !in m && r.error == UnknownComponentID(ids[k]) &&
        forall j :: 0 <= j < k ==> ids[j] in m
  {
    if ids == [] then Success([])
    else if ids[0] !in m then Failure(UnknownComponentID(ids[0]))
    else
      match Lookup(m, ids[1..])
      case Success(rest) => Success([m[ids[0]]] + rest)
      case Failure(e) => Failure(e)
  }

  class RegistryCenter {
    var components: Directory

    ghost predicate Valid()
      reads this
    {
      Keyed(components)
    }

    constructor ()
      ensures Valid() && components == map[]
    {
      components := map[];
    }

    method Register(component: ComponentRef) returns (r: Result<(), Error>)
      requires Valid()
      modifies this
      ensures Valid()
      ensures component.id in old(components) ==>
        r == Failure(DuplicateComponentID(component.id)) && components == old(components)
      ensures component.id !in old(components) ==>
        r == Success(()) && components == old(components)[component.id := component]
    {
      if component.id in components {
        return Failure(DuplicateComponentID(component.id));
      }
      components := components[component.id := component];
      r := Success(());
    }

    method GetComponents(ids: seq<string>) returns (r: Result<seq<ComponentRef>, Error>)
      ensures r == Lookup(components, ids)
      ensures r.Success? ==> |r.value| == |ids| && forall i :: 0 <= i < |ids| ==> r.value[i] == components[ids[i]]
      ensures r.Failure? <==> exists i :: 0 <= i < |ids| && ids[i] !in components
    {
      var m := components;
      var res: seq<ComponentRef> := [];
      for i := 0 to |ids|
        invariant forall j :: 0 <= j < i ==> ids[j] in m
        invariant |res| == i && forall j :: 0 <= j < i ==> res[j] == m[ids[j]]
      {
        if ids[i] in m {
          res := res + [m[ids[i]]];
        } else {
          return Failure(UnknownComponentID(ids[i]));
        }
      }
      assert res == Lookup(m, ids).value;
      return Success(res);
    }
  }

  /** Registering an unused id: a lookup of that id returns the new
      component, and every lookup that succeeded before still gives the
      same answer. */
  lemma RegisterThenLookup(m: Directory, c: ComponentRef, ids: seq<string>)
    requires c.id !in m
    ensures Lookup(m[c.id := c], [c.id]) == Success([c])
    ensures Lookup(m, ids).Success? ==> Lookup(m[c.id := c], ids) == Lookup(m, ids)
  {
    var m' := m[c.id := c];
    var one := Lookup(m', [c.id]);
    assert one.value == [c];
    if Lookup(m, ids).Success? {
      assert forall i :: 0 <= i < |ids| ==> ids[i] != c.id;
      assert Lookup(m', ids).value == Lookup(m, ids).value;
    }
  }

  /** A refused duplicate leaves the first component retrievable. */
  lemma DuplicateKeepsFirst(m: Directory, c: ComponentRef)
    requires c.id in m
    ensures Lookup(m, [c.id]) == Success([m[c.id]])
  {
    assert Lookup(m, [c.id]).value == [m[c.id]];
  }

  /** A repeated id in a request yields the same component at each of its positions. */
  lemma RepeatedIdsRepeat(m: Directory, ids: seq<string>, i: nat, j: nat)
    requires i < |ids| && j < |ids| && ids[i] == ids[j]
    requires Lookup(m, ids).Success?
    ensures Lookup(m, ids).value[i] == Lookup(m, ids).value[j]
  {
  }

  /** No partial answer: one missing id makes the whole lookup fail. */
  lemma OneMissingFailsAll(m: Directory, ids: seq<string>, i: nat)
    requires i < |ids| && ids[i] !in m
    ensures Lookup(m, ids).Failure?
  {
  }
}
