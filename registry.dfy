/** The adapter registry (src/adapters/registry.ts): a name-to-adapter JavaScript `Map`. */
module Registry {
  import opened Wrappers
  import opened JsMap
  import opened Adapters

  /** The names in the order of their first appearance, each once. */
  function FirstOccurrences(names: seq<string>): (r: seq<string>)
    ensures forall n :: n in r <==> n in names
    ensures Distinct(r)
  {
    if |names| == 0 then []
    else
      var init := FirstOccurrences(names[..|names| - 1]);
      var last := names[|names| - 1];
      assert forall n :: n in names <==> n in names[..|names| - 1] || n == last;
      if last in init then init else init + [last]
  }

  /** The map after registering each (name, adapter) pair in turn. */
  function RegisterAll(m: OMap<Adapter>, regs: seq<(string, Adapter)>): OMap<Adapter>
  {
    if |regs| == 0 then m
    else
      var (name, a) := regs[|regs| - 1];
      Set(RegisterAll(m, regs[..|regs| - 1]), name, a)
  }

  function Names(regs: seq<(string, Adapter)>): (r: seq<string>)
    ensures |r| == |regs| && forall i :: 0 <= i < |regs| ==> r[i] == regs[i].0
  {
    if |regs| == 0 then [] else Names(regs[..|regs| - 1]) + [regs[|regs| - 1].0]
  }

  /**
   * `list()` after a run of registrations into an empty registry: every name registered,
   * once, in the order of its first registration, however often it was re-registered.
   */
  lemma {:induction false} ListIsFirstRegistrationOrder(regs: seq<(string, Adapter)>)
    ensures RegisterAll(Empty(), regs).keys == FirstOccurrences(Names(regs))
    ensures Valid(RegisterAll(Empty(), regs))
  {
    if |regs| > 0 {
      var init := regs[..|regs| - 1];
      ListIsFirstRegistrationOrder(init);
      assert Names(regs)[..|regs| - 1] == Names(init);
    }
  }

  /** The registry answers with the adapter registered last under a name. */
  lemma {:induction false} GetIsLastRegistration(regs: seq<(string, Adapter)>, name: string, i: nat)
    requires i < |regs| && regs[i].0 == name
    requires forall j :: i < j < |regs| ==> regs[j].0 != name
    ensures Get(RegisterAll(Empty(), regs), name) == Some(regs[i].1)
  {
    if i < |regs| - 1 {
      GetIsLastRegistration(regs[..|regs| - 1], name, i);
    }
  }

  class AdapterRegistry {
    var adapters: OMap<Adapter>

    ghost predicate Valid()
      reads this
    {
      JsMap.Valid(adapters)
    }

    constructor()
      ensures Valid() && adapters == Empty()
    {
      adapters := Empty();
    }

    /** `adapters.set(name, adapter)`: a new name goes last, an old one is rebound in place. */
    method Register(name: string, adapter: Adapter)
      requires Valid()
      modifies this
      ensures Valid()
      ensures adapters == Set(old(adapters), name, adapter)
    {
      adapters := Set(adapters, name, adapter);
    }

    /** The adapter bound to `name`; None (`undefined`) when it was never registered. */
    function Get(name: string): (r: Option<Adapter>)
      reads this
      ensures r.Some? <==> name in adapters.entries
      ensures r.Some? ==> r.value == adapters.entries[name]
    {
      JsMap.Get(adapters, name)
    }

    /** `[...adapters.keys()]`: every registered name exactly once, in registration order. */
    function List(): (r: seq<string>)
      requires Valid()
      reads this
      ensures Distinct(r)
      ensures forall n :: n in r <==> n in adapters.entries
      ensures r == adapters.keys
    {
      adapters.keys
    }
  }
}
