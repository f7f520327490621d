/** Resource definitions and the parameter shape they demand.

    A definition is the static `{ name, dependsOn, isSingleton }` part of a
    `ResourceDefinition`; its `keyFactory` is derived from exactly these three
    fields (see module KeyFactory) and its `query` is a caller callback whose
    results arrive as inputs to the binding transitions. */
module Resources {

  datatype ResourceDef = ResourceDef(name: string, dependsOn: seq<ResourceDef>, isSingleton: bool)

  /** `FlatResourceParameters<defs>` recast as the set of parameter names it
      requires: one string parameter per non-singleton resource, keyed by its
      name, over the list and, recursively, over each element's `dependsOn`. */
  function RequiredParams(defs: seq<ResourceDef>): set<string>
    decreases defs
  {
    if defs == [] then {}
    else
      var d := defs[0];
      (if d.isSingleton then {} else {d.name})
      + (if d.dependsOn == [] then {} else RequiredParams(d.dependsOn))
      + RequiredParams(defs[1..])
  }

  /** `r` is one of `defs` or lies in the dependency closure of one of them. */
  predicate Reaches(defs: seq<ResourceDef>, r: ResourceDef)
    decreases defs
  {
    defs != [] && (defs[0] == r || Reaches(defs[0].dependsOn, r) || Reaches(defs[1..], r))
  }

  /** Number of nodes of the dependency forest rooted at `defs`, counting a
      shared dependency once per path that reaches it. */
  function Nodes(defs: seq<ResourceDef>): nat
    decreases defs
  {
    if defs == [] then 0 else 1 + Nodes(defs[0].dependsOn) + Nodes(defs[1..])
  }

  /** The required parameters of one definition: its own name unless it is a
      singleton, plus those of its dependencies; an empty list needs none. */
  lemma RequiredOfOne(d: ResourceDef)
    ensures RequiredParams([]) == {}
    ensures !d.isSingleton ==> d.name in RequiredParams([d])
    ensures d.isSingleton ==> RequiredParams([d]) == RequiredParams(d.dependsOn)
    ensures RequiredParams(d.dependsOn) <= RequiredParams([d])
  {
    assert [d][1..] == [];
  }

  /** The required parameters of a list are the union over its parts. */
  lemma {:induction false} RequiredAppend(xs: seq<ResourceDef>, ys: seq<ResourceDef>)
    ensures RequiredParams(xs + ys) == RequiredParams(xs) + RequiredParams(ys)
    decreases xs
  {
    if xs != [] {
      assert (xs + ys)[0] == xs[0];
      assert (xs + ys)[1..] == xs[1..] + ys;
      RequiredAppend(xs[1..], ys);
    } else {
      assert xs + ys == ys;
    }
  }
}
