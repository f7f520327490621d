/** Interactions between bindings that share one store. */
module Scenarios {
  import opened Results
  import opened Resources
  import opened KeyFactory
  import opened Cache
  import SingleResource
  import Collection
  import Action

  /** A failed optimistic create on a key that had no entry leaves an
      `undefined` slot behind, after which every collection view over the
      store throws. */
  lemma FailedCreateBreaksCollectionViews<D, E>(
    resource: ResourceDef, store: Store<D>, o: Action.ActionReturn<D>, e: E,
    listed: ResourceDef, select: map<string, string>)
    requires Key(resource, o.params) !in store
    ensures var b: Action.Binding<E> := Action.Binding(Action.Definition(Action.Create, resource), None, false);
            var s: Action.Start<D, E> := Action.ExecuteStart(b, store, Some(o));
            var c := Action.ExecuteComplete(s.binding, s.run, s.store, Err(e));
            c.Completed? && Collection.View(listed, select, c.store).Err?
  {
    Action.FailedCreateLeavesUndefinedSlot<D, E>(resource, store, o, e);
  }

  /** A confirmed mutate is seen without refetching both by a resource
      binding on that key and by a collection whose selection matches the
      entry. */
  lemma ConfirmedMutateIsSeenEverywhere<D, E>(
    a: Action.Binding<E>, run: Action.Run<D>, store: Store<D>, ret: Action.ActionReturn<D>,
    r: SingleResource.Binding<E>, coll: Collection.Binding<E>)
    requires a.definition.kind == Action.Mutate
    requires NoUndefinedSlots(store)
    requires SingleResource.CurrentKey(r) == Key(a.definition.resource, ret.params)
    requires var key := Key(a.definition.resource, ret.params);
             key in store && store[key].Some? && Collection.Matches(store[key].value, coll.resource, coll.select)
    ensures var c := Action.ExecuteComplete(a, run, store, Ok(ret));
            var key := Key(a.definition.resource, ret.params);
            && c.Completed?
            && SingleResource.View(r, c.store).data == Some(ret.data)
            && var v := Collection.View(coll.resource, coll.select, c.store);
               v.Ok? && key in v.value && v.value[key] == ret.data
  {
    var key := Key(a.definition.resource, ret.params);
    var c := Action.ExecuteComplete(a, run, store, Ok(ret));
    assert Read(store, key).Some?;
    assert c.store == store[key := Some(store[key].value.(data := ret.data))];
    assert Collection.Matches(c.store[key].value, coll.resource, coll.select);
  }
}
