/** The action binding (`useResourceAction`): a create/mutate/delete effect
    on the store, applied optimistically when an optimistic result is
    supplied and again on confirmation, with a snapshot written back on
    failure.

    `asyncAction`, `optimisticAction`, `onResolve` and `onFail` are caller
    callbacks: the optimistic result (absent when the definition has no
    `optimisticAction`) is an input of the start, the async result an input
    of `ExecuteComplete`, and the callback to invoke is reported as a
    `Notice`.

    One call to `execute` is a start (`ExecuteStart`, or `ExecuteResume`
    for a call that waited), followed by `ExecuteComplete`. The binding
    holds only what the hook shares between calls, the error and the
    in-flight marker; the rollback belongs to the call (`Run`). */
module Action {
  import opened Results
  import opened Resources
  import opened KeyFactory
  import opened Cache

  datatype Kind = Create | Mutate | Delete

  datatype Definition = Definition(kind: Kind, resource: ResourceDef)

  /** `{ params, data }` returned by `asyncAction` and `optimisticAction`. */
  datatype ActionReturn<D> = ActionReturn(params: map<string, string>, data: D)

  /** What `rollback` writes back, and where. */
  datatype Snapshot<D> = Snapshot(key: string, prior: Option<Entry<D>>)

  /** The state one call keeps across its await: the rollback of its
      optimistic step, if one ran. */
  datatype Run<D> = Run(rollback: Option<Snapshot<D>>)

  /** The hook's shared state: `error`, and whether `activePromise` holds a
      promise. */
  datatype Binding<E> = Binding(definition: Definition, error: Option<E>, running: bool)

  datatype Status = Idle | Running | Failed

  datatype State<E> = State(status: Status, isRunning: bool, isFailed: bool, error: Option<E>)

  /** The caller callback a completed run invokes. */
  datatype Notice<D, E> = OnResolve(data: D) | OnFail(error: E)

  /** The synchronous part of a call to `execute`: it waits for the promise
      in flight, or starts its own run, or throws in the optimistic step
      after the error was cleared and the marker set. */
  datatype Start<D, E> =
    | Waiting
    | Started(binding: Binding<E>, store: Store<D>, run: Run<D>)
    | StartThrew(binding: Binding<E>, fault: Fault)

  /** The continuation of a call once its async result arrives; a throw
      leaves the binding and the store as they were. */
  datatype Completion<D, E> =
    | Completed(binding: Binding<E>, store: Store<D>, notice: Notice<D, E>)
    | CompletionThrew(binding: Binding<E>, store: Store<D>, fault: Fault)

  /** The derived state: "running" while a run is in flight, else "failed"
      when an error is stored, else "idle". */
  function View<E>(b: Binding<E>): (s: State<E>)
    ensures s.status == Running <==> b.running
    ensures s.status == Failed <==> !b.running && b.error.Some?
    ensures s.status == Idle <==> !b.running && b.error.None?
    ensures s.isRunning <==> s.status == Running
    ensures s.isFailed <==> s.status == Failed
    ensures s.error == b.error
  {
    var status := if b.running then Running else if b.error.Some? then Failed else Idle;
    State(status, status == Running, status == Failed, b.error)
  }

  /** The cache effect of an action's result at the key of its params:
      delete removes the key; create writes a new entry; mutate replaces the
      data of the entry in place, keeping its definition and params, and
      throws when there is no entry to mutate. No other key changes. */
  function ApplyEffect<D>(kind: Kind, resource: ResourceDef, store: Store<D>, ret: ActionReturn<D>): (r: Result<Store<D>, Fault>)
    ensures var key := Key(resource, ret.params);
            && (r.Err? <==> kind == Mutate && Read(store, key).None?)
            && (r.Ok? ==> forall k :: k != key ==> (k in r.value <==> k in store) && (k in store ==> r.value[k] == store[k]))
            && (kind == Delete ==> r.Ok? && key !in r.value)
            && (kind == Create ==> r.Ok? && Read(r.value, key) == Some(Entry(resource, ret.params, ret.data)))
            && (kind == Mutate && r.Ok? ==> Read(r.value, key) == Some(Read(store, key).value.(data := ret.data)))
  {
    var key := Key(resource, ret.params);
    match kind
    case Delete => Ok(store - {key})
    case Create => Ok(store[key := Some(Entry(resource, ret.params, ret.data))])
    case Mutate =>
      match Read(store, key)
      case None => Err(UndefinedProperty)
      case Some(e) => Ok(store[key := Some(e.(data := ret.data))])
  }

  /** The store after `tryExecuteOptimisticUpdate`, with its rollback. */
  datatype Optimistic<D> = Optimistic(store: Store<D>, rollback: Option<Snapshot<D>>)

  /** `tryExecuteOptimisticUpdate`: without an optimistic result nothing
      happens; otherwise the slot at the key is remembered and the effect
      applied. For mutate the remembered entry is the very object that is
      then changed in place, so the snapshot holds the new data. */
  function TryOptimistic<D>(definition: Definition, store: Store<D>, optimistic: Option<ActionReturn<D>>): (r: Result<Optimistic<D>, Fault>)
    ensures optimistic.None? ==> r == Ok(Optimistic(store, None))
    ensures optimistic.Some? ==>
      var key := Key(definition.resource, optimistic.value.params);
      var effect := ApplyEffect(definition.kind, definition.resource, store, optimistic.value);
      && (r.Err? <==> effect.Err?)
      && (r.Ok? ==> r.value.store == effect.value && r.value.rollback.Some? && r.value.rollback.value.key == key)
      && (r.Ok? && definition.kind != Mutate ==> r.value.rollback.value.prior == Read(store, key))
      && (r.Ok? && definition.kind == Mutate ==> r.value.rollback.value.prior == Read(effect.value, key))
  {
    match optimistic
    case None => Ok(Optimistic(store, None))
    case Some(o) =>
      var key := Key(definition.resource, o.params);
      var last := Read(store, key);
      match ApplyEffect(definition.kind, definition.resource, store, o)
      case Err(f) => Err(f)
      case Ok(s) =>
        // `lastCacheEntry` aliases the entry a mutate changes in place
        var prior := if definition.kind == Mutate then Read(s, key) else last;
        Ok(Optimistic(s, Some(Snapshot(key, prior))))
  }

  /** `rollback`: the snapshot is written back at its key, even when it is
      `undefined`, and every other key is left as it is. */
  function Rollback<D>(store: Store<D>, snap: Snapshot<D>): (r: Store<D>)
    ensures snap.key in r && r[snap.key] == snap.prior
    ensures forall k :: k != snap.key ==> (k in r <==> k in store) && (k in store ==> r[k] == store[k])
  {
    store[snap.key := snap.prior]
  }

  /** The part of `execute` after the wait: the error is cleared, the marker
      set, and the optimistic step applied. The marker is not checked again,
      so a call that waited starts even when another waiter started first. */
  function ExecuteResume<D, E>(b: Binding<E>, store: Store<D>, optimistic: Option<ActionReturn<D>>): (r: Start<D, E>)
    ensures !r.Waiting?
    ensures r.binding == Binding(b.definition, None, true)
    ensures r.StartThrew? <==> TryOptimistic(b.definition, store, optimistic).Err?
    ensures r.StartThrew? ==> r.fault == TryOptimistic(b.definition, store, optimistic).error
    ensures r.Started? ==>
      var o := TryOptimistic(b.definition, store, optimistic).value;
      r.store == o.store && r.run == Run(o.rollback)
  {
    var begun := b.(error := None, running := true);
    match TryOptimistic(b.definition, store, optimistic)
    case Err(f) => StartThrew(begun, f)
    case Ok(o) => Started(begun, o.store, Run(o.rollback))
  }

  /** The synchronous part of `execute`: while a run is in flight the call
      waits; otherwise it goes on at once as after a wait. */
  function ExecuteStart<D, E>(b: Binding<E>, store: Store<D>, optimistic: Option<ActionReturn<D>>): (r: Start<D, E>)
    ensures r.Waiting? <==> b.running
    ensures !b.running ==> r == ExecuteResume(b, store, optimistic)
  {
    if b.running then Waiting else ExecuteResume(b, store, optimistic)
  }

  /** The continuation of a call once its `asyncAction` resolves. On `Ok`
      the effect is applied again at the key of the confirmed params and
      `onResolve` receives the data; on `Err` the error is stored, the call's
      optimistic step (if any) is rolled back and `onFail` receives the
      error. The marker is cleared in both cases, whichever call set it.

      The code branches on `asyncResult.isOk()`, a method the plain result
      object does not have; this function takes the branch on the variant
      that is evidently intended (see `ExecuteCompleteAsWritten`). */
  function ExecuteComplete<D, E>(b: Binding<E>, run: Run<D>, store: Store<D>, result: Result<ActionReturn<D>, E>): (r: Completion<D, E>)
    ensures r.CompletionThrew? <==>
      result.Ok? && ApplyEffect(b.definition.kind, b.definition.resource, store, result.value).Err?
    ensures r.CompletionThrew? ==> r.binding == b && r.store == store
    ensures r.Completed? ==> !r.binding.running && r.binding.definition == b.definition
    ensures r.Completed? && result.Ok? ==>
      && r.store == ApplyEffect(b.definition.kind, b.definition.resource, store, result.value).value
      && r.binding.error == b.error
      && r.notice == OnResolve(result.value.data)
    ensures result.Err? ==>
      && r.Completed?
      && r.binding.error == Some(result.error)
      && r.notice == OnFail(result.error)
      && (run.rollback.None? ==> r.store == store)
      && (run.rollback.Some? ==> r.store == Rollback(store, run.rollback.value))
  {
    match result
    case Ok(ret) =>
      (match ApplyEffect(b.definition.kind, b.definition.resource, store, ret)
       case Err(f) => CompletionThrew(b, store, f)
       case Ok(s) => Completed(b.(running := false), s, OnResolve(ret.data)))
    case Err(e) =>
      var s := match run.rollback
        case None => store
        case Some(snap) => Rollback(store, snap);
      Completed(b.(error := Some(e), running := false), s, OnFail(e))
  }

  /** The continuation as written: `asyncResult.isOk()` is not a function on
      the plain result object, so every run throws before it applies,
      rolls back or clears anything. */
  function ExecuteCompleteAsWritten<D, E>(b: Binding<E>, run: Run<D>, store: Store<D>, result: Result<ActionReturn<D>, E>): (r: Completion<D, E>)
  {
    CompletionThrew(b, store, NotAFunction)
  }

  // ---------------------------------------------------------------------
  // Properties

  /** As written, a run whose optimistic create failed never rolls back:
      the binding is left "running" and the optimistic entry stays, while
      the intended continuation restores the slot and reports "failed". */
  lemma AsWrittenFailureIsNeverHandled<D, E>(resource: ResourceDef, ret: ActionReturn<D>, e: E)
    ensures var b: Binding<E> := Binding(Definition(Create, resource), None, false);
            var s: Start<D, E> := ExecuteStart(b, map[], Some(ret));
            var key := Key(resource, ret.params);
            && s.Started?
            && Read(s.store, key) == Some(Entry(resource, ret.params, ret.data))
            && (var t := ExecuteCompleteAsWritten(s.binding, s.run, s.store, Err(e));
                t.CompletionThrew? && View(t.binding).status == Running && Read(t.store, key) == Read(s.store, key))
            && var c := ExecuteComplete(s.binding, s.run, s.store, Err(e));
               c.Completed? && View(c.binding).status == Failed && Read(c.store, key).None?
  {
  }

  /** A call made while a run is in flight waits, and once that run
      completes it starts its own run: the wait ends in `ExecuteResume`,
      which on the settled binding is exactly a fresh start. */
  lemma QueuedRunStartsAfterCompletion<D, E>(b: Binding<E>, run: Run<D>, store: Store<D>, result: Result<ActionReturn<D>, E>, optimistic: Option<ActionReturn<D>>)
    requires b.running
    ensures ExecuteStart(b, store, optimistic).Waiting?
    ensures var c := ExecuteComplete(b, run, store, result);
            c.Completed? ==>
              var s := ExecuteResume(c.binding, c.store, optimistic);
              && !s.Waiting? && s.binding.running && s.binding.error.None?
              && s == ExecuteStart(c.binding, c.store, optimistic)
  {
  }

  /** With two calls waiting on one run, both start when it completes, so
      their runs overlap: the second starts while the first is in flight,
      the first's completion clears the marker while the second is still in
      flight, and the first's failure survives the second's success. */
  lemma TwoWaitersOverlap<D, E>(
    b: Binding<E>, run: Run<D>, store: Store<D>, result: Result<ActionReturn<D>, E>,
    e: E, ret: ActionReturn<D>)
    requires b.running && b.definition.kind != Mutate
    ensures ExecuteStart(b, store, None).Waiting?
    ensures var c1 := ExecuteComplete(b, run, store, result);
            var s2: Start<D, E> := ExecuteResume(c1.binding, c1.store, None);
            var s3: Start<D, E> := ExecuteResume(s2.binding, s2.store, None);
            && c1.Completed? && s2.Started? && s3.Started?
            && s2.binding.running
            && var c2 := ExecuteComplete(s3.binding, s2.run, s3.store, Err(e));
               && c2.Completed? && View(c2.binding).status == Failed
               && var c3 := ExecuteComplete(c2.binding, s3.run, c2.store, Ok(ret));
                  && c3.Completed? && c3.notice == OnResolve(ret.data)
                  && View(c3.binding).status == Failed && c3.binding.error == Some(e)
  {
  }

  /** When a waiting call checks the marker again before it starts, as the
      one-operation-at-a-time design intends, a run starts only on a binding
      with nothing in flight, so of two waiters the second waits again. */
  lemma SerializedWaitersTakeTurns<D, E>(
    b: Binding<E>, run: Run<D>, store: Store<D>, result: Result<ActionReturn<D>, E>,
    o2: Option<ActionReturn<D>>, o3: Option<ActionReturn<D>>)
    requires b.running
    ensures forall b': Binding<E>, s': Store<D>, o: Option<ActionReturn<D>> ::
              !ExecuteStart(b', s', o).Waiting? ==> !b'.running
    ensures var c1 := ExecuteComplete(b, run, store, result);
            c1.Completed? ==>
              var s2 := ExecuteStart(c1.binding, c1.store, o2);
              && !s2.Waiting?
              && ExecuteStart(s2.binding, c1.store, o3).Waiting?
  {
  }

  /** A started run is "running" with no error, and without an optimistic
      result the store is untouched until the async result arrives. */
  lemma StartClearsErrorAndWaitsForResult<D, E>(b: Binding<E>, store: Store<D>)
    requires !b.running
    ensures var s := ExecuteStart(b, store, None);
            s.Started? && s.store == store && s.run.rollback.None?
            && View(s.binding).status == Running && s.binding.error.None?
  {
  }

  /** A completed run is never "running": it is "failed" exactly when the
      async result was an error or an earlier error is still stored. */
  lemma CompletionSettles<D, E>(b: Binding<E>, run: Run<D>, store: Store<D>, result: Result<ActionReturn<D>, E>)
    ensures var c := ExecuteComplete(b, run, store, result);
            c.Completed? ==>
              (View(c.binding).status == Failed <==> result.Err? || b.error.Some?)
              && View(c.binding).status != Running
  {
  }

  /** A failed create or delete with an optimistic step gives every key its
      value from before the run. The store is restored exactly when the key
      was present before; otherwise the key is left holding `undefined`. */
  lemma RollbackRestoresCreateOrDelete<D, E>(b: Binding<E>, store: Store<D>, o: ActionReturn<D>, e: E)
    requires !b.running && b.definition.kind != Mutate
    ensures var s := ExecuteStart(b, store, Some(o));
            var c := ExecuteComplete(s.binding, s.run, s.store, Err(e));
            var key := Key(b.definition.resource, o.params);
            && s.Started? && c.Completed?
            && (forall k :: Read(c.store, k) == Read(store, k))
            && (key in store ==> c.store == store)
            && (key !in store ==> key in c.store && c.store[key].None? && c.store != store)
  {
    var s := ExecuteStart(b, store, Some(o));
    var c := ExecuteComplete(s.binding, s.run, s.store, Err(e));
    var key := Key(b.definition.resource, o.params);
    if key in store {
      assert c.store == store;
    }
  }

  /** A failed optimistic create on a key that had no entry leaves the key
      holding `undefined` rather than removing it. */
  lemma FailedCreateLeavesUndefinedSlot<D, E>(resource: ResourceDef, store: Store<D>, o: ActionReturn<D>, e: E)
    requires Key(resource, o.params) !in store
    ensures var b: Binding<E> := Binding(Definition(Create, resource), None, false);
            var s: Start<D, E> := ExecuteStart(b, store, Some(o));
            var c := ExecuteComplete(s.binding, s.run, s.store, Err(e));
            var key := Key(resource, o.params);
            s.Started? && c.Completed? && key in c.store && c.store[key].None?
  {
  }

  /** A failed optimistic mutate does not restore the old data: the snapshot
      is the mutated entry itself. */
  lemma MutateRollbackKeepsOptimisticData<D, E>(b: Binding<E>, store: Store<D>, o: ActionReturn<D>, e: E)
    requires !b.running && b.definition.kind == Mutate
    requires Read(store, Key(b.definition.resource, o.params)).Some?
    ensures var key := Key(b.definition.resource, o.params);
            var s := ExecuteStart(b, store, Some(o));
            var c := ExecuteComplete(s.binding, s.run, s.store, Err(e));
            s.Started? && c.Completed?
            && Read(c.store, key) == Some(Read(store, key).value.(data := o.data))
  {
  }

  /** A mutate whose entry is missing throws at the optimistic step, after
      the error was cleared and the marker set, so the binding stays
      "running". */
  lemma MutateOfMissingEntryThrows<D, E>(b: Binding<E>, store: Store<D>, o: ActionReturn<D>)
    requires !b.running && b.definition.kind == Mutate
    requires Read(store, Key(b.definition.resource, o.params)).None?
    ensures var s := ExecuteStart(b, store, Some(o));
            s == StartThrew(Binding(b.definition, None, true), UndefinedProperty)
            && View(s.binding).status == Running
  {
  }
}
