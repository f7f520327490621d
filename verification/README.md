# vue-async-resources: a Dafny model of the cache engine

This project models the cache engine of `vue-async-resources`, a Vue library that caches
asynchronously fetched entities under keys derived from a resource's dependency graph.
The model keeps the library's own parts:

- **Key derivation** (`KeyFactory`, `Resources`). A resource definition `(name, dependsOn, isSingleton)`
  is flattened with its dependencies first. Each flattened resource gives one segment: the bare name
  for a singleton, `name:{value}` for any other resource. The segments are joined with `-`.
  The required-parameter shape `FlatResourceParameters` becomes a set of parameter names.
- **The store** (`Cache`). This is one `map` from cache key to slot, passed explicitly.
  A slot holding `None` stands for a property whose value is `undefined`.
- **Single-resource binding** (`SingleResource`). It covers the derived status and flags,
  a single-flight `refetch` split into `RefetchStart`/`RefetchComplete`, and the automatic fetch on creation.
- **Collection binding** (`Collection`). It covers the filtered view over the whole store,
  the upsert of fetched items, and the stored status.
- **Action binding** (`Action`). It covers the create/mutate/delete effect applied optimistically
  and again on confirmation, the snapshot written back on failure, and the idle/running/failed status.
- **Combined-resource aggregator** (`Combined`). It covers status precedence, `isFetching`,
  the `data`/`error` maps and the `refetch` fan-out, all built on the `every`/`some` folds (`Folds`).
- **Cross-binding scenarios** (`Scenarios`). These are bindings that share one store.

Every asynchronous operation is split into a start transition and a completion transition.
The completion receives the callback's `Result` as an input. Caller callbacks
(`query`, `asyncAction`, `optimisticAction`, `normalize`) are opaque:
their outputs are parameters, and `onResolve`/`onFail` are reported as a `Notice`.

The model keeps these behaviours of the code, which differ from what the library's design intends:

- A successful resource refetch does not clear an earlier error.
- The aggregate `error` map has a key for every child, with `undefined` for children not in error.
  It does not leave those children out.
- A rollback whose snapshot was absent writes `undefined` back instead of removing the key.
  The store is left with an `undefined` slot. The collection filter then reads
  `entry.resourceDefinition` of `undefined` and throws (`Scenarios.FailedCreateBreaksCollectionViews`).
- A mutate's snapshot is the entry object that the optimistic step then changes in place.
  So its rollback does not restore the old data.
- The flattening is a post-order walk: each resource comes after the whole flattening of its `dependsOn`.
  The design calls the walk pre-order, although it also puts dependencies before the resource that declares them.
- A resource's refetch writes at the key of the parameters current at completion.
  It stores the parameters captured when the query was issued.
- A collection's `select` change while a query is in flight issues no query: the waiting call does nothing afterwards.
  The in-flight query's items are then written under the new selection (`Collection.SelectChangeMidQueryReusesOldQuery`).
- An action call that waited for a run in flight does not check the marker again before it starts.
  Two calls waiting on one run therefore overlap (see "## Findings").

## Model

| member | source | states |
|---|---|---|
| Folds.AndFoldMeaning | src/utils/every.ts:5-7 | the left `&&`-reduce seeded with `acc` is true exactly when `acc` and every element are true |
| Folds.OrFoldMeaning | src/utils/some.ts:5-7 | the left or-reduce seeded with `acc` is true exactly when `acc` or some element is true |
| Folds.EveryIffAll | src/utils/every.ts:5-7 | `every(xs, p)` holds if and only if `p` holds for every element |
| Folds.SomeIffExists | src/utils/some.ts:5-7 | `some(xs, p)` holds if and only if some element satisfies `p` |
| Folds.EveryBase | src/utils/every.ts:5-7 | `every([], p)` is true and `every([x], p)` equals `p(x)` |
| Folds.SomeBase | src/utils/some.ts:5-7 | `some([], p)` is false and `some([x], p)` equals `p(x)` |
| Folds.EveryAppend | src/utils/every.ts:5-7 | `every(xs + ys, p) == every(xs, p) && every(ys, p)` |
| Folds.SomeAppend | src/utils/some.ts:5-7 | `some(xs + ys, p)` equals `some(xs, p)` or `some(ys, p)` |
| Folds.SomeIsDualOfEvery | src/utils/some.ts:5-7 | `some(xs, p)` is the negation of `every(xs, not p)` |
| Resources.RequiredOfOne | src/resource/types.ts:8-17 | an empty list needs no parameters; a non-singleton requires its own name; a singleton adds nothing for itself; its dependencies' requirements are included |
| Resources.RequiredAppend | src/resource/types.ts:10-18 | the required parameters of a list are the union over its elements |
| KeyFactory.FlattenAppend | src/cache/keyFactory.ts:13-18 | flattening distributes over list concatenation, so blocks follow declared `dependsOn` order |
| KeyFactory.FlattenOne | src/cache/keyFactory.ts:13-18 | a resource flattens to its dependencies' flattening followed by itself; it always ends with itself; with empty `dependsOn` it is exactly `[resource]` |
| KeyFactory.FlattenLength | src/cache/keyFactory.ts:13-18 | no deduplication: the flattened length equals the node count of the dependency forest |
| KeyFactory.FlattenMembers | src/cache/keyFactory.ts:13-18 | a resource is in the flattened list if and only if it is in the dependency closure |
| KeyFactory.DependenciesPrecede | src/cache/keyFactory.ts:13-18 | at every position of a flattened list, each declared dependency of the resource there occurs earlier in the list, at every depth |
| KeyFactory.DiamondIsNotDeduplicated | src/cache/keyFactory.ts:13-18 | a diamond dependency appears twice in the flattening |
| KeyFactory.JoinSnoc | src/cache/keyFactory.ts:42 | joining with `-` a list extended by one part appends the separator and that part |
| KeyFactory.KeyShape | src/cache/keyFactory.ts:33-42 | the key is the resource's own segment (bare name for a singleton, `name:{params[name]}` otherwise), preceded by the joined dependency segments and `-` when there are any |
| KeyFactory.RequiredMatchesNamesRead | src/resource/types.ts:7-19 | the required parameter names equal the non-singleton names of the flattened closure, which are the names the key function reads |
| KeyFactory.KeyDeterminism | src/cache/keyFactory.ts:33-42 | parameters that agree on every required name give the same key |
| KeyFactory.ExtraParamIgnored | src/cache/keyFactory.ts:36-40 | adding or changing a parameter the resource does not require leaves its key unchanged |
| KeyFactory.KeysCollide | src/cache/keyFactory.ts:36-42 | keys are not injective: singleton "a-b" and singleton "b" depending on singleton "a" share the key "a-b" |
| SingleResource.View | src/resource/useResource.ts:66-126 | `data` is the data of the entry at the key of the current params, absent without an entry; status is "error" when an error is stored, else "success" when data is present, else "pending"; `isError` and `isSuccess` are independent |
| SingleResource.RefetchStart | src/resource/useResource.ts:89-95 | a query is issued if and only if none is in flight; it captures the current params; while one is in flight nothing changes |
| SingleResource.RefetchComplete | src/resource/useResource.ts:93-109 | a failure stores the error and leaves the store unchanged; a success writes `{definition, params: localParams, data}` at the key, touches no other key and keeps a previous error; the in-flight marker is cleared |
| SingleResource.Create | src/resource/useResource.ts:112-114 | creating the binding issues a refetch if and only if no data is cached at the key |
| SingleResource.SecondRefetchJoins | src/resource/useResource.ts:90-91 | a second refetch while one is in flight issues no query and changes nothing |
| SingleResource.CompletionSettles | src/resource/useResource.ts:96-120 | after completion `isFetching` is false, and status is "error" exactly when an error was stored before or the query failed |
| SingleResource.FetchThenSuccess | src/resource/useResource.ts:93-114 | a fresh binding whose query succeeds shows "success" with the fetched data |
| SingleResource.FailureKeepsStaleData | src/resource/useResource.ts:98-99 | a failed refetch keeps the cached data and reports "error" beside it |
| SingleResource.ErrorIsSticky | src/resource/useResource.ts:98-106 | a success after a failure writes the data but the status stays "error", with `isError` and `isSuccess` both true |
| SingleResource.SecondBindingReadsCache | src/resource/useResource.ts:66-114 | a second binding on the same params sees the cached data at once and issues no query |
| SingleResource.ParamsChangeDoesNotRefetch | src/resource/useResource.ts:64-77 | new params re-derive `data` at the new key and start no query |
| Collection.View | src/collection/useResourceCollection.ts:38-53 | the view holds exactly the data of entries whose resource name matches and whose params agree with every selected pair; it throws when a slot holds `undefined` |
| Collection.StateOf | src/collection/useResourceCollection.ts:99-110 | `isPending`, `isError` and `isSuccess` all come from the stored status; `data` is the filtered view |
| Collection.Create | src/collection/useResourceCollection.ts:55-97 | a new binding has status "pending", no error, and its immediate watcher issues a query |
| Collection.RefetchStart | src/collection/useResourceCollection.ts:60-64 | a query is issued if and only if none is in flight |
| Collection.SelectChanged | src/collection/useResourceCollection.ts:93-97 | a change of `select` stores it and triggers a refetch |
| Collection.RefetchComplete | src/collection/useResourceCollection.ts:60-90 | a failure stores the error and status "error" and leaves the store unchanged; a success upserts the items and stores "success" without clearing an earlier error |
| Collection.EveryPairAgrees | src/collection/useResourceCollection.ts:44-50 | the `every` over the selected pairs accepts an entry exactly when its params agree with every selected pair, in any pair order |
| Collection.EmptySelectShowsAll | src/collection/useResourceCollection.ts:44-50 | with an empty `select` the view holds every entry of the resource's name |
| Collection.SelectOverridesIdentifier | src/collection/useResourceCollection.ts:74-77 | item params are the identifier under the resource name plus the selected pairs, and a selected value for the resource name overrides the identifier |
| Collection.LastWriter | src/collection/useResourceCollection.ts:72-86 | finds the last fetched item written at a key, or none |
| Collection.UpsertReads | src/collection/useResourceCollection.ts:72-86 | after the upsert a key holds the entry of the last item written there with its params and data; keys no item was written at are unchanged |
| Collection.UpsertKeepsSlotsDefined | src/collection/useResourceCollection.ts:72-86 | the upsert writes entries only, never `undefined` |
| Collection.FetchedItemsVisible | src/collection/useResourceCollection.ts:72-87 | after a successful refetch each fetched item's key is in the view with the data of the last item written there |
| Collection.FlagsExclusive | src/collection/useResourceCollection.ts:104-106 | exactly one of `isPending`, `isError`, `isSuccess` holds |
| Collection.SelectChangeMidQueryReusesOldQuery | src/collection/useResourceCollection.ts:60-97 | a `select` change during a query issues no query, and that query's items are stored with the new selection's pairs in their params and key |
| Collection.SuccessKeepsOldError | src/collection/useResourceCollection.ts:68-87 | a later success stores "success" while the earlier error is kept |
| Action.View | src/action/useResourceAction.ts:56-62 | status is "running" when a run is in flight, else "failed" when an error is stored, else "idle"; `isRunning` and `isFailed` match it |
| Action.ApplyEffect | src/action/useResourceAction.ts:76-90 | delete removes the key; create writes `{definition, params, data}`; mutate replaces the data of the existing entry and throws when there is none; no other key changes |
| Action.TryOptimistic | src/action/useResourceAction.ts:65-97 | without an optimistic result nothing happens; otherwise the effect is applied and the snapshot is the prior slot, or for mutate the mutated entry |
| Action.ExecuteStart | src/action/useResourceAction.ts:99-109 | a call waits exactly when a run is in flight; otherwise it goes on at once as a resumed call does |
| Action.ExecuteResume | src/action/useResourceAction.ts:104-109 | the error is cleared and the marker set without checking it again; the optimistic step is applied and its rollback kept by the call; a throw in that step leaves the error cleared and the marker set |
| Action.ExecuteComplete | src/action/useResourceAction.ts:110-138 | on Ok the effect is applied at the key of the confirmed params and `onResolve(data)` is reported; on Err the error is stored, the call's own optimistic step rolled back and `onFail(error)` reported; the marker is cleared, whichever call set it; a throw at the confirmed mutate changes nothing |
| Action.AsWrittenFailureIsNeverHandled | src/action/useResourceAction.ts:112 | as written, a failed optimistic create throws at `isOk()`, so the binding stays "running" and the optimistic entry stays; the intended branch restores the slot and reports "failed" |
| Action.QueuedRunStartsAfterCompletion | src/action/useResourceAction.ts:100-107 | a call while running waits; after the run completes it resumes and starts its own run, exactly as a fresh call on the settled binding would |
| Action.TwoWaitersOverlap | src/action/useResourceAction.ts:100-138 | two calls waiting on one run both start when it completes: the second starts while the first is in flight, the first's failure clears the marker during the second's run, and that failure is still shown after the second succeeds |
| Action.SerializedWaitersTakeTurns | src/action/useResourceAction.ts:100-107 | with the marker checked again on resumption, a run starts only on a binding with nothing in flight, so of two waiters the second waits again |
| Action.StartClearsErrorAndWaitsForResult | src/action/useResourceAction.ts:71-73 | without an optimistic action the store is untouched at start, the error is cleared and the status is "running" |
| Action.CompletionSettles | src/action/useResourceAction.ts:128-138 | a completed run is "failed" or "idle", and "failed" exactly when an error is stored |
| Action.RollbackRestoresCreateOrDelete | src/action/useResourceAction.ts:92-94 | a failed create or delete gives every key its pre-run value; the store is restored exactly when the key was present, and otherwise the key is left holding `undefined` |
| Action.FailedCreateLeavesUndefinedSlot | src/action/useResourceAction.ts:77-93 | a failed optimistic create on an absent key leaves the key holding `undefined` |
| Action.MutateRollbackKeepsOptimisticData | src/action/useResourceAction.ts:77-93 | a failed optimistic mutate leaves the optimistic data in place |
| Action.MutateOfMissingEntryThrows | src/action/useResourceAction.ts:88-109 | an optimistic mutate without an existing entry throws after the error was cleared and the marker set, so the binding stays "running" |
| Combined.AggregateStatus | src/linked/useLinkedResource.ts:30-36 | "pending" if any child is pending; otherwise "success" if every child is successful, else "error" |
| Combined.StateOf | src/linked/useLinkedResource.ts:37-75 | exactly one status flag holds; `data` is present only on "success", `error` only on "error"; `isFetching` holds if and only if some child is fetching |
| Combined.RefetchAll | src/linked/useLinkedResource.ts:24-28 | every child's refetch is invoked, and each child then has a query in flight |
| Combined.NoChildrenIsSuccess | src/linked/useLinkedResource.ts:30-52 | with zero children the aggregate is "success" and `data` is the empty map |
| Combined.DataMapKeys | src/linked/useLinkedResource.ts:40-52 | the data map has exactly one key per child name |
| Combined.DataMapContents | src/linked/useLinkedResource.ts:40-52 | with distinct names, each child's key in the data map holds its data when successful and `undefined` otherwise |
| Combined.ErrorMapKeys | src/linked/useLinkedResource.ts:53-65 | the error map has exactly one key per child name |
| Combined.ErrorMapContents | src/linked/useLinkedResource.ts:53-65 | with distinct names, each child's key in the error map holds its error when in error and `undefined` otherwise |
| Combined.SuccessDataHasEveryChild | src/linked/useLinkedResource.ts:40-52 | on "success" every child's data is in `data` under its name |
| Combined.StaleErrorChildCountsAsSuccess | src/linked/useLinkedResource.ts:30-36 | a resource child in error that still has data counts as successful, so the aggregate is "success" |
| Combined.FanOutMakesAggregateFetching | src/linked/useLinkedResource.ts:24-39 | after the fan-out the aggregate over the children is fetching |
| Scenarios.FailedCreateBreaksCollectionViews | src/collection/useResourceCollection.ts:38-42 | after a failed optimistic create on an absent key, every collection view over the store throws |
| Scenarios.ConfirmedMutateIsSeenEverywhere | src/action/useResourceAction.ts:124-126 | a confirmed mutate is seen, without refetching, by a resource binding on that key and by a collection whose selection matches the entry |

## Left out

- Vue reactivity (`ref`, `computed`, `watch`) is left out. Derived fields are pure functions of the binding and the store. The collection's `watch` on `select` is the explicit `Collection.SelectChanged` event.
- Cache provisioning through provide/inject (`src/cache/injection.ts`, `src/plugin.ts`) is left out. The store is an explicit parameter, and the "cache not found" failure is not modelled.
- Promise scheduling and `Promise.all` are left out. Each async operation is a start and a completion transition. A caller that waits on an in-flight resource query also sets the marker to `null` when it resumes (`src/resource/useResource.ts:109`). By then the marker is already `null`, so this step has no visible effect and is not modelled.
- Caller callbacks (`query`, `asyncAction`, `optimisticAction`, `normalize`, `onResolve`, `onFail`) are opaque. Their results are inputs, and the callback to invoke is reported as `Action.Notice`. An absent `onResolve`/`onFail` is simply not called.
- Nullish data is left out: data values are never `null`/`undefined`. A query resolving `ok(null)` would leave a resource "pending" with an entry present.
- SingleResource.RefetchComplete: errors are never nullish here, so a failure always shows "error". The code stores the raw error and tests it with `hasValue` (src/resource/useResource.ts:80,99), so `err(null)` or `err(undefined)` would leave the status "pending" or "success". SingleResource.CompletionSettles and SingleResource.FailureKeepsStaleData rest on the same assumption.
- Action.ExecuteComplete: errors are never nullish here, so a failure always shows "failed". In the code `err(null)` or `err(undefined)` rolls back and calls `onFail`, yet the status reads "idle" (src/action/useResourceAction.ts:59,129). Action.CompletionSettles rests on the same assumption.
- `normalize` returns strings. Numeric identifiers, and their conversion to text inside the key, are not modelled.
- After a thrown `TypeError` the model stops. `Action.StartThrew` carries the binding as the throw leaves it; the store is unchanged, because the throw at src/action/useResourceAction.ts:89 comes before any write. `Action.CompletionThrew` carries the unchanged binding and store. Nothing later is derived from either. `Collection.View` returning `Err` ends the view.
- In-place changes that other bindings make to a snapshotted entry object between an action's start and its completion are not modelled. The snapshot is a value.
- Action.ExecuteComplete: the rollback writes back the snapshot as a value, so overlapping runs of the same binding (`Action.TwoWaitersOverlap`) do not share the aliased entry. When a later run's optimistic or confirmed mutate (src/action/useResourceAction.ts:89,125) changes the entry an earlier run snapshotted, the code's rollback of the earlier run keeps the later data, while the model writes back the earlier run's data.
- Combined.RefetchAll: the fan-out is modelled over resource bindings. Collection or nested aggregate children start their own refetch in the same way. The children are taken to be distinct binding instances: one binding listed under two names is started twice in the model and reports two queries, where the code's second `refetch` only waits on the first (src/resource/useResource.ts:90-95) and one query is issued.
- The collection view is a map from cache key to data. The order of `Object.values` is not modelled.
- Injectivity of keys is not claimed. It is false (`KeyFactory.KeysCollide`).
- Disposal and cancellation of in-flight operations are not modelled, because the code has none.
- `src/utils/isEmpty.ts` is not part of this model. `isEmpty(def.dependsOn)` is taken to test for an empty list.
- The legacy duplicates (`src/asyncResourceCache.ts`, `src/useResourceCollection.ts`, `src/useJoinedResources.ts`, `src/defineRecource*.ts`) are left out. They repeat the modular design.
- The `define*` record constructors and the type-only files are left out. They become the datatypes `Resources.ResourceDef`, `Action.Definition` and `Collection.Binding`.

## Findings

| source | as written | input that shows it | evidently intended | confidence | as-written member | corrected member |
|---|---|---|---|---|---|---|
| src/action/useResourceAction.ts:100-107 | a call that waited on the promise in flight goes on to start its own run without checking the marker again, and every completion sets the marker to `null` | a run in flight with two calls waiting on it: when it completes both start, so two runs overlap; the first's completion clears the marker while the second is in flight, and its failure stays shown after the second succeeds | wait until no run is in flight (check the marker again after each wait), so one run at a time per binding | not executed; medium | Action.TwoWaitersOverlap | Action.SerializedWaitersTakeTurns |
| src/action/useResourceAction.ts:112 | `asyncResult.isOk()` is called on the plain `{ type, value }` / `{ type, error }` result object, which has no such method, so every run throws a `TypeError` before confirming, rolling back or clearing the running marker | an action of type create with an optimistic step on an empty store whose `asyncAction` resolves `err(e)`: the optimistic entry stays and the status stays "running" | branch on `asyncResult.type === "ok"` | not executed; high | Action.AsWrittenFailureIsNeverHandled | Action.ExecuteComplete |
