/** The single-resource binding (`useResource`): a derived view of one cache
    entry, a single-flight `refetch` split into its start and its completion,
    and the automatic fetch on creation.

    The binding keeps the current parameters, the error of the last failed
    query and the in-flight marker; the marker holds the parameters captured
    when the query was issued (`localParams`). The query itself is a caller
    callback: its result is an input of `RefetchComplete`. */
module SingleResource {
  import opened Results
  import opened Resources
  import opened KeyFactory
  import opened Cache

  datatype Status = Pending | Error | Success

  datatype Binding<E> = Binding(
    definition: ResourceDef,
    params: map<string, string>,
    error: Option<E>,
    inFlight: Option<map<string, string>>)

  /** The observable `state` of the binding. */
  datatype State<D, E> = State(
    status: Status,
    isFetching: bool,
    isPending: bool,
    isError: bool,
    isSuccess: bool,
    data: Option<D>,
    error: Option<E>)

  /** The outcome of a `refetch` call or of the binding's creation:
      `issued` says whether a new query was started. */
  datatype Started<E> = Started(binding: Binding<E>, issued: bool)

  /** A binding together with the store after a transition. */
  datatype Step<D, E> = Step(binding: Binding<E>, store: Store<D>)

  /** The key computed from the binding's current parameters. */
  function CurrentKey<E>(b: Binding<E>): string
  {
    Key(b.definition, b.params)
  }

  /** The derived state. `status` is "error" when an error is stored, else
      "success" when the entry at the current key has data, else "pending";
      `isError` and `isSuccess` are read independently of each other. */
  function View<D, E>(b: Binding<E>, store: Store<D>): (s: State<D, E>)
    ensures s.data == DataAt(store, CurrentKey(b))
    ensures s.status == Error <==> b.error.Some?
    ensures s.status == Success <==> b.error.None? && s.data.Some?
    ensures s.status == Pending <==> b.error.None? && s.data.None?
    ensures s.isPending <==> s.status == Pending
    ensures s.isError <==> b.error.Some?
    ensures s.isSuccess <==> s.data.Some?
    ensures s.isFetching <==> b.inFlight.Some?
    ensures s.error == b.error
  {
    var data := DataAt(store, CurrentKey(b));
    var status := if b.error.Some? then Error else if data.Some? then Success else Pending;
    State(status, b.inFlight.Some?, status == Pending, b.error.Some?, data.Some?, data, b.error)
  }

  /** The synchronous part of `refetch`: with a query in flight the call only
      waits for it; otherwise it issues a query with the current parameters. */
  function RefetchStart<E>(b: Binding<E>): (r: Started<E>)
    ensures r.issued <==> b.inFlight.None?
    ensures r.binding.inFlight.Some?
    ensures !r.issued ==> r.binding == b
    ensures r.issued ==> r.binding.inFlight == Some(b.params)
    ensures r.binding.definition == b.definition && r.binding.params == b.params
    ensures r.binding.error == b.error
  {
    if b.inFlight.Some? then Started(b, false)
    else Started(b.(inFlight := Some(b.params)), true)
  }

  /** The continuation of `refetch` once the query resolves. A failure stores
      the error and leaves the store as it was; a success writes an entry with
      the issued parameters at the key of the current parameters, leaves every
      other key alone and keeps any earlier error. Either way the in-flight
      marker is cleared. */
  function RefetchComplete<D, E>(b: Binding<E>, store: Store<D>, result: Result<D, E>): (r: Step<D, E>)
    requires b.inFlight.Some?
    ensures r.binding.inFlight.None?
    ensures r.binding.definition == b.definition && r.binding.params == b.params
    ensures result.Err? ==> r.store == store && r.binding.error == Some(result.error)
    ensures result.Ok? ==> r.binding.error == b.error
    ensures result.Ok? ==>
      Read(r.store, CurrentKey(b)) == Some(Entry(b.definition, b.inFlight.value, result.value))
    ensures result.Ok? ==> r.store.Keys == store.Keys + {CurrentKey(b)}
    ensures result.Ok? ==> forall k :: k in store && k != CurrentKey(b) ==> r.store[k] == store[k]
  {
    match result
    case Err(e) =>
      Step(b.(error := Some(e), inFlight := None), store)
    case Ok(v) =>
      var entry := Entry(b.definition, b.inFlight.value, v);
      Step(b.(inFlight := None), store[CurrentKey(b) := Some(entry)])
  }

  /** Creating the binding: no error, nothing in flight, and a `refetch`
      exactly when the store has no data at the key of the parameters. */
  function Create<D, E>(definition: ResourceDef, params: map<string, string>, store: Store<D>): (r: Started<E>)
    ensures r.issued <==> DataAt(store, Key(definition, params)).None?
    ensures r.binding.definition == definition && r.binding.params == params
    ensures r.binding.error.None?
    ensures r.issued ==> r.binding.inFlight == Some(params)
    ensures !r.issued ==> r.binding.inFlight.None?
  {
    var b := Binding(definition, params, None, None);
    if DataAt(store, Key(definition, params)).None? then RefetchStart(b) else Started(b, false)
  }

  /** New parameters from the caller's thunk. The binding re-derives its data
      at the new key but issues no query. */
  function ParamsChanged<E>(b: Binding<E>, params: map<string, string>): Binding<E>
  {
    b.(params := params)
  }

  // ---------------------------------------------------------------------
  // Properties

  /** Single flight: a second `refetch` while the first is in flight issues
      no query and changes nothing. */
  lemma SecondRefetchJoins<E>(b: Binding<E>)
    ensures var first := RefetchStart(b);
            var second := RefetchStart(first.binding);
            !second.issued && second.binding == first.binding
  {
  }

  /** After a refetch completes, `isFetching` is false and `status` is
      "error" exactly when the binding holds an error. */
  lemma CompletionSettles<D, E>(b: Binding<E>, store: Store<D>, result: Result<D, E>)
    requires b.inFlight.Some?
    ensures var r := RefetchComplete(b, store, result);
            var s := View(r.binding, r.store);
            !s.isFetching && (s.status == Error <==> b.error.Some? || result.Err?)
  {
  }

  /** A fresh binding whose query succeeds shows "success" with that data,
      whether or not the creation had to fetch. */
  lemma FetchThenSuccess<D, E>(definition: ResourceDef, params: map<string, string>, store: Store<D>, v: D)
    ensures var c := Create<D, E>(definition, params, store);
            var after := if c.issued then RefetchComplete(c.binding, store, Ok(v)) else Step(c.binding, store);
            var s := View(after.binding, after.store);
            s.status == Success && !s.isFetching
            && (c.issued ==> s.data == Some(v))
  {
  }

  /** Stale-while-erroring: a failed refetch keeps the data already cached
      at the key, and the binding reports "error" beside it. */
  lemma FailureKeepsStaleData<D, E>(b: Binding<E>, store: Store<D>, e: E)
    requires b.inFlight.Some?
    ensures var r := RefetchComplete(b, store, Err(e));
            var s := View(r.binding, r.store);
            s.data == View(b, store).data && s.status == Error && s.error == Some(e)
  {
  }

  /** The error is never cleared: a success after a failure writes the data,
      yet the status stays "error" while `isSuccess` is true as well. */
  lemma ErrorIsSticky<D, E>(b: Binding<E>, store: Store<D>, v: D)
    requires b.inFlight.Some? && b.error.Some?
    ensures var r := RefetchComplete(b, store, Ok(v));
            var s := View(r.binding, r.store);
            s.status == Error && s.isError && s.isSuccess && s.data == Some(v)
  {
  }

  /** A second binding on the same parameters sees the cached data at once
      and issues no query of its own. */
  lemma SecondBindingReadsCache<D, E>(b: Binding<E>, store: Store<D>, v: D)
    requires b.inFlight.Some?
    ensures var r := RefetchComplete(b, store, Ok(v));
            var c := Create<D, E>(b.definition, b.params, r.store);
            !c.issued && View(c.binding, r.store).status == Success
            && View(c.binding, r.store).data == Some(v)
  {
  }

  /** Changing the parameters re-derives `data` at the new key and starts no
      query. */
  lemma ParamsChangeDoesNotRefetch<D, E>(b: Binding<E>, store: Store<D>, params: map<string, string>)
    ensures var s := View(ParamsChanged(b, params), store);
            s.data == DataAt(store, Key(b.definition, params))
            && s.isFetching == View(b, store).isFetching
  {
  }
}
