/** The collection binding (`useResourceCollection`): a filtered view over
    the whole store, an upsert of every fetched item, and a status that the
    binding stores instead of deriving.

    `normalize` (item to identifier) is a caller callback and is passed in as
    a function; the query's result is an input of `RefetchComplete`. */
module Collection {
  import opened Results
  import opened Resources
  import opened KeyFactory
  import opened Cache
  import Folds
  import SingleResource

  type Status = SingleResource.Status

  datatype Binding<E> = Binding(
    resource: ResourceDef,
    select: map<string, string>,
    status: Status,
    error: Option<E>,
    fetching: bool)

  /** The observable `state`; `data` is the filtered view keyed by cache key,
      or the fault the filter raises. */
  datatype State<D, E> = State(
    status: Status,
    isFetching: bool,
    isPending: bool,
    isError: bool,
    isSuccess: bool,
    data: Result<map<string, D>, Fault>,
    error: Option<E>)

  datatype Started<E> = Started(binding: Binding<E>, issued: bool)

  datatype Step<D, E> = Step(binding: Binding<E>, store: Store<D>)

  /** An entry belongs to the collection when its resource has the
      collection's name and its params agree with every selected pair. */
  predicate Matches<D>(e: Entry<D>, resource: ResourceDef, select: map<string, string>)
  {
    e.definition.name == resource.name
    && forall n :: n in select ==> n in e.params && e.params[n] == select[n]
  }

  /** `relevantEntries` mapped to their data. Reading
      `entry.resourceDefinition` of a slot holding `undefined` throws, so
      the view fails on a store with such a slot. */
  function View<D>(resource: ResourceDef, select: map<string, string>, store: Store<D>): (r: Result<map<string, D>, Fault>)
    ensures r.Err? <==> !NoUndefinedSlots(store)
    ensures r.Ok? ==> forall k :: k in r.value <==> k in store && store[k].Some? && Matches(store[k].value, resource, select)
    ensures r.Ok? ==> forall k :: k in r.value ==> r.value[k] == store[k].value.data
  {
    if !NoUndefinedSlots(store) then Err(UndefinedProperty)
    else Ok(map k | k in store && store[k].Some? && Matches(store[k].value, resource, select) :: store[k].value.data)
  }

  /** The derived `state`: the three flags all come from the stored status. */
  function StateOf<D, E>(b: Binding<E>, store: Store<D>): (s: State<D, E>)
    ensures s.isPending <==> b.status == SingleResource.Pending
    ensures s.isError <==> b.status == SingleResource.Error
    ensures s.isSuccess <==> b.status == SingleResource.Success
    ensures s.isFetching <==> b.fetching
    ensures s.data == View(b.resource, b.select, store)
    ensures s.status == b.status && s.error == b.error
  {
    State(b.status, b.fetching,
          b.status == SingleResource.Pending, b.status == SingleResource.Error, b.status == SingleResource.Success,
          View(b.resource, b.select, store), b.error)
  }

  /** `{ [name]: identifier, ...select }`: a selected pair wins over the
      identifier. */
  function ItemParams(resource: ResourceDef, select: map<string, string>, id: string): map<string, string>
  {
    map[resource.name := id] + select
  }

  function ItemKey(resource: ResourceDef, select: map<string, string>, id: string): string
  {
    Key(resource, ItemParams(resource, select, id))
  }

  /** The `forEach` over the fetched items: each is written, in order, at the
      key of its parameters. */
  function Upsert<D>(store: Store<D>, resource: ResourceDef, select: map<string, string>, normalize: D -> string, items: seq<D>): Store<D>
    decreases |items|
  {
    if items == [] then store
    else
      var last := items[|items| - 1];
      var params := ItemParams(resource, select, normalize(last));
      Upsert(store, resource, select, normalize, items[..|items| - 1])[Key(resource, params) := Some(Entry(resource, params, last))]
  }

  /** Creating the binding: status "pending", no error, and the immediate
      watcher's `refetch` issues a query. */
  function Create<E>(resource: ResourceDef, select: map<string, string>): (r: Started<E>)
    ensures r.issued && r.binding.fetching
    ensures r.binding.status == SingleResource.Pending && r.binding.error.None?
    ensures r.binding.resource == resource && r.binding.select == select
  {
    RefetchStart(Binding(resource, select, SingleResource.Pending, None, false))
  }

  /** The synchronous part of `refetch`: with a query in flight it only
      waits; otherwise it issues one. */
  function RefetchStart<E>(b: Binding<E>): (r: Started<E>)
    ensures r.issued <==> !b.fetching
    ensures r.binding == b.(fetching := true)
  {
    if b.fetching then Started(b, false) else Started(b.(fetching := true), true)
  }

  /** The watcher on `select`: new selected parameters, then `refetch`. */
  function SelectChanged<E>(b: Binding<E>, select: map<string, string>): (r: Started<E>)
    ensures r.binding.select == select && r.binding.fetching
    ensures r.issued <==> !b.fetching
  {
    RefetchStart(b.(select := select))
  }

  /** The continuation of `refetch`. A failure stores the error and status
      "error" and leaves the store alone; a success upserts the items under
      the current selection and stores status "success" without clearing an
      earlier error. */
  function RefetchComplete<D, E>(b: Binding<E>, store: Store<D>, normalize: D -> string, result: Result<seq<D>, E>): (r: Step<D, E>)
    requires b.fetching
    ensures !r.binding.fetching
    ensures r.binding.resource == b.resource && r.binding.select == b.select
    ensures result.Err? ==>
      r.store == store && r.binding.status == SingleResource.Error && r.binding.error == Some(result.error)
    ensures result.Ok? ==>
      r.store == Upsert(store, b.resource, b.select, normalize, result.value)
      && r.binding.status == SingleResource.Success && r.binding.error == b.error
  {
    match result
    case Err(e) => Step(b.(error := Some(e), status := SingleResource.Error, fetching := false), store)
    case Ok(items) =>
      Step(b.(status := SingleResource.Success, fetching := false), Upsert(store, b.resource, b.select, normalize, items))
  }

  // ---------------------------------------------------------------------
  // Properties

  /** The `every` over `toPairs(select)` accepts an entry exactly when its
      params agree with every selected pair, whatever order the pairs come
      in. */
  lemma EveryPairAgrees<D>(e: Entry<D>, select: map<string, string>, pairs: seq<(string, string)>)
    requires forall i :: 0 <= i < |pairs| ==> pairs[i].0 in select && select[pairs[i].0] == pairs[i].1
    requires forall n :: n in select ==> exists i :: 0 <= i < |pairs| && pairs[i].0 == n
    ensures Folds.EveryOf(pairs, (pr: (string, string)) => pr.0 in e.params && e.params[pr.0] == pr.1)
            <==> forall n :: n in select ==> n in e.params && e.params[n] == select[n]
  {
    var p := (pr: (string, string)) => pr.0 in e.params && e.params[pr.0] == pr.1;
    Folds.EveryIffAll(pairs, p);
    if forall i :: 0 <= i < |pairs| ==> p(pairs[i]) {
      forall n | n in select
        ensures n in e.params && e.params[n] == select[n]
      {
        var i :| 0 <= i < |pairs| && pairs[i].0 == n;
        assert p(pairs[i]);
      }
    }
  }

  /** With nothing selected, the view holds every entry of the resource. */
  lemma EmptySelectShowsAll<D>(resource: ResourceDef, store: Store<D>)
    requires NoUndefinedSlots(store)
    ensures var r := View(resource, map[], store);
            r.Ok? && forall k :: k in r.value <==> k in store && store[k].value.definition.name == resource.name
  {
  }

  /** A selected value for the resource's own name replaces the item's
      identifier; the other selected pairs are kept as they are. */
  lemma SelectOverridesIdentifier(resource: ResourceDef, select: map<string, string>, id: string)
    ensures var p := ItemParams(resource, select, id);
            p.Keys == select.Keys + {resource.name}
            && (resource.name in select ==> p[resource.name] == select[resource.name])
            && (resource.name !in select ==> p[resource.name] == id)
            && forall n :: n in select ==> p[n] == select[n]
  {
  }

  /** The index of the last fetched item whose key is `k`, or -1. */
  function LastWriter<D>(resource: ResourceDef, select: map<string, string>, normalize: D -> string, items: seq<D>, k: string): (j: int)
    ensures -1 <= j < |items|
    ensures j >= 0 ==> ItemKey(resource, select, normalize(items[j])) == k
    ensures forall m :: j < m < |items| ==> ItemKey(resource, select, normalize(items[m])) != k
    decreases |items|
  {
    if items == [] then -1
    else if ItemKey(resource, select, normalize(items[|items| - 1])) == k then |items| - 1
    else
      var front := items[..|items| - 1];
      var j := LastWriter(resource, select, normalize, front, k);
      assert forall m :: 0 <= m < |front| ==> front[m] == items[m];
      j
  }

  /** After the upsert, a key holds the entry of the last item written
      there, with that item's parameters and data; a key no item was
      written at is left as it was. */
  lemma {:induction false} UpsertReads<D>(store: Store<D>, resource: ResourceDef, select: map<string, string>, normalize: D -> string, items: seq<D>, k: string)
    ensures var r := Upsert(store, resource, select, normalize, items);
            var j := LastWriter(resource, select, normalize, items, k);
            && (k in r <==> k in store || j >= 0)
            && (j < 0 && k in store ==> r[k] == store[k])
            && (j >= 0 ==> r[k] == Some(Entry(resource, ItemParams(resource, select, normalize(items[j])), items[j])))
    decreases |items|
  {
    if items != [] {
      UpsertReads(store, resource, select, normalize, items[..|items| - 1], k);
    }
  }

  /** A `select` change while a query is in flight issues no query of its
      own: the wait ends without a refetch, and the items of the query that
      was issued for the old selection are written with the new selection's
      pairs in their parameters and key. */
  lemma SelectChangeMidQueryReusesOldQuery<D, E>(b: Binding<E>, store: Store<D>, normalize: D -> string, items: seq<D>, select: map<string, string>, i: nat)
    requires b.fetching && i < |items|
    ensures var s := SelectChanged(b, select);
            var r := RefetchComplete(s.binding, store, normalize, Ok(items));
            var k := ItemKey(b.resource, select, normalize(items[i]));
            && !s.issued
            && k in r.store && r.store[k].Some?
            && forall n :: n in select ==> n in r.store[k].value.params && r.store[k].value.params[n] == select[n]
  {
    var k := ItemKey(b.resource, select, normalize(items[i]));
    UpsertReads(store, b.resource, select, normalize, items, k);
  }

  /** The upsert only writes entries, never `undefined`. */
  lemma {:induction false} UpsertKeepsSlotsDefined<D>(store: Store<D>, resource: ResourceDef, select: map<string, string>, normalize: D -> string, items: seq<D>)
    requires NoUndefinedSlots(store)
    ensures NoUndefinedSlots(Upsert(store, resource, select, normalize, items))
    decreases |items|
  {
    if items != [] {
      UpsertKeepsSlotsDefined(store, resource, select, normalize, items[..|items| - 1]);
    }
  }

  /** After a successful refetch every fetched item's key is in the view,
      carrying the data of the last item written there. */
  lemma FetchedItemsVisible<D, E>(b: Binding<E>, store: Store<D>, normalize: D -> string, items: seq<D>, i: nat)
    requires b.fetching && NoUndefinedSlots(store) && i < |items|
    ensures var r := RefetchComplete(b, store, normalize, Ok(items));
            var view := View(b.resource, b.select, r.store);
            var k := ItemKey(b.resource, b.select, normalize(items[i]));
            var j := LastWriter(b.resource, b.select, normalize, items, k);
            view.Ok? && k in view.value && i <= j && view.value[k] == items[j]
  {
    var r := RefetchComplete(b, store, normalize, Ok(items));
    var k := ItemKey(b.resource, b.select, normalize(items[i]));
    var j := LastWriter(b.resource, b.select, normalize, items, k);
    UpsertKeepsSlotsDefined(store, b.resource, b.select, normalize, items);
    UpsertReads(store, b.resource, b.select, normalize, items, k);
    SelectOverridesIdentifier(b.resource, b.select, normalize(items[j]));
    assert Matches(r.store[k].value, b.resource, b.select);
  }

  /** The three status flags are mutually exclusive and one always holds. */
  lemma FlagsExclusive<D, E>(b: Binding<E>, store: Store<D>)
    ensures var s := StateOf(b, store);
            (s.isPending || s.isError || s.isSuccess)
            && !(s.isPending && s.isError) && !(s.isPending && s.isSuccess) && !(s.isError && s.isSuccess)
  {
  }

  /** A later success stores "success" while the earlier error stays. */
  lemma SuccessKeepsOldError<D, E>(b: Binding<E>, store: Store<D>, normalize: D -> string, items: seq<D>)
    requires b.fetching && b.error.Some?
    ensures var r := RefetchComplete(b, store, normalize, Ok(items));
            var s := StateOf(r.binding, r.store);
            s.isSuccess && s.error == b.error
  {
  }
}
