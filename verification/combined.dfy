/** The combined-resource aggregator (`useCombinedResources`): one view
    folded from the states of named child bindings with `some` and `every`,
    and a `refetch` that fans out to every child.

    Children are given as the `toPairs` list of (name, state); any binding
    with this state shape can be a child. */
module Combined {
  import opened Results
  import Folds
  import Cache
  import SingleResource

  type Status = SingleResource.Status

  /** The flags and values the aggregator reads from a child's `state`. */
  datatype ChildState<D, E> = ChildState(
    isPending: bool,
    isSuccess: bool,
    isError: bool,
    isFetching: bool,
    data: Option<D>,
    error: Option<E>)

  type Child<D, E> = (string, ChildState<D, E>)

  datatype Aggregate<D, E> = Aggregate(
    status: Status,
    isFetching: bool,
    isPending: bool,
    isSuccess: bool,
    isError: bool,
    data: Option<map<string, Option<D>>>,
    error: Option<map<string, Option<E>>>)

  /** Object keys are distinct. */
  predicate DistinctNames<D, E>(children: seq<Child<D, E>>)
  {
    forall i, j :: 0 <= i < j < |children| ==> children[i].0 != children[j].0
  }

  /** "pending" if some child is pending, else "success" if every child is
      successful, else "error". */
  function AggregateStatus<D, E>(children: seq<Child<D, E>>): (s: Status)
    ensures s == SingleResource.Pending <==> exists i :: 0 <= i < |children| && children[i].1.isPending
    ensures s == SingleResource.Success <==>
      (forall i :: 0 <= i < |children| ==> !children[i].1.isPending)
      && (forall i :: 0 <= i < |children| ==> children[i].1.isSuccess)
    ensures s == SingleResource.Error <==>
      (forall i :: 0 <= i < |children| ==> !children[i].1.isPending)
      && (exists i :: 0 <= i < |children| && !children[i].1.isSuccess)
  {
    var pending := (c: Child<D, E>) => c.1.isPending;
    var success := (c: Child<D, E>) => c.1.isSuccess;
    Folds.SomeIffExists(children, pending);
    Folds.EveryIffAll(children, success);
    if Folds.SomeOf(children, pending) then SingleResource.Pending
    else if Folds.EveryOf(children, success) then SingleResource.Success
    else SingleResource.Error
  }

  /** The `reduce` building `data`: one key per child, its data when the
      child is successful and `undefined` otherwise. */
  function DataMap<D, E>(children: seq<Child<D, E>>): map<string, Option<D>>
    decreases |children|
  {
    if children == [] then map[]
    else
      var c := children[|children| - 1];
      DataMap(children[..|children| - 1])[c.0 := if c.1.isSuccess then c.1.data else None]
  }

  /** The `reduce` building `error`: one key per child, its error when the
      child is in error and `undefined` otherwise. */
  function ErrorMap<D, E>(children: seq<Child<D, E>>): map<string, Option<E>>
    decreases |children|
  {
    if children == [] then map[]
    else
      var c := children[|children| - 1];
      ErrorMap(children[..|children| - 1])[c.0 := if c.1.isError then c.1.error else None]
  }

  /** The aggregate `state`: exactly one of the three status flags holds,
      `data` is present only on "success", `error` only on "error", and the
      aggregate is fetching exactly when some child is. */
  function StateOf<D, E>(children: seq<Child<D, E>>): (a: Aggregate<D, E>)
    ensures a.status == AggregateStatus(children)
    ensures a.isPending <==> a.status == SingleResource.Pending
    ensures a.isSuccess <==> a.status == SingleResource.Success
    ensures a.isError <==> a.status == SingleResource.Error
    ensures a.data.Some? <==> a.isSuccess
    ensures a.error.Some? <==> a.isError
    ensures a.isFetching <==> exists i :: 0 <= i < |children| && children[i].1.isFetching
  {
    var status := AggregateStatus(children);
    var fetching := (c: Child<D, E>) => c.1.isFetching;
    Folds.SomeIffExists(children, fetching);
    Aggregate(
      status,
      Folds.SomeOf(children, fetching),
      status == SingleResource.Pending,
      status == SingleResource.Success,
      status == SingleResource.Error,
      if status != SingleResource.Success then None else Some(DataMap(children)),
      if status != SingleResource.Error then None else Some(ErrorMap(children)))
  }

  /** The aggregator's `refetch` on resource bindings: every child's
      `refetch` is invoked, in order, and each child then has a query in
      flight. */
  function RefetchAll<E>(bs: seq<SingleResource.Binding<E>>): (r: seq<SingleResource.Started<E>>)
    ensures |r| == |bs|
    ensures forall i :: 0 <= i < |bs| ==>
      r[i].binding.inFlight.Some? && (r[i].issued <==> bs[i].inFlight.None?)
      && r[i].binding.params == bs[i].params && r[i].binding.error == bs[i].error
  {
    seq(|bs|, i requires 0 <= i < |bs| => SingleResource.RefetchStart(bs[i]))
  }

  /** The state a resource binding exposes, as a child. */
  function ResourceChild<D, E>(s: SingleResource.State<D, E>): ChildState<D, E>
  {
    ChildState(s.isPending, s.isSuccess, s.isError, s.isFetching, s.data, s.error)
  }

  // ---------------------------------------------------------------------
  // Properties

  /** With no children the aggregate is "success" with empty `data`. */
  lemma NoChildrenIsSuccess<D, E>()
    ensures var a := StateOf<D, E>([]);
            a.status == SingleResource.Success && a.data == Some(map[]) && !a.isFetching
  {
  }

  /** The names of the children. */
  function Names<D, E>(children: seq<Child<D, E>>): set<string>
  {
    set i | 0 <= i < |children| :: children[i].0
  }

  lemma NamesSnoc<D, E>(children: seq<Child<D, E>>)
    requires children != []
    ensures Names(children) == Names(children[..|children| - 1]) + {children[|children| - 1].0}
  {
    var front := children[..|children| - 1];
    assert forall i :: 0 <= i < |front| ==> front[i] == children[i];
  }

  /** The data map has exactly one key per child name. */
  lemma {:induction false} DataMapKeys<D, E>(children: seq<Child<D, E>>)
    ensures DataMap(children).Keys == Names(children)
    decreases |children|
  {
    if children != [] {
      DataMapKeys(children[..|children| - 1]);
      NamesSnoc(children);
    }
  }

  /** The error map has exactly one key per child name. */
  lemma {:induction false} ErrorMapKeys<D, E>(children: seq<Child<D, E>>)
    ensures ErrorMap(children).Keys == Names(children)
    decreases |children|
  {
    if children != [] {
      ErrorMapKeys(children[..|children| - 1]);
      NamesSnoc(children);
    }
  }

  /** With distinct names, each child's key in the data map holds its data
      when it is successful and `undefined` otherwise. */
  lemma {:induction false} DataMapContents<D, E>(children: seq<Child<D, E>>)
    requires DistinctNames(children)
    ensures forall i :: 0 <= i < |children| ==>
      children[i].0 in DataMap(children)
      && DataMap(children)[children[i].0] == if children[i].1.isSuccess then children[i].1.data else None
    decreases |children|
  {
    if children != [] {
      var front := children[..|children| - 1];
      assert forall i :: 0 <= i < |front| ==> front[i] == children[i];
      DataMapContents(front);
    }
  }

  /** With distinct names, each child's key in the error map holds its error
      when it is in error and `undefined` otherwise. */
  lemma {:induction false} ErrorMapContents<D, E>(children: seq<Child<D, E>>)
    requires DistinctNames(children)
    ensures forall i :: 0 <= i < |children| ==>
      children[i].0 in ErrorMap(children)
      && ErrorMap(children)[children[i].0] == if children[i].1.isError then children[i].1.error else None
    decreases |children|
  {
    if children != [] {
      var front := children[..|children| - 1];
      assert forall i :: 0 <= i < |front| ==> front[i] == children[i];
      ErrorMapContents(front);
    }
  }

  /** On "success" every child's data is in `data`, under its name. */
  lemma SuccessDataHasEveryChild<D, E>(children: seq<Child<D, E>>, i: nat)
    requires DistinctNames(children) && i < |children|
    requires AggregateStatus(children) == SingleResource.Success
    ensures var a := StateOf(children);
            a.data.Some? && children[i].0 in a.data.value && a.data.value[children[i].0] == children[i].1.data
  {
    DataMapContents(children);
  }

  /** A resource child keeping stale data beside an error reports both
      `isSuccess` and `isError`; the aggregate reads only `isSuccess`, so it
      reports "success" although the child's own status is "error". */
  lemma StaleErrorChildCountsAsSuccess<D, E>(b: SingleResource.Binding<E>, store: Cache.Store<D>, name: string)
    requires b.error.Some? && Cache.DataAt(store, SingleResource.CurrentKey(b)).Some?
    ensures var s := SingleResource.View(b, store);
            s.status == SingleResource.Error
            && StateOf([(name, ResourceChild(s))]).status == SingleResource.Success
  {
  }

  /** After the fan-out the aggregate of the children is fetching. */
  lemma FanOutMakesAggregateFetching<D, E>(bs: seq<SingleResource.Binding<E>>, names: seq<string>, store: Cache.Store<D>)
    requires |bs| == |names| && |bs| > 0
    ensures var r := RefetchAll(bs);
            var children := seq(|bs|, i requires 0 <= i < |bs| => (names[i], ResourceChild(SingleResource.View(r[i].binding, store))));
            StateOf(children).isFetching
  {
    var r := RefetchAll(bs);
    var children := seq(|bs|, i requires 0 <= i < |bs| => (names[i], ResourceChild(SingleResource.View(r[i].binding, store))));
    assert children[0].1.isFetching;
  }
}
