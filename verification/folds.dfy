/** The `every` and `some` helpers: each maps the predicate over the
    collection and reduces the booleans from the left, seeded with `true`
    (`&&`) or `false` (`||`). */
module Folds {

  /** The booleans `collection.map(predicate)`. */
  function MapPredicate<T>(xs: seq<T>, p: T -> bool): (rs: seq<bool>)
    ensures |rs| == |xs|
    ensures forall i :: 0 <= i < |xs| ==> rs[i] == p(xs[i])
  {
    seq(|xs|, i requires 0 <= i < |xs| => p(xs[i]))
  }

  /** `reduce((acc, res) => (acc && res ? true : false), acc)`. */
  function AndFold(acc: bool, rs: seq<bool>): bool
    decreases |rs|
  {
    if rs == [] then acc else AndFold(if acc && rs[0] then true else false, rs[1..])
  }

  /** `reduce((acc, res) => (acc || res ? true : false), acc)`. */
  function OrFold(acc: bool, rs: seq<bool>): bool
    decreases |rs|
  {
    if rs == [] then acc else OrFold(if acc || rs[0] then true else false, rs[1..])
  }

  /** `every(xs, p)`: the predicate mapped over the list, then `&&`-reduced
      from `true`. */
  function EveryOf<T>(xs: seq<T>, p: T -> bool): bool
  {
    AndFold(true, MapPredicate(xs, p))
  }

  /** `some(xs, p)`: the predicate mapped over the list, then `||`-reduced
      from `false`. */
  function SomeOf<T>(xs: seq<T>, p: T -> bool): bool
  {
    OrFold(false, MapPredicate(xs, p))
  }

  /** The left `&&`-fold is true exactly when the seed and every element are. */
  lemma {:induction false} AndFoldMeaning(acc: bool, rs: seq<bool>)
    ensures AndFold(acc, rs) <==> acc && forall i :: 0 <= i < |rs| ==> rs[i]
    decreases |rs|
  {
    if rs != [] {
      AndFoldMeaning(if acc && rs[0] then true else false, rs[1..]);
      assert forall i :: 1 <= i < |rs| ==> rs[i] == rs[1..][i - 1];
    }
  }

  /** The left `||`-fold is true exactly when the seed or some element is. */
  lemma {:induction false} OrFoldMeaning(acc: bool, rs: seq<bool>)
    ensures OrFold(acc, rs) <==> acc || exists i :: 0 <= i < |rs| && rs[i]
    decreases |rs|
  {
    if rs != [] {
      OrFoldMeaning(if acc || rs[0] then true else false, rs[1..]);
      assert forall i :: 1 <= i < |rs| ==> rs[i] == rs[1..][i - 1];
      if exists i :: 0 <= i < |rs| && rs[i] {
        var i :| 0 <= i < |rs| && rs[i];
        if i > 0 {
          assert rs[1..][i - 1];
        }
      }
    }
  }

  /** `every` holds exactly when the predicate holds of every element. */
  lemma EveryIffAll<T>(xs: seq<T>, p: T -> bool)
    ensures EveryOf(xs, p) <==> forall i :: 0 <= i < |xs| ==> p(xs[i])
  {
    AndFoldMeaning(true, MapPredicate(xs, p));
  }

  /** `some` holds exactly when the predicate holds of some element. */
  lemma SomeIffExists<T>(xs: seq<T>, p: T -> bool)
    ensures SomeOf(xs, p) <==> exists i :: 0 <= i < |xs| && p(xs[i])
  {
    OrFoldMeaning(false, MapPredicate(xs, p));
    if exists i :: 0 <= i < |xs| && p(xs[i]) {
      var i :| 0 <= i < |xs| && p(xs[i]);
      assert MapPredicate(xs, p)[i];
    }
  }

  /** `every([], p)` is true and `every([x], p)` is `p(x)`. */
  lemma EveryBase<T>(x: T, p: T -> bool)
    ensures EveryOf([], p)
    ensures EveryOf([x], p) == p(x)
  {
    EveryIffAll([x], p);
  }

  /** `some([], p)` is false and `some([x], p)` is `p(x)`. */
  lemma SomeBase<T>(x: T, p: T -> bool)
    ensures !SomeOf([], p)
    ensures SomeOf([x], p) == p(x)
  {
    SomeIffExists([x], p);
  }

  /** `every` distributes over concatenation as `&&`. */
  lemma EveryAppend<T>(xs: seq<T>, ys: seq<T>, p: T -> bool)
    ensures EveryOf(xs + ys, p) == (EveryOf(xs, p) && EveryOf(ys, p))
  {
    EveryIffAll(xs + ys, p);
    EveryIffAll(xs, p);
    EveryIffAll(ys, p);
    if EveryOf(xs, p) && EveryOf(ys, p) {
      forall i | 0 <= i < |xs + ys|
        ensures p((xs + ys)[i])
      {
        if i >= |xs| {
          assert (xs + ys)[i] == ys[i - |xs|];
        }
      }
    }
    if EveryOf(xs + ys, p) {
      forall i | 0 <= i < |xs|
        ensures p(xs[i])
      {
        assert (xs + ys)[i] == xs[i];
      }
      forall i | 0 <= i < |ys|
        ensures p(ys[i])
      {
        assert (xs + ys)[|xs| + i] == ys[i];
      }
    }
  }

  /** `some` distributes over concatenation as `||`. */
  lemma SomeAppend<T>(xs: seq<T>, ys: seq<T>, p: T -> bool)
    ensures SomeOf(xs + ys, p) == (SomeOf(xs, p) || SomeOf(ys, p))
  {
    SomeIffExists(xs + ys, p);
    SomeIffExists(xs, p);
    SomeIffExists(ys, p);
    if SomeOf(xs + ys, p) {
      var i :| 0 <= i < |xs + ys| && p((xs + ys)[i]);
      if i >= |xs| {
        assert ys[i - |xs|] == (xs + ys)[i];
      } else {
        assert xs[i] == (xs + ys)[i];
      }
    }
    if SomeOf(ys, p) {
      var i :| 0 <= i < |ys| && p(ys[i]);
      assert (xs + ys)[|xs| + i] == ys[i];
    }
    if SomeOf(xs, p) {
      var i :| 0 <= i < |xs| && p(xs[i]);
      assert (xs + ys)[i] == xs[i];
    }
  }

  /** `some` is the dual of `every`: some element satisfies `p` exactly
      when not every element fails it. */
  lemma SomeIsDualOfEvery<T>(xs: seq<T>, p: T -> bool)
    ensures SomeOf(xs, p) == !EveryOf(xs, x => !p(x))
  {
    SomeIffExists(xs, p);
    EveryIffAll(xs, x => !p(x));
  }
}
