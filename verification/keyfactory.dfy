/** Cache-key derivation: `flattenDependencies` and the key function built by
    `getResourceCacheKeyFactory`. */
module KeyFactory {
  import opened Resources

  const Separator: string := "-"

  /** `flattenDependencies`: each definition is preceded by the flattening of
      its own `dependsOn` (skipped when that list is empty), and the results
      are concatenated in list order. Nothing is deduplicated. */
  function Flatten(defs: seq<ResourceDef>): seq<ResourceDef>
    decreases defs
  {
    if defs == [] then []
    else
      var d := defs[0];
      (if d.dependsOn == [] then [] else Flatten(d.dependsOn)) + [d] + Flatten(defs[1..])
  }

  /** `${params[name]}`: a missing parameter is rendered as "undefined". */
  function ParamText(params: map<string, string>, name: string): string
  {
    if name in params then params[name] else "undefined"
  }

  /** The partial key of one flattened resource. */
  function Segment(r: ResourceDef, params: map<string, string>): string
  {
    if r.isSingleton then r.name else r.name + ":{" + ParamText(params, r.name) + "}"
  }

  /** One segment per resource, in order. */
  function Segments(rs: seq<ResourceDef>, params: map<string, string>): (segs: seq<string>)
    ensures |segs| == |rs|
    ensures forall i :: 0 <= i < |rs| ==> segs[i] == Segment(rs[i], params)
  {
    seq(|rs|, i requires 0 <= i < |rs| => Segment(rs[i], params))
  }

  /** `Array.prototype.join("-")`. */
  function Join(parts: seq<string>): string
    decreases |parts|
  {
    if |parts| == 0 then ""
    else if |parts| == 1 then parts[0]
    else parts[0] + Separator + Join(parts[1..])
  }

  /** The key function of a definition applied to `params`. */
  function Key(d: ResourceDef, params: map<string, string>): string
  {
    Join(Segments(Flatten([d]), params))
  }

  /** The names whose parameter values the key function reads. */
  function NamesRead(rs: seq<ResourceDef>): set<string>
  {
    set i | 0 <= i < |rs| && !rs[i].isSingleton :: rs[i].name
  }

  // ---------------------------------------------------------------------
  // Flattening

  /** Flattening distributes over list concatenation, so each element's block
      appears in declared order. */
  lemma {:induction false} FlattenAppend(xs: seq<ResourceDef>, ys: seq<ResourceDef>)
    ensures Flatten(xs + ys) == Flatten(xs) + Flatten(ys)
    decreases xs
  {
    if xs == [] {
      assert xs + ys == ys;
    } else {
      assert (xs + ys)[0] == xs[0];
      assert (xs + ys)[1..] == xs[1..] + ys;
      FlattenAppend(xs[1..], ys);
    }
  }

  /** The flattening of one resource is the flattening of its dependencies
      followed by the resource itself: it always ends with the resource, and
      a resource without dependencies flattens to itself alone. */
  lemma FlattenOne(d: ResourceDef)
    ensures Flatten([d]) == Flatten(d.dependsOn) + [d]
    ensures |Flatten([d])| >= 1 && Flatten([d])[|Flatten([d])| - 1] == d
    ensures d.dependsOn == [] ==> Flatten([d]) == [d]
  {
    assert [d][1..] == [];
  }

  /** No deduplication: the flattened length is the node count of the
      dependency forest. */
  lemma {:induction false} FlattenLength(defs: seq<ResourceDef>)
    ensures |Flatten(defs)| == Nodes(defs)
    decreases defs
  {
    if defs != [] {
      FlattenLength(defs[0].dependsOn);
      FlattenLength(defs[1..]);
    }
  }

  /** The flattened list holds exactly the dependency closure. */
  lemma {:induction false} FlattenMembers(defs: seq<ResourceDef>, r: ResourceDef)
    ensures r in Flatten(defs) <==> Reaches(defs, r)
    decreases defs
  {
    if defs != [] {
      FlattenMembers(defs[0].dependsOn, r);
      FlattenMembers(defs[1..], r);
    }
  }

  /** Every declared dependency of every resource in the flattening occurs
      before that resource, at every depth. */
  lemma DependenciesPrecede(defs: seq<ResourceDef>)
    ensures forall i, c :: 0 <= i < |Flatten(defs)| && c in Flatten(defs)[i].dependsOn ==> c in Flatten(defs)[..i]
  {
    forall i, c | 0 <= i < |Flatten(defs)| && c in Flatten(defs)[i].dependsOn
      ensures c in Flatten(defs)[..i]
    {
      PrecedesAt(defs, i, c);
    }
  }

  lemma {:induction false} PrecedesAt(defs: seq<ResourceDef>, i: nat, c: ResourceDef)
    requires i < |Flatten(defs)| && c in Flatten(defs)[i].dependsOn
    ensures c in Flatten(defs)[..i]
    decreases defs
  {
    var d := defs[0];
    var deps := if d.dependsOn == [] then [] else Flatten(d.dependsOn);
    var rest := Flatten(defs[1..]);
    assert Flatten(defs) == deps + [d] + rest;
    if i < |deps| {
      assert Flatten(d.dependsOn)[i] == Flatten(defs)[i];
      PrecedesAt(d.dependsOn, i, c);
      assert Flatten(defs)[..i] == deps[..i];
    } else if i == |deps| {
      assert Flatten(defs)[..i] == deps;
      var j :| 0 <= j < |d.dependsOn| && d.dependsOn[j] == c;
      ReachesElement(d.dependsOn, j);
      FlattenMembers(d.dependsOn, c);
    } else {
      var j := i - |deps| - 1;
      assert rest[j] == Flatten(defs)[i];
      PrecedesAt(defs[1..], j, c);
      assert Flatten(defs)[..i] == deps + [d] + rest[..j];
    }
  }

  lemma {:induction false} ReachesElement(defs: seq<ResourceDef>, i: nat)
    requires i < |defs|
    ensures Reaches(defs, defs[i])
    decreases i
  {
    if i > 0 {
      ReachesElement(defs[1..], i - 1);
    }
  }

  /** A diamond `d -> [b, c]`, `b -> [a]`, `c -> [a]` flattens with `a` twice. */
  lemma DiamondIsNotDeduplicated()
    ensures
      var a := ResourceDef("a", [], false);
      var b := ResourceDef("b", [a], false);
      var c := ResourceDef("c", [a], false);
      var d := ResourceDef("d", [b, c], false);
      Flatten([d]) == [a, b, a, c, d]
  {
    var a := ResourceDef("a", [], false);
    var b := ResourceDef("b", [a], false);
    var c := ResourceDef("c", [a], false);
    FlattenOne(b);
    FlattenOne(c);
    FlattenAppend([b], [c]);
  }

  // ---------------------------------------------------------------------
  // Keys

  /** Joining a list extended by one part appends the separator and the part. */
  lemma {:induction false} JoinSnoc(parts: seq<string>, s: string)
    ensures Join(parts + [s]) == if parts == [] then s else Join(parts) + Separator + s
    decreases |parts|
  {
    if |parts| == 1 {
      assert parts + [s] == [parts[0], s];
      assert [parts[0], s][1..] == [s];
    } else if |parts| > 1 {
      assert (parts + [s])[1..] == parts[1..] + [s];
      JoinSnoc(parts[1..], s);
    }
  }

  /** The key of a resource is its own segment, preceded by the joined
      segments of its flattened dependencies and the separator when there are
      any; a singleton's segment is its bare name, any other resource's
      segment is `name:{value}`. */
  lemma KeyShape(d: ResourceDef, params: map<string, string>)
    ensures var own := if d.isSingleton then d.name else d.name + ":{" + ParamText(params, d.name) + "}";
            Key(d, params) ==
              if Flatten(d.dependsOn) == [] then own
              else Join(Segments(Flatten(d.dependsOn), params)) + Separator + own
    ensures d.dependsOn == [] ==> Key(d, params) == Segment(d, params)
  {
    FlattenOne(d);
    var deps := Flatten(d.dependsOn);
    assert Segments(deps + [d], params) == Segments(deps, params) + [Segment(d, params)];
    JoinSnoc(Segments(deps, params), Segment(d, params));
  }

  lemma NamesReadAppend(xs: seq<ResourceDef>, ys: seq<ResourceDef>)
    ensures NamesRead(xs + ys) == NamesRead(xs) + NamesRead(ys)
  {
    forall n | n in NamesRead(xs + ys)
      ensures n in NamesRead(xs) + NamesRead(ys)
    {
      var i :| 0 <= i < |xs + ys| && !(xs + ys)[i].isSingleton && (xs + ys)[i].name == n;
      if i >= |xs| {
        assert ys[i - |xs|] == (xs + ys)[i];
      } else {
        assert xs[i] == (xs + ys)[i];
      }
    }
    forall n | n in NamesRead(ys)
      ensures n in NamesRead(xs + ys)
    {
      var i :| 0 <= i < |ys| && !ys[i].isSingleton && ys[i].name == n;
      assert (xs + ys)[|xs| + i] == ys[i];
    }
    forall n | n in NamesRead(xs)
      ensures n in NamesRead(xs + ys)
    {
      var i :| 0 <= i < |xs| && !xs[i].isSingleton && xs[i].name == n;
      assert (xs + ys)[i] == xs[i];
    }
  }

  /** The parameter names the key function reads are exactly the required
      parameter names: the non-singleton names of the flattened closure. */
  lemma {:induction false} RequiredMatchesNamesRead(defs: seq<ResourceDef>)
    ensures RequiredParams(defs) == NamesRead(Flatten(defs))
    decreases defs
  {
    if defs != [] {
      var d := defs[0];
      var deps := if d.dependsOn == [] then [] else Flatten(d.dependsOn);
      RequiredMatchesNamesRead(d.dependsOn);
      RequiredMatchesNamesRead(defs[1..]);
      NamesReadAppend(deps, [d]);
      NamesReadAppend(deps + [d], Flatten(defs[1..]));
      assert [d][0] == d;
      assert NamesRead([d]) == if d.isSingleton then {} else {d.name};
      assert d.dependsOn == [] ==> NamesRead(deps) == {};
    }
  }

  /** Determinism: the key depends only on the values of the required
      parameters, so equal relevant parameters give equal keys. */
  lemma KeyDeterminism(d: ResourceDef, p1: map<string, string>, p2: map<string, string>)
    requires forall n :: n in RequiredParams([d]) ==> ParamText(p1, n) == ParamText(p2, n)
    ensures Key(d, p1) == Key(d, p2)
  {
    var rs := Flatten([d]);
    RequiredMatchesNamesRead([d]);
    forall i | 0 <= i < |rs|
      ensures Segment(rs[i], p1) == Segment(rs[i], p2)
    {
      if !rs[i].isSingleton {
        assert rs[i].name in NamesRead(rs);
      }
    }
    assert Segments(rs, p1) == Segments(rs, p2);
  }

  /** A parameter the resource does not require never changes its key. */
  lemma ExtraParamIgnored(d: ResourceDef, params: map<string, string>, n: string, v: string)
    requires n !in RequiredParams([d])
    ensures Key(d, params[n := v]) == Key(d, params)
  {
    KeyDeterminism(d, params[n := v], params);
  }

  /** Keys are not injective: a singleton named "a-b" and a singleton "b"
      depending on a singleton "a" share the key "a-b". */
  lemma KeysCollide()
    ensures
      var ab := ResourceDef("a-b", [], true);
      var b := ResourceDef("b", [ResourceDef("a", [], true)], true);
      ab != b && Key(ab, map[]) == "a-b" && Key(b, map[]) == "a-b"
  {
    var a := ResourceDef("a", [], true);
    var ab := ResourceDef("a-b", [], true);
    var b := ResourceDef("b", [a], true);
    KeyShape(ab, map[]);
    assert Key(ab, map[]) == "a-b";
    FlattenOne(a);
    assert Flatten(b.dependsOn) == [a];
    assert Segments([a], map[]) == ["a"];
    assert Join(["a"]) == "a";
    KeyShape(b, map[]);
    assert Key(b, map[]) == "a" + Separator + "b";
    assert |ab.name| != |b.name|;
  }
}
