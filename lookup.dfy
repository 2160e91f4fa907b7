/** Layered token-map lookup of the string engines (`src/p90/lookup.js`):
    the first token map, in order, whose search for a path is not undefined
    supplies the value. */
module LayerLookup {
  import opened Values
  import Resolver

  /** `searchTokenMap(tokenMap, path)`: index one segment at a time; only
      undefined or null met while segments remain stop the search (with
      undefined), so a null can be the answer only for the last segment.
      Strings and arrays are indexed too. */
  function SearchIn(tokenMap: Value, path: seq<string>): (v: Value)
    ensures |path| == 0 ==> v == tokenMap
    ensures |path| > 0 && (tokenMap.Undefined? || tokenMap.Null?) ==> v == Undefined
    decreases |path|
  {
    if |path| == 0 then tokenMap
    else if tokenMap.Undefined? || tokenMap.Null? then Undefined
    else SearchIn(Get(tokenMap, path[0]), path[1..])
  }

  /** Token map `j` is the first from `i` on whose search finds `v`. */
  predicate FirstFound(tokenMaps: seq<Value>, path: seq<string>, i: nat, j: nat, v: Value)
  {
    i <= j < |tokenMaps| && SearchIn(tokenMaps[j], path) == v &&
    forall l :: i <= l < j ==> SearchIn(tokenMaps[l], path) == Undefined
  }

  /** `lookup` over the token maps from `i` on: undefined exactly when every
      search is undefined, and otherwise the first search result that is
      not. */
  function LookupFrom(tokenMaps: seq<Value>, path: seq<string>, i: nat): (v: Value)
    requires i <= |tokenMaps|
    ensures v != Undefined <==> exists j :: i <= j < |tokenMaps| && SearchIn(tokenMaps[j], path) != Undefined
    ensures v != Undefined ==> exists j :: FirstFound(tokenMaps, path, i, j, v)
    decreases |tokenMaps| - i
  {
    if i == |tokenMaps| then Undefined
    else
      var v := SearchIn(tokenMaps[i], path);
      if v != Undefined then
        assert FirstFound(tokenMaps, path, i, i, v);
        v
      else
        var w := LookupFrom(tokenMaps, path, i + 1);
        if w != Undefined then
          var j :| FirstFound(tokenMaps, path, i + 1, j, w);
          assert FirstFound(tokenMaps, path, i, j, w);
          w
        else w
  }

  /** `lookup(tokenMaps, path)`. */
  method Lookup(tokenMaps: seq<Value>, path: seq<string>) returns (v: Value)
    ensures v == LookupFrom(tokenMaps, path, 0)
  {
    for i := 0 to |tokenMaps|
      invariant LookupFrom(tokenMaps, path, 0) == LookupFrom(tokenMaps, path, i)
    {
      var found := SearchTokenMap(tokenMaps[i], path);
      if found != Undefined {
        return found;
      }
    }
    return Undefined;
  }

  /** `searchTokenMap(tokenMap, path)`. */
  method SearchTokenMap(tokenMap: Value, path: seq<string>) returns (v: Value)
    ensures v == SearchIn(tokenMap, path)
  {
    v := tokenMap;
    for i := 0 to |path|
      invariant SearchIn(tokenMap, path) == SearchIn(v, path[i..])
    {
      if v.Undefined? || v.Null? {
        return Undefined;
      }
      assert path[i..][1..] == path[i + 1..];
      v := Get(v, path[i]);
    }
    assert path[|path|..] == [];
  }

  /** Searching a longer path is searching the rest of it from where the
      first part led. */
  lemma {:induction false} SearchConcat(tokenMap: Value, p: seq<string>, q: seq<string>)
    ensures SearchIn(tokenMap, p + q) == SearchIn(SearchIn(tokenMap, p), q)
    decreases |p|
  {
    if |p| > 0 {
      assert (p + q)[0] == p[0];
      assert (p + q)[1..] == p[1..] + q;
      if !(tokenMap.Undefined? || tokenMap.Null?) {
        SearchConcat(Get(tokenMap, p[0]), p[1..], q);
      }
    } else {
      assert p + q == q;
    }
  }

  /** A one-segment path reads that key of the map; a longer one descends a
      segment at a time. */
  lemma OneSegment(tokenMap: Value, key: string, rest: seq<string>)
    requires !tokenMap.Undefined? && !tokenMap.Null?
    ensures SearchIn(tokenMap, [key]) == Get(tokenMap, key)
    ensures SearchIn(tokenMap, [key] + rest) == SearchIn(Get(tokenMap, key), rest)
  {
    assert ([key] + rest)[1..] == rest;
    assert [key][1..] == [];
  }

  /** A null met before the last segment gives undefined, not null. */
  lemma NullMidPath(tokenMap: Value, p: seq<string>, q: seq<string>)
    requires SearchIn(tokenMap, p) == Null && |q| > 0
    ensures SearchIn(tokenMap, p + q) == Undefined
  {
    SearchConcat(tokenMap, p, q);
  }

  /** The two lookups differ: this search indexes into arrays and strings,
      while the resolver's `_findToken` descends only into plain objects. */
  lemma LengthOfList()
    ensures var m := Obj(map["list" := List([Num(1), Num(2), Num(3)])]);
            SearchIn(m, ["list", "length"]) == Num(3) &&
            Resolver.FindTokenIn(m, ["list", "length"]) == Undefined
  {
    var m := Obj(map["list" := List([Num(1), Num(2), Num(3)])]);
    var p: seq<string> := ["list", "length"];
    assert p[1..] == ["length"];
    assert p[1..][1..] == [];
  }

  /** Layering: a path missing from the first map is found in the second. */
  lemma SecondLayer()
    ensures LookupFrom([Obj(map[]), Obj(map["a" := Obj(map["b" := Obj(map["c" := Str("x")])])])], ["a", "b", "c"], 0)
            == Str("x")
  {
    var p: seq<string> := ["a", "b", "c"];
    assert p[1..] == ["b", "c"] && p[1..][1..] == ["c"] && p[1..][1..][1..] == [];
  }
}
