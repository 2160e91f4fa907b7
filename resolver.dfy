/** The resolver of the compiler path (`src/resolver/Resolver.js`): an
    ordered list of mappings searched for a token path, and the value found
    stringified, calling a function value once. */
module Resolver {
  import opened Wrappers
  import opened Values
  import ValueResolve

  /** `isObject`: a plain object, that is neither null nor an array. */
  predicate IsObject(v: Value)
  {
    IdentifyType(v) == TObject
  }

  /** `_findToken(mapping, path)`: descend one path segment at a time; as
      soon as the current value is not a plain object while segments remain,
      the answer is undefined. An empty path gives the mapping itself. */
  function FindTokenIn(mapping: Value, path: seq<string>): (v: Value)
    ensures |path| == 0 ==> v == mapping
    ensures |path| > 0 && !IsObject(mapping) ==> v == Undefined
    decreases |path|
  {
    if |path| == 0 then mapping
    else if !IsObject(mapping) then Undefined
    else FindTokenIn(Get(mapping, path[0]), path[1..])
  }

  /** Mapping `j` is the first from `i` on whose search finds `v`. */
  predicate FirstFound(mappings: seq<Value>, path: seq<string>, i: nat, j: nat, v: Value)
  {
    i <= j < |mappings| && FindTokenIn(mappings[j], path) == v &&
    forall l :: i <= l < j ==> FindTokenIn(mappings[l], path) == Undefined
  }

  /** `_lookup` from mapping `i` on: the value of the first mapping, in
      order, whose search is not undefined; an error naming the path when
      there is none. */
  function LookupFrom(mappings: seq<Value>, path: seq<string>, i: nat): (r: Result<Value, Error>)
    requires i <= |mappings|
    ensures r.Ok? <==> exists j :: i <= j < |mappings| && FindTokenIn(mappings[j], path) != Undefined
    ensures r.Ok? ==> r.value != Undefined && exists j :: FirstFound(mappings, path, i, j, r.value)
    ensures r.Err? ==> r.error == TokenNotFound(path)
    decreases |mappings| - i
  {
    if i == |mappings| then Err(TokenNotFound(path))
    else
      var v := FindTokenIn(mappings[i], path);
      if v != Undefined then
        assert FirstFound(mappings, path, i, i, v);
        Ok(v)
      else
        var r := LookupFrom(mappings, path, i + 1);
        if r.Ok? then
          var j :| FirstFound(mappings, path, i + 1, j, r.value);
          assert FirstFound(mappings, path, i, j, r.value);
          r
        else r
  }

  /** `_stringify(value, args)`. */
  function Stringify(value: Value, args: seq<string>, call: Oracle): Result<Value, Error>
    decreases if value.Fn? then 2 else 0
  {
    match IdentifyType(value)
    case TNull => Ok(Str(""))
    case TString => Ok(Str(ToText(value)))
    case TNumber => Ok(Str(ToText(value)))
    case TBigInt => Ok(Str(ToText(value)))
    case TBoolean => Ok(Str(ToText(value)))
    case TArray => Ok(Str(ToText(value)))
    case TFunction => InvokeFunction(value, args, call)
    case _ => Err(TypeUnsupported(IdentifyType(value)))
  }

  /** `_invokeFunction(func, args)`. */
  function InvokeFunction(func: Value, args: seq<string>, call: Oracle): Result<Value, Error>
    requires func.Fn?
    decreases 1
  {
    var value := call(func.id, args);
    var t := IdentifyType(value);
    if Implicit(t) then Ok(value)
    else if t == TFunction then Err(FunctionReturnedFunction)
    else Stringify(value, [], call)
  }

  /** The resolver's stringification agrees with `resolve.js` on every value
      (both classify with the same tags and join arrays with `,`), so
      everything proved about `ValueResolve.Resolve` holds of it. The fact it
      rests on is that `Array.prototype.toString` is `join(',')`: `String(v)`
      in `resolve.js` and the explicit `join(',')` of `_stringify` agree. */
  lemma StringifyAgrees(value: Value, args: seq<string>, call: Oracle)
    ensures Stringify(value, args, call) == ValueResolve.Resolve(value, args, call)
    decreases if value.Fn? then 1 else 0
  {
    if value.Fn? {
      var w := call(value.id, args);
      if !Implicit(IdentifyType(w)) && !w.Fn? {
        StringifyAgrees(w, [], call);
      }
    }
  }

  /** `resolve(tokenPath, args)`: look the path up, then stringify. */
  function ResolvePath(mappings: seq<Value>, path: seq<string>, args: seq<string>, call: Oracle): Result<Value, Error>
  {
    match LookupFrom(mappings, path, 0)
    case Err(e) => Err(e)
    case Ok(v) => Stringify(v, args, call)
  }

  class Resolver {
    const mappings: seq<Value>

    constructor (mappings: seq<Value>)
      ensures this.mappings == mappings
    {
      this.mappings := mappings;
    }

    /** `resolve(tokenPath, args)`. */
    method Resolve(tokenPath: seq<string>, args: seq<string>, call: Oracle) returns (r: Result<Value, Error>)
      ensures r == ResolvePath(mappings, tokenPath, args, call)
    {
      var value := Lookup(tokenPath);
      if value.Err? {
        return Err(value.error);
      }
      r := Stringify(value.value, args, call);
    }

    /** `_lookup(tokenPath)`: the mappings in constructor order. */
    method Lookup(tokenPath: seq<string>) returns (r: Result<Value, Error>)
      ensures r == LookupFrom(mappings, tokenPath, 0)
    {
      for i := 0 to |mappings|
        invariant LookupFrom(mappings, tokenPath, 0) == LookupFrom(mappings, tokenPath, i)
      {
        var tokenValue := FindToken(mappings[i], tokenPath);
        if tokenValue != Undefined {
          return Ok(tokenValue);
        }
      }
      return Err(TokenNotFound(tokenPath));
    }

    /** `_findToken(mapping, tokenPath)`. */
    method FindToken(mapping: Value, tokenPath: seq<string>) returns (value: Value)
      ensures value == FindTokenIn(mapping, tokenPath)
    {
      value := mapping;
      for i := 0 to |tokenPath|
        invariant FindTokenIn(mapping, tokenPath) == FindTokenIn(value, tokenPath[i..])
      {
        if !IsObject(value) {
          return Undefined;
        }
        assert tokenPath[i..][1..] == tokenPath[i + 1..];
        value := Get(value, tokenPath[i]);
      }
      assert tokenPath[|tokenPath|..] == [];
    }
  }
}
