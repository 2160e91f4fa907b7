/** Turning a looked-up value into the value substituted for a token
    (`src/engine/resolve.js`): null becomes the empty string, text-like values
    their text, and a function is called once with the token's arguments. */
module ValueResolve {
  import opened Wrappers
  import opened Values

  /** What one call's result leads to, decided without calling anything
      else: a text-like result is kept as it is, a function is refused, null
      becomes the empty string and anything else is unsupported. */
  function CallOutcome(w: Value): (r: Result<Value, Error>)
  {
    var t := IdentifyType(w);
    if Implicit(t) then Ok(w)
    else if t == TFunction then Err(FunctionReturnedFunction)
    else if t == TNull then Ok(Str(""))
    else Err(TypeUnsupported(t))
  }

  /** `resolve(value, args)`. A successful result is always text-like (never
      null or undefined); a value that is not a function is rendered without
      calling anything; a function is called exactly once, with `args`, and
      what follows depends on that call's result alone. */
  function Resolve(value: Value, args: seq<string>, call: Oracle): (r: Result<Value, Error>)
    ensures r.Ok? ==> Implicit(IdentifyType(r.value))
    ensures !value.Fn? ==> (r.Ok? <==> value.Null? || Implicit(IdentifyType(value)))
    ensures !value.Fn? && r.Ok? ==> r.value == Str(if value.Null? then "" else ToText(value))
    ensures !value.Fn? && r.Err? ==> r.error == TypeUnsupported(IdentifyType(value))
    ensures value.Fn? ==> r == CallOutcome(call(value.id, args))
    decreases if value.Fn? then 2 else 0
  {
    match IdentifyType(value)
    case TNull => Ok(Str(""))
    case TString => Ok(Str(ToText(value)))
    case TNumber => Ok(Str(ToText(value)))
    case TBigInt => Ok(Str(ToText(value)))
    case TBoolean => Ok(Str(ToText(value)))
    case TArray => Ok(Str(ToText(value)))
    case TFunction => InvokeFunction(value, args, call)
    case _ => Err(TypeUnsupported(IdentifyType(value)))
  }

  /** `invokeFunction(func, args)`: a text-like result is returned as it is,
      a function result is refused, and anything else goes through `resolve`
      with no arguments. */
  function InvokeFunction(func: Value, args: seq<string>, call: Oracle): (r: Result<Value, Error>)
    requires func.Fn?
    ensures r == CallOutcome(call(func.id, args))
    decreases 1
  {
    var value := call(func.id, args);
    var t := IdentifyType(value);
    if Implicit(t) then Ok(value)
    else if t == TFunction then Err(FunctionReturnedFunction)
    else Resolve(value, [], call)
  }
}
