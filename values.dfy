/** The values a token map can hold, JavaScript's `typeof`-based
    classification of them, their rendering as text, property access on them,
    and the errors the core raises. */
module Values {
  import opened Wrappers
  import opened Text

  /** A JavaScript value as it can appear in a token map. Numbers are
      integers only; a function is known by an identity (what calling it
      yields is the `Oracle` below) and by the source text `String(f)`
      renders. */
  datatype Value =
    | Undefined
    | Null
    | Str(s: string)
    | Num(n: int)
    | BigInt(n: int)
    | Bool(b: bool)
    | List(items: seq<Value>)
    | Obj(fields: map<string, Value>)
    | Fn(id: nat, source: string)

  /** The closed set of type names `identifyType` / `_identifyType` return. */
  datatype Tag =
    | TUndefined | TNull | TString | TNumber | TBigInt | TBoolean
    | TArray | TObject | TFunction

  /** Calling the user function `id` with the token's arguments. */
  type Oracle = (nat, seq<string>) -> Value

  /** `typeof v`, except that null and arrays get tags of their own. */
  function IdentifyType(v: Value): (t: Tag)
    ensures t == TNull <==> v.Null?
    ensures t == TArray <==> v.List?
    ensures t == TFunction <==> v.Fn?
    ensures t == TObject <==> v.Obj?
    ensures t == TUndefined <==> v.Undefined?
    ensures t == TString <==> v.Str?
    ensures t == TNumber <==> v.Num?
    ensures t == TBigInt <==> v.BigInt?
    ensures t == TBoolean <==> v.Bool?
  {
    match v
    case Null => TNull
    case List(_) => TArray
    case Undefined => TUndefined
    case Str(_) => TString
    case Num(_) => TNumber
    case BigInt(_) => TBigInt
    case Bool(_) => TBoolean
    case Obj(_) => TObject
    case Fn(_, _) => TFunction
  }

  /** The tags whose values are already text-like: returned from a function
      call as they are, and stringified directly otherwise. */
  predicate Implicit(t: Tag)
  {
    t == TString || t == TNumber || t == TBigInt || t == TBoolean || t == TArray
  }

  /** `String(v)` (also what `` `${v}` `` and `v + ''` produce). An array
      renders as its elements joined with `,`, where null and undefined
      elements render as the empty string. */
  function ToText(v: Value): string
    decreases v
  {
    match v
    case Undefined => "undefined"
    case Null => "null"
    case Str(s) => s
    case Num(n) => DecimalText(n)
    case BigInt(n) => DecimalText(n)
    case Bool(b) => if b then "true" else "false"
    case List(items) =>
      Join(seq(|items|, k requires 0 <= k < |items| =>
             if items[k].Null? || items[k].Undefined? then "" else ToText(items[k])), ',')
    case Obj(_) => "[object Object]"
    case Fn(_, source) => source
  }

  /** `v[key]` for own data properties. Reading a property of undefined or
      null throws in JavaScript, so callers rule those out first. */
  function Get(v: Value, key: string): Value
    requires !v.Undefined? && !v.Null?
  {
    match v
    case Obj(fields) => if key in fields then fields[key] else Undefined
    case List(items) =>
      if key == "length" then Num(|items|)
      else
        var i := CanonicalIndex(key);
        if i.Some? && i.value < |items| then items[i.value] else Undefined
    case Str(s) =>
      if key == "length" then Num(|s|)
      else
        var i := CanonicalIndex(key);
        if i.Some? && i.value < |s| then Str([s[i.value]]) else Undefined
    case _ => Undefined
  }

  /** The errors the core throws. */
  datatype Error =
    | MissingArgument(name: string)             // Scanner._scanArg
    | UnterminatedString(name: string)          // Scanner._scanQuotedArg
    | Expected(expected: char)                  // StringReader.expect
    | TypeUnsupported(tag: Tag)                 // resolve / _stringify
    | FunctionReturnedFunction                  // invokeFunction / _invokeFunction
    | TokenNotFound(path: seq<string>)          // Resolver._lookup
    | MissingOrInvalidToken(path: seq<string>)  // engine.js replaceAllTokens
    | NotIterable                               // spreading non-iterable mappings
}
