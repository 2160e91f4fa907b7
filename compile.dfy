/** The compiler entry point (`src/compiler/compile.js`): mappings spread
    into a `Resolver`, every token resolved through it and spliced back to
    front; every error goes to the `onError` handler and the token keeps its
    text, unless the handler throws. */
module Compile {
  import opened Wrappers
  import opened Values
  import opened Cursors
  import opened TokenSyntax
  import opened Splice
  import Resolver
  import Scanner

  /** The options after `compileOptions`: whether the `onError` handler
      throws the error it is given (the default handler only writes
      diagnostics). */
  datatype Options = Options(onErrorRethrows: bool)

  datatype UserOptions = UserOptions(onErrorRethrows: Option<bool>)

  /** `compileOptions(userOptions)`. */
  function CompileOptions(u: UserOptions): (o: Options)
    ensures u.onErrorRethrows.Some? ==> o.onErrorRethrows == u.onErrorRethrows.value
    ensures u.onErrorRethrows.None? ==> !o.onErrorRethrows
  {
    Options(if u.onErrorRethrows.Some? then u.onErrorRethrows.value else false)
  }

  /** The arguments `new Resolver(...mappings)` receives: a plain object is
      wrapped first; an array spreads into its elements and a string into
      its characters; spreading anything else throws. */
  function MappingsOf(mappings: Value): (r: Result<seq<Value>, Error>)
    ensures r.Err? <==> !(mappings.Obj? || mappings.List? || mappings.Str?)
    ensures r.Err? ==> r.error == NotIterable
    ensures mappings.Obj? ==> r == Ok([mappings])
    ensures mappings.List? ==> r == Ok(mappings.items)
    ensures mappings.Str? ==> (r.Ok? && |r.value| == |mappings.s| &&
              forall k :: 0 <= k < |mappings.s| ==> r.value[k] == Str([mappings.s[k]]))
  {
    if Resolver.IsObject(mappings) then Ok([mappings])
    else
      match mappings
      case List(items) => Ok(items)
      case Str(s) => Ok(seq(|s|, k requires 0 <= k < |s| => Str([s[k]])))
      case _ => Err(NotIterable)
  }

  /** What a token is replaced by: the resolver's value, stringified, with
      the suffix; or the error `resolver.resolve` threw. */
  function Replacement(mappings: seq<Value>, tk: Token, call: Oracle): (r: Result<string, Error>)
    ensures var x := Resolver.ResolvePath(mappings, tk.path, tk.args, call);
            && (r.Err? <==> x.Err?)
            && (r.Err? ==> r.error == x.error)
            && (r.Ok? ==> r.value == ToText(x.value) + tk.suffix)
  {
    match Resolver.ResolvePath(mappings, tk.path, tk.args, call)
    case Err(e) => Err(e)
    case Ok(x) =>
      Resolver.StringifyAgrees(Resolver.LookupFrom(mappings, tk.path, 0).value, tk.args, call);
      Ok(ToText(AppendSuffix(x, tk.suffix)))
  }

  /** One token's turn: the body of the `try`, and `onError` in `catch`. */
  function CompileStep(mappings: seq<Value>, tk: Token, opts: Options, call: Oracle): Step
  {
    match Replacement(mappings, tk, call)
    case Ok(t) => Step(Some(t), [], None)
    case Err(e) => Step(None, [e], if opts.onErrorRethrows then Some(e) else None)
  }

  function CompileSteps(mappings: seq<Value>, toks: seq<Token>, opts: Options, call: Oracle): (steps: seq<Step>)
    ensures |steps| == |toks| && forall k :: 0 <= k < |toks| ==> steps[k] == CompileStep(mappings, toks[k], opts, call)
  {
    seq(|toks|, k requires 0 <= k < |toks| => CompileStep(mappings, toks[k], opts, call))
  }

  /** `replaceAllTokens(resolver, cssWithTokens, options)`. */
  function ReplaceAllSpec(mappings: seq<Value>, css: string, opts: Options, call: Oracle): Outcome
  {
    match Tokens(css)
    case Err(e) => Outcome(Err(e), [])
    case Ok(toks) => Run(css, toks, CompileSteps(mappings, toks, opts, call))
  }

  /** The default export, `compile(mappings, cssWithTokens, options)`. */
  function CompileSpec(mappings: Value, css: string, u: UserOptions, call: Oracle): Outcome
  {
    match MappingsOf(mappings)
    case Err(e) => Outcome(Err(e), [])
    case Ok(ms) => ReplaceAllSpec(ms, css, CompileOptions(u), call)
  }

  /** The default export, `compile(mappings, cssWithTokens, options)`. */
  method Compile(mappings: Value, css: string, u: UserOptions, call: Oracle)
    returns (result: Result<string, Error>, log: seq<Report>)
    ensures Outcome(result, log) == CompileSpec(mappings, css, u, call)
  {
    var options := CompileOptions(u);
    var spread := MappingsOf(mappings);
    if spread.Err? {
      return Err(spread.error), [];
    }
    var resolver := new Resolver.Resolver(spread.value);
    result, log := ReplaceAllTokens(resolver, css, options, call);
  }

  /** `replaceAllTokens(resolver, cssWithTokens, options)`. */
  method ReplaceAllTokens(resolver: Resolver.Resolver, css: string, opts: Options, call: Oracle)
    returns (result: Result<string, Error>, log: seq<Report>)
    ensures Outcome(result, log) == ReplaceAllSpec(resolver.mappings, css, opts, call)
  {
    var scanned := Scanner.ScanAll(css);
    if scanned.Err? {
      return Err(scanned.error), [];
    }
    result, log := SpliceAll(resolver, css, scanned.value, opts, call, CompileSteps(resolver.mappings, scanned.value, opts, call));
  }

  /** `st` is the turn of token `tk`. */
  predicate IsStep(st: Step, mappings: seq<Value>, tk: Token, opts: Options, call: Oracle)
  {
    st == CompileStep(mappings, tk, opts, call)
  }

  /** The `try`/`catch` around one token. */
  method HandleToken(resolver: Resolver.Resolver, current: string, tk: Token, opts: Options, call: Oracle, ghost st: Step)
    returns (next: string, reports: seq<Report>, thrown: Option<Error>)
    requires IsStep(st, resolver.mappings, tk, opts, call)
    ensures reports == Logged(st, tk) && thrown == st.abort
    ensures thrown.None? ==> next == if st.rep.Some? then ReplaceValue(current, st.rep.value, tk.start, tk.end) else current
  {
    next, reports, thrown := current, [], None;
    var value := resolver.Resolve(tk.path, tk.args, call);
    if value.Err? {
      reports := [Report(value.error, tk)];
      if opts.onErrorRethrows {
        thrown := Some(value.error);
      }
      return;
    }
    var suffixed := AppendSuffix(value.value, tk.suffix);
    next := ReplaceValue(current, ToText(suffixed), tk.start, tk.end);
  }

  /** One turn of the loop, on the `m`-th token: the run from `css` moves
      forward by exactly that token's turn. */
  method Advance(resolver: Resolver.Resolver, current: string, tk: Token, opts: Options, call: Oracle,
                 ghost css: string, ghost toks: seq<Token>, ghost steps: seq<Step>, ghost m: nat, ghost log: seq<Report>)
    returns (next: string, reports: seq<Report>, thrown: Option<Error>)
    requires |toks| == |steps| && 0 < m <= |toks| && tk == toks[m - 1]
    requires IsStep(steps[m - 1], resolver.mappings, tk, opts, call)
    requires Run(css, toks, steps) == Then(log, Run(current, toks[..m], steps[..m]))
    ensures thrown.Some? ==> Run(css, toks, steps) == Outcome(Err(thrown.value), log + reports)
    ensures thrown.None? ==> Run(css, toks, steps) == Then(log + reports, Run(next, toks[..m - 1], steps[..m - 1]))
  {
    next, reports, thrown := HandleToken(resolver, current, tk, opts, call, steps[m - 1]);
    Turn(css, toks, steps, m, log, current, next, reports, thrown);
  }

  /** The loop over `tokens.reverse()`. */
  method SpliceAll(resolver: Resolver.Resolver, css: string, toks: seq<Token>, opts: Options, call: Oracle, ghost steps: seq<Step>)
    returns (result: Result<string, Error>, log: seq<Report>)
    requires |steps| == |toks|
    requires forall k {:trigger IsStep(steps[k], resolver.mappings, toks[k], opts, call)} ::
               0 <= k < |toks| ==> IsStep(steps[k], resolver.mappings, toks[k], opts, call)
    ensures Outcome(result, log) == Run(css, toks, steps)
  {
    var tokens := Reversed(toks);
    var current := css;
    log := [];
    LoopEnds(css, toks, steps, log, current);
    for i := 0 to |tokens|
      invariant Run(css, toks, steps) == Then(log, Run(current, toks[..|toks| - i], steps[..|toks| - i]))
    {
      var next, reports, thrown := Advance(resolver, current, tokens[i], opts, call, css, toks, steps, |toks| - i, log);
      log := log + reports;
      if thrown.Some? {
        return Err(thrown.value), log;
      }
      current := next;
    }
    LoopEnds(css, toks, steps, log, current);
    return Ok(current), log;
  }

  /** The replacement each token gets, `None` for those that fail. */
  function Choices(mappings: seq<Value>, toks: seq<Token>, call: Oracle): (reps: seq<Option<string>>)
    ensures |reps| == |toks|
    ensures forall k :: 0 <= k < |toks| ==>
              reps[k] == (var f := Replacement(mappings, toks[k], call); if f.Ok? then Some(f.value) else None)
  {
    seq(|toks|, k requires 0 <= k < |toks| =>
      var f := Replacement(mappings, toks[k], call); if f.Ok? then Some(f.value) else None)
  }

  /** On a scanned text the pass is the back-to-front run of its tokens. */
  lemma SpecRun(mappings: seq<Value>, css: string, opts: Options, call: Oracle, toks: seq<Token>)
    requires Tokens(css) == Ok(toks)
    ensures ReplaceAllSpec(mappings, css, opts, call) == Run(css, toks, CompileSteps(mappings, toks, opts, call))
  {
  }

  /** With the default handler the pass never throws on a scanned text:
      tokens that resolve are replaced left to right, and the others keep
      their own text. */
  lemma DefaultInterleaves(mappings: seq<Value>, css: string, opts: Options, call: Oracle, toks: seq<Token>)
    requires !opts.onErrorRethrows && Tokens(css) == Ok(toks)
    ensures Ordered(toks, 0, |css|) &&
            ReplaceAllSpec(mappings, css, opts, call).result == Ok(Interleave(css, toks, Choices(mappings, toks, call), 0, |css|))
  {
    SpecRun(mappings, css, opts, call, toks);
    TokensOrdered(Cursor(css, 0));
    RunDefault(mappings, css, toks, opts, call);
  }

  lemma RunDefault(mappings: seq<Value>, css: string, toks: seq<Token>, opts: Options, call: Oracle)
    requires !opts.onErrorRethrows && Ordered(toks, 0, |css|)
    ensures Run(css, toks, CompileSteps(mappings, toks, opts, call)).result ==
              Ok(Interleave(css, toks, Choices(mappings, toks, call), 0, |css|))
  {
    var steps := CompileSteps(mappings, toks, opts, call);
    var reps := Choices(mappings, toks, call);
    forall k | 0 <= k < |toks| ensures steps[k].abort.None? && steps[k].rep == reps[k] {
      DefaultStep(mappings, toks[k], opts, call);
    }
    assert Reps(steps) == reps;
    SpliceInterleaves(css, toks, steps);
  }

  /** With a handler that does not rethrow a token's turn never throws, and
      replaces the token exactly when it resolves; a failure is reported. */
  lemma DefaultStep(mappings: seq<Value>, tk: Token, opts: Options, call: Oracle)
    requires !opts.onErrorRethrows
    ensures var st := CompileStep(mappings, tk, opts, call);
            var f := Replacement(mappings, tk, call);
            && st.abort.None?
            && st.rep == (if f.Ok? then Some(f.value) else None)
            && (f.Err? ==> st.reports == [f.error])
  {
  }

  /** With a handler that does not rethrow, every token that fails to
      resolve is handed to `onError` with its error. */
  lemma ErrorReported(mappings: seq<Value>, css: string, opts: Options, call: Oracle, toks: seq<Token>, k: nat)
    requires !opts.onErrorRethrows && k < |toks| && Replacement(mappings, toks[k], call).Err?
    ensures Report(Replacement(mappings, toks[k], call).error, toks[k]) in Run(css, toks, CompileSteps(mappings, toks, opts, call)).log
  {
    var steps := CompileSteps(mappings, toks, opts, call);
    forall l | k < l < |steps| ensures steps[l].abort.None? {
      DefaultStep(mappings, toks[l], opts, call);
    }
    DefaultStep(mappings, toks[k], opts, call);
    Reported(css, toks, steps, k, 0);
  }

  /** A token found in no mapping is reported to the handler with the
      "token not found" error for its path. */
  lemma NotFoundReported(mappings: seq<Value>, css: string, opts: Options, call: Oracle, toks: seq<Token>, k: nat)
    requires !opts.onErrorRethrows && k < |toks|
    requires forall j :: 0 <= j < |mappings| ==> Resolver.FindTokenIn(mappings[j], toks[k].path) == Undefined
    ensures Report(TokenNotFound(toks[k].path), toks[k]) in Run(css, toks, CompileSteps(mappings, toks, opts, call)).log
  {
    assert Replacement(mappings, toks[k], call) == Err(TokenNotFound(toks[k].path));
    ErrorReported(mappings, css, opts, call, toks, k);
  }

  /** Mappings that cannot be spread fail the call before any scanning. */
  lemma NotIterableFails(mappings: Value, css: string, u: UserOptions, call: Oracle)
    requires !(mappings.Obj? || mappings.List? || mappings.Str?)
    ensures CompileSpec(mappings, css, u, call) == Outcome(Err(NotIterable), [])
  {
  }

  /** A text that is one token spanning all of it, resolved, comes back as
      the replacement, whatever `onError` does, with no report. */
  lemma WholeToken(mappings: seq<Value>, css: string, opts: Options, call: Oracle, tk: Token, v: string)
    requires Tokens(css) == Ok([tk]) && tk.start == 0 && tk.end == |css|
    requires Replacement(mappings, tk, call) == Ok(v)
    ensures ReplaceAllSpec(mappings, css, opts, call) == Outcome(Ok(v), [])
  {
    var steps := CompileSteps(mappings, [tk], opts, call);
    assert steps[0] == Step(Some(v), [], None);
    WholeRun(css, tk, steps, v);
  }
}
