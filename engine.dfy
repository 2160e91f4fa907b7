/** The string engine (`src/engine/engine.js`): token maps searched in
    layers, every token resolved and spliced back to front, and missing or
    invalid tokens reported to an error handler and, by default, thrown. */
module Engine {
  import opened Wrappers
  import opened Values
  import opened Cursors
  import opened TokenSyntax
  import opened Splice
  import ValueResolve
  import LayerLookup
  import Scanner

  /** The default `ref`, the note the default error handler prints. */
  const DefaultRef: string := "¯\\_(ツ)_/¯"

  /** The options after defaults: `onErrorRethrows` says whether the error
      handler throws the error it is given (the default handler only writes
      diagnostics). */
  datatype Options = Options(ref: string, throwIfMissing: bool, onErrorRethrows: bool)

  /** The options a caller passes; `None` is an absent key. */
  datatype UserOptions = UserOptions(ref: Option<string>, throwIfMissing: Option<bool>, onErrorRethrows: Option<bool>)

  /** `getOptions(userOptions)`: given keys override the defaults, which
      throw on a missing token and do not rethrow from the handler. */
  function GetOptions(u: UserOptions): (o: Options)
    ensures u.ref.Some? ==> o.ref == u.ref.value
    ensures u.ref.None? ==> o.ref == DefaultRef
    ensures u.throwIfMissing.Some? ==> o.throwIfMissing == u.throwIfMissing.value
    ensures u.throwIfMissing.None? ==> o.throwIfMissing
    ensures u.onErrorRethrows.Some? ==> o.onErrorRethrows == u.onErrorRethrows.value
    ensures u.onErrorRethrows.None? ==> !o.onErrorRethrows
  {
    Options(if u.ref.Some? then u.ref.value else DefaultRef,
            if u.throwIfMissing.Some? then u.throwIfMissing.value else true,
            if u.onErrorRethrows.Some? then u.onErrorRethrows.value else false)
  }

  /** A single token map is a one-layer list; an array is the list. */
  function WrapLayers(tokenMaps: Value): (layers: seq<Value>)
    ensures tokenMaps.List? ==> layers == tokenMaps.items
    ensures !tokenMaps.List? ==> layers == [tokenMaps]
  {
    if tokenMaps.List? then tokenMaps.items else [tokenMaps]
  }

  /** What `replaceToken` substitutes for a token: nothing when the lookup
      is undefined, the resolve error when resolving throws, and otherwise
      the resolved value's text followed by the token's suffix. */
  function Replacement(layers: seq<Value>, tk: Token, call: Oracle): (r: Result<Option<string>, Error>)
    ensures r == Ok(None) <==> LayerLookup.LookupFrom(layers, tk.path, 0) == Undefined
    ensures var v := LayerLookup.LookupFrom(layers, tk.path, 0);
            var x := ValueResolve.Resolve(v, tk.args, call);
            && (r.Err? <==> v != Undefined && x.Err?)
            && (r.Err? ==> r.error == x.error)
            && (r.Ok? && r.value.Some? ==> x.Ok? && r.value.value == ToText(x.value) + tk.suffix)
  {
    var v := LayerLookup.LookupFrom(layers, tk.path, 0);
    if v == Undefined then Ok(None)
    else
      match ValueResolve.Resolve(v, tk.args, call)
      case Err(e) => Err(e)
      case Ok(x) => Ok(Some(ToText(AppendSuffix(x, tk.suffix))))
  }

  function Missing(tk: Token): Error
  {
    MissingOrInvalidToken(tk.path)
  }

  /** One token's turn of `replaceAllTokens`: a resolve error goes to the
      handler; a token not replaced is then reported as missing, and thrown
      when `throwIfMissing` is set; a handler that rethrows ends the pass at
      its first call. */
  function EngineStep(layers: seq<Value>, tk: Token, opts: Options, call: Oracle): Step
  {
    match Replacement(layers, tk, call)
    case Ok(Some(t)) => Step(Some(t), [], None)
    case Ok(None) =>
      Step(None, [Missing(tk)], if opts.onErrorRethrows || opts.throwIfMissing then Some(Missing(tk)) else None)
    case Err(e) =>
      if opts.onErrorRethrows then Step(None, [e], Some(e))
      else Step(None, [e, Missing(tk)], if opts.throwIfMissing then Some(Missing(tk)) else None)
  }

  function EngineSteps(layers: seq<Value>, toks: seq<Token>, opts: Options, call: Oracle): (steps: seq<Step>)
    ensures |steps| == |toks| && forall k :: 0 <= k < |toks| ==> steps[k] == EngineStep(layers, toks[k], opts, call)
  {
    seq(|toks|, k requires 0 <= k < |toks| => EngineStep(layers, toks[k], opts, call))
  }

  /** `replaceAllTokens`: a scan error ends the pass before any token is
      handled; otherwise the tokens' turns run back to front. */
  function ReplaceAllSpec(layers: seq<Value>, content: string, opts: Options, call: Oracle): Outcome
  {
    match Tokens(content)
    case Err(e) => Outcome(Err(e), [])
    case Ok(toks) => Run(content, toks, EngineSteps(layers, toks, opts, call))
  }

  /** `stringP69(tokenMaps, content, options)`. */
  function StringP69Spec(tokenMaps: Value, content: string, u: UserOptions, call: Oracle): Outcome
  {
    ReplaceAllSpec(WrapLayers(tokenMaps), content, GetOptions(u), call)
  }

  /** `stringP69(tokenMaps, content, options)`. */
  method StringP69(tokenMaps: Value, content: string, u: UserOptions, call: Oracle)
    returns (result: Result<string, Error>, log: seq<Report>)
    ensures Outcome(result, log) == StringP69Spec(tokenMaps, content, u, call)
  {
    var options := GetOptions(u);
    var layers := WrapLayers(tokenMaps);
    result, log := ReplaceAllTokens(layers, content, options, call);
  }

  /** `replaceToken(tokenMaps, content, tk)`: the new content and whether
      the token was found, or the error resolving threw. */
  method ReplaceToken(layers: seq<Value>, content: string, tk: Token, call: Oracle)
    returns (r: Result<(string, bool), Error>)
    ensures var f := Replacement(layers, tk, call);
            (r.Err? <==> f.Err?) && (r.Err? ==> r.error == f.error) &&
            (r.Ok? && f.value.Some? ==> r.value == (ReplaceValue(content, f.value.value, tk.start, tk.end), true)) &&
            (r.Ok? && f.value.None? ==> r.value == (content, false))
  {
    var value := LayerLookup.Lookup(layers, tk.path);
    if value == Undefined {
      return Ok((content, false));
    }
    var resolved := ValueResolve.Resolve(value, tk.args, call);
    if resolved.Err? {
      return Err(resolved.error);
    }
    var suffixed := AppendSuffix(resolved.value, tk.suffix);
    return Ok((ReplaceValue(content, ToText(suffixed), tk.start, tk.end), true));
  }

  /** `st` is the turn of token `tk`. */
  predicate IsStep(st: Step, layers: seq<Value>, tk: Token, opts: Options, call: Oracle)
  {
    st == EngineStep(layers, tk, opts, call)
  }

  /** The body of `replaceAllTokens`'s loop for one token: the content
      after it, the handler's calls, and the error thrown, if any. */
  method HandleToken(layers: seq<Value>, current: string, tk: Token, opts: Options, call: Oracle, ghost st: Step)
    returns (next: string, reports: seq<Report>, thrown: Option<Error>)
    requires IsStep(st, layers, tk, opts, call)
    ensures reports == Logged(st, tk) && thrown == st.abort
    ensures thrown.None? ==> next == if st.rep.Some? then ReplaceValue(current, st.rep.value, tk.start, tk.end) else current
  {
    next, reports, thrown := current, [], None;
    var tokenFound := false;
    var replaced := ReplaceToken(layers, current, tk, call);
    if replaced.Err? {
      reports := reports + [Report(replaced.error, tk)];
      if opts.onErrorRethrows {
        return next, reports, Some(replaced.error);
      }
    } else {
      next, tokenFound := replaced.value.0, replaced.value.1;
    }
    if !tokenFound {
      var e := MissingOrInvalidToken(tk.path);
      reports := reports + [Report(e, tk)];
      if opts.onErrorRethrows || opts.throwIfMissing {
        return next, reports, Some(e);
      }
    }
  }

  /** One turn of the loop, on the `m`-th token: the run from `content`
      moves forward by exactly that token's turn. */
  method Advance(layers: seq<Value>, current: string, tk: Token, opts: Options, call: Oracle,
                 ghost content: string, ghost toks: seq<Token>, ghost steps: seq<Step>, ghost m: nat, ghost log: seq<Report>)
    returns (next: string, reports: seq<Report>, thrown: Option<Error>)
    requires |toks| == |steps| && 0 < m <= |toks| && tk == toks[m - 1]
    requires IsStep(steps[m - 1], layers, tk, opts, call)
    requires Run(content, toks, steps) == Then(log, Run(current, toks[..m], steps[..m]))
    ensures thrown.Some? ==> Run(content, toks, steps) == Outcome(Err(thrown.value), log + reports)
    ensures thrown.None? ==> Run(content, toks, steps) == Then(log + reports, Run(next, toks[..m - 1], steps[..m - 1]))
  {
    next, reports, thrown := HandleToken(layers, current, tk, opts, call, steps[m - 1]);
    Turn(content, toks, steps, m, log, current, next, reports, thrown);
  }

  /** `replaceAllTokens(tokenMaps, content, options)`. */
  method ReplaceAllTokens(layers: seq<Value>, content: string, opts: Options, call: Oracle)
    returns (result: Result<string, Error>, log: seq<Report>)
    ensures Outcome(result, log) == ReplaceAllSpec(layers, content, opts, call)
  {
    var scanned := Scanner.ScanAll(content);
    if scanned.Err? {
      return Err(scanned.error), [];
    }
    result, log := SpliceAll(layers, content, scanned.value, opts, call, EngineSteps(layers, scanned.value, opts, call));
  }

  /** The loop of `replaceAllTokens` over `tokens.reverse()`. */
  method SpliceAll(layers: seq<Value>, content: string, toks: seq<Token>, opts: Options, call: Oracle, ghost steps: seq<Step>)
    returns (result: Result<string, Error>, log: seq<Report>)
    requires |steps| == |toks|
    requires forall k {:trigger IsStep(steps[k], layers, toks[k], opts, call)} ::
               0 <= k < |toks| ==> IsStep(steps[k], layers, toks[k], opts, call)
    ensures Outcome(result, log) == Run(content, toks, steps)
  {
    var tokens := Reversed(toks);
    var current := content;
    log := [];
    LoopEnds(content, toks, steps, log, current);
    for i := 0 to |tokens|
      invariant Run(content, toks, steps) == Then(log, Run(current, toks[..|toks| - i], steps[..|toks| - i]))
    {
      var next, reports, thrown := Advance(layers, current, tokens[i], opts, call, content, toks, steps, |toks| - i, log);
      log := log + reports;
      if thrown.Some? {
        return Err(thrown.value), log;
      }
      current := next;
    }
    LoopEnds(content, toks, steps, log, current);
    return Ok(current), log;
  }

  /** On a scanned text the pass is the back-to-front run of its tokens. */
  lemma SpecRun(layers: seq<Value>, content: string, opts: Options, call: Oracle, toks: seq<Token>)
    requires Tokens(content) == Ok(toks)
    ensures ReplaceAllSpec(layers, content, opts, call) == Run(content, toks, EngineSteps(layers, toks, opts, call))
  {
  }

  /** The replacement each token gets, `None` for those left as they are. */
  function Choices(layers: seq<Value>, toks: seq<Token>, call: Oracle): (reps: seq<Option<string>>)
    ensures |reps| == |toks|
    ensures forall k :: 0 <= k < |toks| ==>
              reps[k] == (var f := Replacement(layers, toks[k], call); if f.Ok? then f.value else None)
  {
    seq(|toks|, k requires 0 <= k < |toks| =>
      var f := Replacement(layers, toks[k], call); if f.Ok? then f.value else None)
  }

  predicate Lenient(opts: Options)
  {
    !opts.throwIfMissing && !opts.onErrorRethrows
  }

  /** A found token is replaced by its text whatever the options. */
  lemma StepChoice(layers: seq<Value>, toks: seq<Token>, opts: Options, call: Oracle)
    ensures Reps(EngineSteps(layers, toks, opts, call)) == Choices(layers, toks, call)
  {
  }

  /** With both throwing options off the pass never throws on a scanned
      text, and its result is the text with each found token's span
      replaced, read left to right; tokens not found keep their own text. */
  lemma LenientInterleaves(layers: seq<Value>, content: string, opts: Options, call: Oracle, toks: seq<Token>)
    requires Lenient(opts) && Tokens(content) == Ok(toks)
    ensures Ordered(toks, 0, |content|) &&
            ReplaceAllSpec(layers, content, opts, call).result == Ok(Interleave(content, toks, Choices(layers, toks, call), 0, |content|))
  {
    SpecRun(layers, content, opts, call, toks);
    TokensOrdered(Cursor(content, 0));
    RunLenient(layers, content, toks, opts, call);
  }

  lemma RunLenient(layers: seq<Value>, content: string, toks: seq<Token>, opts: Options, call: Oracle)
    requires Lenient(opts) && Ordered(toks, 0, |content|)
    ensures Run(content, toks, EngineSteps(layers, toks, opts, call)).result ==
              Ok(Interleave(content, toks, Choices(layers, toks, call), 0, |content|))
  {
    var steps := EngineSteps(layers, toks, opts, call);
    assert NoAbort(steps);
    SpliceInterleaves(content, toks, steps);
    StepChoice(layers, toks, opts, call);
  }

  /** In the lenient mode every token not replaced is reported as missing
      or invalid. */
  lemma LenientReportsMissing(layers: seq<Value>, content: string, opts: Options, call: Oracle, toks: seq<Token>, k: nat)
    requires Lenient(opts) && Tokens(content) == Ok(toks) && k < |toks|
    requires Choices(layers, toks, call)[k].None?
    ensures Report(Missing(toks[k]), toks[k]) in ReplaceAllSpec(layers, content, opts, call).log
  {
    var steps := EngineSteps(layers, toks, opts, call);
    SpecRun(layers, content, opts, call, toks);
    var m := if Replacement(layers, toks[k], call).Err? then 1 else 0;
    forall l | k <= l < |toks| ensures steps[l].abort.None? {
      LenientStep(layers, toks[l], opts, call);
    }
    LenientStep(layers, toks[k], opts, call);
    Reported(content, toks, steps, k, m);
  }

  /** In the lenient mode a token's turn never throws, and a token not
      replaced is reported as missing, after its resolve error if it had
      one. */
  lemma LenientStep(layers: seq<Value>, tk: Token, opts: Options, call: Oracle)
    requires Lenient(opts)
    ensures var st := EngineStep(layers, tk, opts, call);
            var f := Replacement(layers, tk, call);
            var m := if f.Err? then 1 else 0;
            && st.abort.None?
            && (!(f.Ok? && f.value.Some?) ==> m < |st.reports| && st.reports[m] == Missing(tk))
  {
  }

  /** A resolve error reaches the handler and, since the token then counts
      as not found, is followed by the missing-token report; with a handler
      that does not rethrow, only `throwIfMissing` makes the pass throw. */
  lemma ResolveErrorCountsAsMissing(layers: seq<Value>, tk: Token, opts: Options, call: Oracle)
    requires Replacement(layers, tk, call).Err?
    ensures var st := EngineStep(layers, tk, opts, call);
            var e := Replacement(layers, tk, call).error;
            && st.rep.None?
            && (opts.onErrorRethrows ==> st.reports == [e] && st.abort == Some(e))
            && (!opts.onErrorRethrows ==> st.reports == [e, Missing(tk)])
            && (!opts.onErrorRethrows ==> st.abort == if opts.throwIfMissing then Some(Missing(tk)) else None)
  {
  }

  /** With `throwIfMissing` (the default) and a handler that does not
      rethrow, the pass throws exactly when some token is not replaced, and
      then the missing-token error of the last such token, the first one the
      back-to-front loop meets. */
  lemma StrictThrowsOnMissing(layers: seq<Value>, content: string, opts: Options, call: Oracle, toks: seq<Token>)
    requires opts.throwIfMissing && !opts.onErrorRethrows && Tokens(content) == Ok(toks)
    ensures var o := ReplaceAllSpec(layers, content, opts, call);
            var reps := Choices(layers, toks, call);
            && (o.result.Err? <==> exists k :: 0 <= k < |toks| && reps[k].None?)
            && (o.result.Err? ==> exists k: nat :: LastMissing(reps, k) && o.result.error == Missing(toks[k]))
  {
    SpecRun(layers, content, opts, call, toks);
    RunStrict(layers, content, toks, opts, call);
  }

  /** Token `k` is the last one not replaced. */
  predicate LastMissing(reps: seq<Option<string>>, k: nat)
  {
    k < |reps| && reps[k].None? && forall l :: k < l < |reps| ==> reps[l].Some?
  }

  lemma RunStrict(layers: seq<Value>, content: string, toks: seq<Token>, opts: Options, call: Oracle)
    requires opts.throwIfMissing && !opts.onErrorRethrows
    ensures var o := Run(content, toks, EngineSteps(layers, toks, opts, call));
            var reps := Choices(layers, toks, call);
            && (o.result.Err? <==> exists k :: 0 <= k < |toks| && reps[k].None?)
            && (o.result.Err? ==> exists k: nat :: LastMissing(reps, k) && o.result.error == Missing(toks[k]))
  {
    var steps := EngineSteps(layers, toks, opts, call);
    var reps := Choices(layers, toks, call);
    forall k | 0 <= k < |toks|
      ensures (steps[k].abort.Some? <==> reps[k].None?)
      ensures steps[k].abort.Some? ==> steps[k].abort.value == Missing(toks[k])
    {
      StrictStep(layers, toks[k], opts, call);
    }
    AbortsOnMissing(content, toks, steps, reps);
  }

  /** Under the strict options a token's turn aborts exactly when it is not
      replaced, and then with its missing-token error. */
  lemma StrictStep(layers: seq<Value>, tk: Token, opts: Options, call: Oracle)
    requires opts.throwIfMissing && !opts.onErrorRethrows
    ensures var st := EngineStep(layers, tk, opts, call);
            var f := Replacement(layers, tk, call);
            && (st.abort.Some? <==> !(f.Ok? && f.value.Some?))
            && (st.abort.Some? ==> st.abort.value == Missing(tk))
  {
  }

  lemma AbortsOnMissing(content: string, toks: seq<Token>, steps: seq<Step>, reps: seq<Option<string>>)
    requires |steps| == |toks| == |reps|
    requires forall k :: 0 <= k < |toks| ==> (steps[k].abort.Some? <==> reps[k].None?)
    requires forall k :: 0 <= k < |toks| ==> steps[k].abort.Some? ==> steps[k].abort.value == Missing(toks[k])
    ensures var o := Run(content, toks, steps);
            && (o.result.Err? <==> exists k :: 0 <= k < |toks| && reps[k].None?)
            && (o.result.Err? ==> exists k: nat :: LastMissing(reps, k) && o.result.error == Missing(toks[k]))
  {
    RunAborts(content, toks, steps);
    var o := Run(content, toks, steps);
    if o.result.Err? {
      var k: nat :| LastAbort(steps, k) && o.result.error == steps[k].abort.value;
      assert LastMissing(reps, k);
    }
  }

  /** When every token is found the handler is never called and the result
      is the left-to-right reading, whatever the options. */
  lemma AllFoundQuiet(layers: seq<Value>, content: string, opts: Options, call: Oracle, toks: seq<Token>)
    requires Tokens(content) == Ok(toks)
    requires forall k :: 0 <= k < |toks| ==> Choices(layers, toks, call)[k].Some?
    ensures Ordered(toks, 0, |content|) &&
            ReplaceAllSpec(layers, content, opts, call) ==
              Outcome(Ok(Interleave(content, toks, Choices(layers, toks, call), 0, |content|)), [])
  {
    SpecRun(layers, content, opts, call, toks);
    TokensOrdered(Cursor(content, 0));
    RunAllFound(layers, content, toks, opts, call);
  }

  lemma RunAllFound(layers: seq<Value>, content: string, toks: seq<Token>, opts: Options, call: Oracle)
    requires Ordered(toks, 0, |content|)
    requires forall k :: 0 <= k < |toks| ==> Choices(layers, toks, call)[k].Some?
    ensures Run(content, toks, EngineSteps(layers, toks, opts, call)) ==
              Outcome(Ok(Interleave(content, toks, Choices(layers, toks, call), 0, |content|)), [])
  {
    var steps := EngineSteps(layers, toks, opts, call);
    FoundSteps(layers, toks, opts, call);
    SpliceInterleaves(content, toks, steps);
    QuietRun(content, toks, steps);
    StepChoice(layers, toks, opts, call);
  }

  /** Tokens that are all found neither throw nor report. */
  lemma FoundSteps(layers: seq<Value>, toks: seq<Token>, opts: Options, call: Oracle)
    requires forall k :: 0 <= k < |toks| ==> Choices(layers, toks, call)[k].Some?
    ensures var steps := EngineSteps(layers, toks, opts, call);
            forall k :: 0 <= k < |toks| ==> steps[k].abort.None? && steps[k].reports == []
  {
    var steps := EngineSteps(layers, toks, opts, call);
    var reps := Choices(layers, toks, call);
    forall k | 0 <= k < |toks| ensures steps[k].abort.None? && steps[k].reports == [] {
      assert reps[k].Some?;
    }
  }

  /** A text without `$` comes back unchanged and nothing is reported. */
  lemma NoDollarUnchanged(tokenMaps: Value, content: string, u: UserOptions, call: Oracle)
    requires '$' !in content
    ensures StringP69Spec(tokenMaps, content, u, call) == Outcome(Ok(content), [])
  {
    TokensNone(Cursor(content, 0));
  }

  /** `appendSuffix`'s guard never fires here: a resolved value is never
      undefined or null, so the suffix is always appended. */
  lemma SuffixAlwaysAppended(v: Value, args: seq<string>, call: Oracle, suffix: string)
    requires ValueResolve.Resolve(v, args, call).Ok?
    ensures var x := ValueResolve.Resolve(v, args, call).value;
            AppendSuffix(x, suffix) == Str(ToText(x) + suffix)
  {
  }

  /** A text that is one token spanning all of it, found and resolved, comes
      back as the replacement, whatever the options, with no report. */
  lemma WholeToken(layers: seq<Value>, content: string, opts: Options, call: Oracle, tk: Token, v: string)
    requires Tokens(content) == Ok([tk]) && tk.start == 0 && tk.end == |content|
    requires Replacement(layers, tk, call) == Ok(Some(v))
    ensures ReplaceAllSpec(layers, content, opts, call) == Outcome(Ok(v), [])
  {
    var steps := EngineSteps(layers, [tk], opts, call);
    assert steps[0] == Step(Some(v), [], None);
    WholeRun(content, tk, steps, v);
  }
}
