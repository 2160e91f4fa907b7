/** The older string engine (`src/p90/p90.js`): the same layered lookup,
    resolution and back-to-front splicing, but a token that is not found is
    left as it is without a report, and an error is reported and thrown only
    when `throwOnError` is set. */
module P90 {
  import opened Wrappers
  import opened Values
  import opened Cursors
  import opened TokenSyntax
  import opened Splice
  import ValueResolve
  import LayerLookup
  import Engine
  import Scanner

  const DefaultErrorNote: string := "¯\\_(ツ)_/¯"

  datatype Options = Options(throwOnError: bool, errorNote: string)

  /** The options a caller passes; `None` is an absent key. */
  datatype UserOptions = UserOptions(throwOnError: Option<bool>, errorNote: Option<string>)

  /** `getOptions(userOptions)`: by default errors are only reported. */
  function GetOptions(u: UserOptions): (o: Options)
    ensures u.throwOnError.Some? ==> o.throwOnError == u.throwOnError.value
    ensures u.throwOnError.None? ==> !o.throwOnError
    ensures u.errorNote.Some? ==> o.errorNote == u.errorNote.value
    ensures u.errorNote.None? ==> o.errorNote == DefaultErrorNote
  {
    Options(if u.throwOnError.Some? then u.throwOnError.value else false,
            if u.errorNote.Some? then u.errorNote.value else DefaultErrorNote)
  }

  /** One token's turn: `replaceToken` inside `try`, `handleError` in
      `catch`. */
  function P90Step(layers: seq<Value>, tk: Token, opts: Options, call: Oracle): Step
  {
    match Engine.Replacement(layers, tk, call)
    case Ok(rep) => Step(rep, [], None)
    case Err(e) => Step(None, [e], if opts.throwOnError then Some(e) else None)
  }

  function P90Steps(layers: seq<Value>, toks: seq<Token>, opts: Options, call: Oracle): (steps: seq<Step>)
    ensures |steps| == |toks| && forall k :: 0 <= k < |toks| ==> steps[k] == P90Step(layers, toks[k], opts, call)
  {
    seq(|toks|, k requires 0 <= k < |toks| => P90Step(layers, toks[k], opts, call))
  }

  /** `replaceAllTokens`: a scan error is thrown before any token is
      handled, whatever the options. */
  function ReplaceAllSpec(layers: seq<Value>, content: string, opts: Options, call: Oracle): Outcome
  {
    match Tokens(content)
    case Err(e) => Outcome(Err(e), [])
    case Ok(toks) => Run(content, toks, P90Steps(layers, toks, opts, call))
  }

  /** `replaceAll(tokenMaps, content, userOptions)`. */
  function ReplaceAllOf(tokenMaps: Value, content: string, u: UserOptions, call: Oracle): Outcome
  {
    ReplaceAllSpec(Engine.WrapLayers(tokenMaps), content, GetOptions(u), call)
  }

  /** `replaceAll(tokenMaps, content, userOptions)`. */
  method ReplaceAll(tokenMaps: Value, content: string, u: UserOptions, call: Oracle)
    returns (result: Result<string, Error>, log: seq<Report>)
    ensures Outcome(result, log) == ReplaceAllOf(tokenMaps, content, u, call)
  {
    var options := GetOptions(u);
    var layers := Engine.WrapLayers(tokenMaps);
    result, log := ReplaceAllTokens(layers, content, options, call);
  }

  /** `replaceToken(tokenMaps, content, tk)`: the new content, or the error
      resolving threw. */
  method ReplaceToken(layers: seq<Value>, content: string, tk: Token, call: Oracle)
    returns (r: Result<string, Error>)
    ensures var f := Engine.Replacement(layers, tk, call);
            (r.Err? <==> f.Err?) && (r.Err? ==> r.error == f.error) &&
            (r.Ok? ==> r.value == if f.value.Some? then ReplaceValue(content, f.value.value, tk.start, tk.end) else content)
  {
    var value := LayerLookup.Lookup(layers, tk.path);
    if value == Undefined {
      return Ok(content);
    }
    var resolved := ValueResolve.Resolve(value, tk.args, call);
    if resolved.Err? {
      return Err(resolved.error);
    }
    var suffixed := AppendSuffix(resolved.value, tk.suffix);
    return Ok(ReplaceValue(content, ToText(suffixed), tk.start, tk.end));
  }

  /** `st` is the turn of token `tk`. */
  predicate IsStep(st: Step, layers: seq<Value>, tk: Token, opts: Options, call: Oracle)
  {
    st == P90Step(layers, tk, opts, call)
  }

  /** The `try`/`catch` around one token, with `handleError`; `st` names
      the token's turn. */
  method HandleToken(layers: seq<Value>, current: string, tk: Token, opts: Options, call: Oracle, ghost st: Step)
    returns (next: string, reports: seq<Report>, thrown: Option<Error>)
    requires IsStep(st, layers, tk, opts, call)
    ensures reports == Logged(st, tk) && thrown == st.abort
    ensures thrown.None? ==> next == if st.rep.Some? then ReplaceValue(current, st.rep.value, tk.start, tk.end) else current
  {
    next, reports, thrown := current, [], None;
    var replaced := ReplaceToken(layers, current, tk, call);
    if replaced.Err? {
      reports := [Report(replaced.error, tk)];
      if opts.throwOnError {
        thrown := Some(replaced.error);
      }
    } else {
      next := replaced.value;
    }
  }

  /** One turn of the loop, on the `m`-th token: the run from `content`
      moves forward by exactly that token's turn. */
  method Advance(layers: seq<Value>, current: string, tk: Token, opts: Options, call: Oracle,
                 ghost content: string, ghost toks: seq<Token>, ghost steps: seq<Step>, ghost m: nat, ghost log: seq<Report>)
    returns (next: string, reports: seq<Report>, thrown: Option<Error>)
    requires |toks| == |steps| && 0 < m <= |toks| && tk == toks[m - 1]
    requires IsStep(steps[m - 1], layers, tk, opts, call)
    requires Run(content, toks, steps) == Then(log, Run(current, toks[..m], steps[..m]))
    ensures thrown.Some? ==> Run(content, toks, steps) == Outcome(Err(thrown.value), log + reports)
    ensures thrown.None? ==> Run(content, toks, steps) == Then(log + reports, Run(next, toks[..m - 1], steps[..m - 1]))
  {
    next, reports, thrown := HandleToken(layers, current, tk, opts, call, steps[m - 1]);
    Turn(content, toks, steps, m, log, current, next, reports, thrown);
  }

  /** `replaceAllTokens(tokenMaps, content, options)`. */
  method ReplaceAllTokens(layers: seq<Value>, content: string, opts: Options, call: Oracle)
    returns (result: Result<string, Error>, log: seq<Report>)
    ensures Outcome(result, log) == ReplaceAllSpec(layers, content, opts, call)
  {
    var scanned := Scanner.ScanAll(content);
    if scanned.Err? {
      return Err(scanned.error), [];
    }
    result, log := SpliceAll(layers, content, scanned.value, opts, call, P90Steps(layers, scanned.value, opts, call));
  }

  /** The loop over `tokens.reverse()`, given the turns of the tokens. */
  method SpliceAll(layers: seq<Value>, content: string, toks: seq<Token>, opts: Options, call: Oracle, ghost steps: seq<Step>)
    returns (result: Result<string, Error>, log: seq<Report>)
    requires |steps| == |toks|
    requires forall k {:trigger IsStep(steps[k], layers, toks[k], opts, call)} ::
               0 <= k < |toks| ==> IsStep(steps[k], layers, toks[k], opts, call)
    ensures Outcome(result, log) == Run(content, toks, steps)
  {
    var tokens := Reversed(toks);
    var current := content;
    log := [];
    LoopEnds(content, toks, steps, log, current);
    for i := 0 to |tokens|
      invariant Run(content, toks, steps) == Then(log, Run(current, toks[..|toks| - i], steps[..|toks| - i]))
    {
      var next, reports, thrown := Advance(layers, current, tokens[i], opts, call, content, toks, steps, |toks| - i, log);
      log := log + reports;
      if thrown.Some? {
        return Err(thrown.value), log;
      }
      current := next;
    }
    LoopEnds(content, toks, steps, log, current);
    return Ok(current), log;
  }


  /** On a scanned text the pass is the back-to-front run of its tokens. */
  lemma SpecRun(layers: seq<Value>, content: string, opts: Options, call: Oracle, toks: seq<Token>)
    requires Tokens(content) == Ok(toks)
    ensures ReplaceAllSpec(layers, content, opts, call) == Run(content, toks, P90Steps(layers, toks, opts, call))
  {
  }

  /** With `throwOnError` off (the default) the pass never throws on a
      scanned text: found tokens are replaced left to right, and tokens not
      found or failing to resolve keep their own text. */
  lemma LenientInterleaves(layers: seq<Value>, content: string, opts: Options, call: Oracle, toks: seq<Token>)
    requires !opts.throwOnError && Tokens(content) == Ok(toks)
    ensures Ordered(toks, 0, |content|) &&
            ReplaceAllSpec(layers, content, opts, call).result ==
              Ok(Interleave(content, toks, Engine.Choices(layers, toks, call), 0, |content|))
  {
    SpecRun(layers, content, opts, call, toks);
    TokensOrdered(Cursor(content, 0));
    RunLenient(layers, content, toks, opts, call);
  }

  lemma RunLenient(layers: seq<Value>, content: string, toks: seq<Token>, opts: Options, call: Oracle)
    requires !opts.throwOnError && Ordered(toks, 0, |content|)
    ensures Run(content, toks, P90Steps(layers, toks, opts, call)).result ==
              Ok(Interleave(content, toks, Engine.Choices(layers, toks, call), 0, |content|))
  {
    var steps := P90Steps(layers, toks, opts, call);
    var reps := Engine.Choices(layers, toks, call);
    forall k | 0 <= k < |toks| ensures steps[k].abort.None? && steps[k].rep == reps[k] {
      LenientStep(layers, toks[k], opts, call);
    }
    assert Reps(steps) == reps;
    SpliceInterleaves(content, toks, steps);
  }

  /** Without `throwOnError` a token's turn never throws, and replaces the
      token exactly when it resolves to a text. */
  lemma LenientStep(layers: seq<Value>, tk: Token, opts: Options, call: Oracle)
    requires !opts.throwOnError
    ensures var st := P90Step(layers, tk, opts, call);
            var f := Engine.Replacement(layers, tk, call);
            st.abort.None? && st.rep == (if f.Ok? then f.value else None)
  {
  }

  /** A token that is simply not found is never reported: only resolve
      errors reach `handleError`. */
  lemma MissingIsSilent(layers: seq<Value>, tk: Token, opts: Options, call: Oracle)
    requires LayerLookup.LookupFrom(layers, tk.path, 0) == Undefined
    ensures P90Step(layers, tk, opts, call) == Step(None, [], None)
  {
  }

  /** With `throwOnError` set, the pass throws exactly when some token fails
      to resolve, and then with the error of the last such token. */
  lemma StrictThrowsOnError(layers: seq<Value>, content: string, toks: seq<Token>, opts: Options, call: Oracle)
    requires opts.throwOnError
    ensures var o := Run(content, toks, P90Steps(layers, toks, opts, call));
            && (o.result.Err? <==> exists k :: 0 <= k < |toks| && Engine.Replacement(layers, toks[k], call).Err?)
            && (o.result.Err? ==> exists k: nat :: LastFailing(layers, toks, call, k) &&
                                   o.result.error == Engine.Replacement(layers, toks[k], call).error)
  {
    var steps := P90Steps(layers, toks, opts, call);
    RunAborts(content, toks, steps);
    var o := Run(content, toks, steps);
    if o.result.Err? {
      var k: nat :| LastAbort(steps, k) && o.result.error == steps[k].abort.value;
      assert LastFailing(layers, toks, call, k);
    }
  }

  /** Token `k` is the last whose replacement fails. */
  predicate LastFailing(layers: seq<Value>, toks: seq<Token>, call: Oracle, k: nat)
  {
    k < |toks| && Engine.Replacement(layers, toks[k], call).Err? &&
    forall l :: k < l < |toks| ==> Engine.Replacement(layers, toks[l], call).Ok?
  }
}
