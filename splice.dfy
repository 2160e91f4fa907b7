/** Substituting tokens back to front (`replaceAllTokens` / `replaceValue` /
    `appendSuffix`, shared by the three engines), and the reason the engines
    work from the last token to the first: splicing from the back leaves the
    spans of the earlier tokens valid, so the result is the original text with
    each token's span replaced, read left to right. */
module Splice {
  import opened Wrappers
  import opened Values
  import opened TokenSyntax

  /** `s.slice(a, b)` for non-negative bounds: clamped to the length, and
      empty when `b` does not exceed `a`. */
  function JsSlice(s: string, a: nat, b: nat): (r: string)
    ensures r == (if a < b && a < |s| then s[a..if b <= |s| then b else |s|] else "")
    ensures a <= b <= |s| ==> r == s[a..b]
  {
    var a' := if a <= |s| then a else |s|;
    var b' := if b <= |s| then b else |s|;
    if a' < b' then s[a'..b'] else ""
  }

  /** `replaceValue(content, value, start, end)`: a span inside the content
      is replaced by the value, and everything else kept. */
  function ReplaceValue(content: string, value: string, start: nat, end: nat): (r: string)
    ensures start <= end <= |content| ==>
              r == content[..start] + value + content[end..] &&
              |r| == |content| - (end - start) + |value|
  {
    JsSlice(content, 0, start) + value + JsSlice(content, end, |content|)
  }

  /** `appendSuffix(value, suffix)`: undefined and null pass through,
      everything else becomes its text followed by the suffix. */
  function AppendSuffix(value: Value, suffix: string): (r: Value)
    ensures value.Undefined? || value.Null? ==> r == value
    ensures !(value.Undefined? || value.Null?) ==> r == Str(ToText(value) + suffix)
  {
    if value.Undefined? || value.Null? then value else Str(ToText(value) + suffix)
  }

  /** What one token's turn does: an optional replacement text, the errors
      passed to the error handler in order, and the error thrown out of the
      whole pass, if any. */
  datatype Step = Step(rep: Option<string>, reports: seq<Error>, abort: Option<Error>)

  /** One call of the error handler: the error and the token. */
  datatype Report = Report(error: Error, token: Token)

  /** A pass's result (the new content, or the error thrown) and the error
      handler's calls, in order. */
  datatype Outcome = Outcome(result: Result<string, Error>, log: seq<Report>)

  /** Each step's replacement. */
  function Reps(steps: seq<Step>): (reps: seq<Option<string>>)
    ensures |reps| == |steps| && forall k :: 0 <= k < |steps| ==> reps[k] == steps[k].rep
  {
    seq(|steps|, k requires 0 <= k < |steps| => steps[k].rep)
  }

  predicate NoAbort(steps: seq<Step>)
  {
    forall k :: 0 <= k < |steps| ==> steps[k].abort.None?
  }

  /** The error handler's calls on behalf of one token. */
  function Logged(st: Step, tk: Token): (log: seq<Report>)
    ensures |log| == |st.reports| &&
            forall k :: 0 <= k < |log| ==> log[k] == Report(st.reports[k], tk)
  {
    seq(|st.reports|, k requires 0 <= k < |st.reports| => Report(st.reports[k], tk))
  }

  /** Step `k` is the last that throws. */
  predicate LastAbort(steps: seq<Step>, k: nat)
  {
    k < |steps| && steps[k].abort.Some? &&
    forall l :: k < l < |steps| ==> steps[l].abort.None?
  }

  /** The loop over `tokens.reverse()`: the last token's step first; a step
      that throws ends the pass with its error, and otherwise its replacement,
      if any, is spliced into the current content. */
  function Run(content: string, toks: seq<Token>, steps: seq<Step>): (o: Outcome)
    requires |toks| == |steps|
    decreases |toks|
  {
    if |toks| == 0 then Outcome(Ok(content), [])
    else
      var n := |toks| - 1;
      var st := steps[n];
      var tk := toks[n];
      if st.abort.Some? then Outcome(Err(st.abort.value), Logged(st, tk))
      else
        var c := if st.rep.Some? then ReplaceValue(content, st.rep.value, tk.start, tk.end) else content;
        Then(Logged(st, tk), Run(c, toks[..n], steps[..n]))
  }

  /** The pass throws exactly when some step throws, and then with the error
      of the LAST such step, the first to be reached. */
  lemma {:induction false} RunAborts(content: string, toks: seq<Token>, steps: seq<Step>)
    requires |toks| == |steps|
    ensures var o := Run(content, toks, steps);
            (o.result.Err? <==> exists k :: 0 <= k < |steps| && steps[k].abort.Some?) &&
            (o.result.Err? ==> exists k: nat :: LastAbort(steps, k) && o.result.error == steps[k].abort.value)
    decreases |toks|
  {
    if |toks| > 0 {
      var n := |toks| - 1;
      var st := steps[n];
      var tk := toks[n];
      if st.abort.Some? {
        assert LastAbort(steps, n);
      } else {
        var c := if st.rep.Some? then ReplaceValue(content, st.rep.value, tk.start, tk.end) else content;
        RunAborts(c, toks[..n], steps[..n]);
        assert Run(content, toks, steps).result == Run(c, toks[..n], steps[..n]).result;
        AbortsCarry(steps, Run(c, toks[..n], steps[..n]).result);
      }
    }
  }

  /** A step that does not throw leaves the verdict of the steps before it. */
  lemma AbortsCarry(steps: seq<Step>, r: Result<string, Error>)
    requires |steps| > 0 && steps[|steps| - 1].abort.None?
    requires var init := steps[..|steps| - 1];
             (r.Err? <==> exists k :: 0 <= k < |init| && init[k].abort.Some?) &&
             (r.Err? ==> exists k: nat :: LastAbort(init, k) && r.error == init[k].abort.value)
    ensures (r.Err? <==> exists k :: 0 <= k < |steps| && steps[k].abort.Some?) &&
            (r.Err? ==> exists k: nat :: LastAbort(steps, k) && r.error == steps[k].abort.value)
  {
    var n := |steps| - 1;
    if r.Err? {
      var k: nat :| LastAbort(steps[..n], k) && r.error == steps[..n][k].abort.value;
      LastAbortExtends(steps, k);
    } else {
      forall k | 0 <= k < |steps| ensures steps[k].abort.None? {
        if k < n { assert steps[..n][k] == steps[k]; }
      }
    }
  }

  lemma LastAbortExtends(steps: seq<Step>, k: nat)
    requires |steps| > 0 && steps[|steps| - 1].abort.None? && LastAbort(steps[..|steps| - 1], k)
    ensures LastAbort(steps, k) && steps[..|steps| - 1][k] == steps[k]
  {
    var n := |steps| - 1;
    forall l | k < l < |steps| ensures steps[l].abort.None? {
      if l < n { assert steps[..n][l] == steps[l]; }
    }
  }

  /** `text[a..b]` when that is a span of `text`, and empty otherwise; the
      reading below uses it only on spans of ordered tokens. */
  function Gap(text: string, a: nat, b: nat): string
  {
    if a <= b <= |text| then text[a..b] else ""
  }

  /** The replacement for a token, or its own span when there is none. */
  function Chosen(text: string, tk: Token, rep: Option<string>): string
  {
    if rep.Some? then rep.value else Gap(text, tk.start, tk.end)
  }

  /** The text between `from` and `to` read left to right, each token's span
      replaced by its choice: gap, choice, gap, ..., gap. */
  function Interleave(text: string, toks: seq<Token>, reps: seq<Option<string>>, from: nat, to: nat): string
    requires |toks| == |reps|
    decreases |toks|
  {
    if |toks| == 0 then Gap(text, from, to)
    else
      Gap(text, from, toks[0].start) + Chosen(text, toks[0], reps[0]) +
      Interleave(text, toks[1..], reps[1..], toks[0].end, to)
  }

  /** The same reading, with the last token split off. */
  lemma {:induction false} InterleaveSnoc(text: string, toks: seq<Token>, reps: seq<Option<string>>, from: nat, to: nat)
    requires |toks| == |reps| && |toks| > 0
    ensures var n := |toks| - 1;
            Interleave(text, toks, reps, from, to) ==
              Interleave(text, toks[..n], reps[..n], from, toks[n].start) +
              Chosen(text, toks[n], reps[n]) + Gap(text, toks[n].end, to)
    decreases |toks|
  {
    var n := |toks| - 1;
    var head := Gap(text, from, toks[0].start) + Chosen(text, toks[0], reps[0]);
    if n > 0 {
      var last := Chosen(text, toks[n], reps[n]) + Gap(text, toks[n].end, to);
      InterleaveSnoc(text, toks[1..], reps[1..], toks[0].end, to);
      InitOfTail(toks, n);
      InitOfTail(reps, n);
      var mid := Interleave(text, toks[..n][1..], reps[..n][1..], toks[0].end, toks[n].start);
      ConcatAssoc(mid, Chosen(text, toks[n], reps[n]), Gap(text, toks[n].end, to));
      ConcatAssoc(head, mid, last);
      ConcatAssoc(head + mid, Chosen(text, toks[n], reps[n]), Gap(text, toks[n].end, to));
    } else {
      ConcatAssoc(Gap(text, from, toks[0].start), Chosen(text, toks[0], reps[0]), Gap(text, toks[0].end, to));
    }
  }

  lemma InitOfTail<T>(s: seq<T>, n: nat)
    requires 1 <= n < |s|
    ensures s[1..][..n - 1] == s[..n][1..] && s[1..][n - 1] == s[n]
  {
  }

  lemma ConcatAssoc(a: string, b: string, c: string)
    ensures a + (b + c) == (a + b) + c
  {
  }

  /** Every earlier token ends before the last one starts. */
  predicate OrderedBefore(toks: seq<Token>, from: nat, to: nat)
    requires |toks| > 0
  {
    var n := |toks| - 1;
    from <= toks[n].start && Ordered(toks[..n], from, toks[n].start)
  }

  lemma OrderedLast(toks: seq<Token>, from: nat, to: nat)
    requires |toks| > 0 && Ordered(toks, from, to)
    ensures OrderedBefore(toks, from, to)
  {
    var n := |toks| - 1;
    assert forall k :: 0 <= k < n ==> toks[..n][k] == toks[k];
  }

  /** The invariant of the back-to-front loop: whatever follows the unprocessed
      prefix `text[..b]` is left alone, and the prefix comes out with its
      tokens replaced left to right. */
  lemma {:induction false} RunPrefix(text: string, toks: seq<Token>, steps: seq<Step>, b: nat, tail: string)
    requires |toks| == |steps| && b <= |text| && Ordered(toks, 0, b) && NoAbort(steps)
    ensures Run(text[..b] + tail, toks, steps).result == Ok(Interleave(text, toks, Reps(steps), 0, b) + tail)
    decreases |toks|
  {
    if |toks| > 0 {
      var n := |toks| - 1;
      var tk := toks[n];
      var tail' := Chosen(text, tk, steps[n].rep) + text[tk.end..b] + tail;
      RunLast(text, toks, steps, b, tail);
      OrderedLast(toks, 0, b);
      InitSteps(steps, n);
      RunPrefix(text, toks[..n], steps[..n], tk.start, tail');
      ReadLast(text, toks, Reps(steps), b, tail);
    }
  }

  lemma InitSteps(steps: seq<Step>, n: nat)
    requires n < |steps| && NoAbort(steps)
    ensures NoAbort(steps[..n]) && Reps(steps[..n]) == Reps(steps)[..n] && Reps(steps)[n] == steps[n].rep
  {
    assert forall k :: 0 <= k < n ==> steps[..n][k] == steps[k];
  }

  /** The last token's turn leaves the prefix before it and a new tail. */
  lemma RunLast(text: string, toks: seq<Token>, steps: seq<Step>, b: nat, tail: string)
    requires |toks| == |steps| && |toks| > 0 && b <= |text| && Ordered(toks, 0, b) && NoAbort(steps)
    ensures var n := |toks| - 1;
            var tk := toks[n];
            Run(text[..b] + tail, toks, steps).result ==
              Run(text[..tk.start] + (Chosen(text, tk, steps[n].rep) + text[tk.end..b] + tail), toks[..n], steps[..n]).result
  {
    var n := |toks| - 1;
    SpliceLast(text, b, tail, toks[n], steps[n].rep);
    RunStep(text[..b] + tail, toks, steps);
  }

  /** Reading the prefix left to right, the last token split off. */
  lemma ReadLast(text: string, toks: seq<Token>, reps: seq<Option<string>>, b: nat, tail: string)
    requires |toks| == |reps| && |toks| > 0 && toks[|toks| - 1].end <= b <= |text|
    ensures var n := |toks| - 1;
            var tk := toks[n];
            Interleave(text, toks, reps, 0, b) + tail ==
              Interleave(text, toks[..n], reps[..n], 0, tk.start) + (Chosen(text, tk, reps[n]) + text[tk.end..b] + tail)
  {
    var n := |toks| - 1;
    var tk := toks[n];
    InterleaveSnoc(text, toks, reps, 0, b);
    Regroup(Interleave(text, toks, reps, 0, b), Interleave(text, toks[..n], reps[..n], 0, tk.start),
            Chosen(text, tk, reps[n]), text[tk.end..b], tail);
  }

  lemma Regroup(x: string, l: string, ch: string, g: string, t: string)
    requires x == l + ch + g
    ensures x + t == l + (ch + g + t)
  {
  }

  /** Splicing the last token of the prefix `text[..b]`. */
  lemma SpliceLast(text: string, b: nat, tail: string, tk: Token, rep: Option<string>)
    requires tk.start <= tk.end <= b <= |text|
    ensures var content := text[..b] + tail;
            var c := if rep.Some? then ReplaceValue(content, rep.value, tk.start, tk.end) else content;
            c == text[..tk.start] + (Chosen(text, tk, rep) + text[tk.end..b] + tail)
  {
    var content := text[..b] + tail;
    var pre, gap := text[..tk.start], text[tk.end..b];
    PrefixOfConcat(text[..b], tail, tk.start);
    SuffixOfConcat(text[..b], tail, tk.end);
    assert content[..tk.start] == pre;
    assert content[tk.end..] == gap + tail;
    if rep.Some? {
      ConcatAssoc(pre, rep.value, gap + tail);
      ConcatAssoc(rep.value, gap, tail);
    } else {
      var own := text[tk.start..tk.end];
      assert text[..b] == pre + own + gap;
      ConcatAssoc(pre + own, gap, tail);
      ConcatAssoc(pre, own, gap + tail);
      ConcatAssoc(own, gap, tail);
    }
  }

  lemma SliceSplit(s: string, i: nat, j: nat, k: nat)
    requires i <= j <= k <= |s|
    ensures s[i..k] == s[i..j] + s[j..k]
  {
  }

  lemma PrefixOfConcat(x: string, y: string, i: nat)
    requires i <= |x|
    ensures (x + y)[..i] == x[..i]
  {
  }

  lemma SuffixOfConcat(x: string, y: string, i: nat)
    requires i <= |x|
    ensures (x + y)[i..] == x[i..] + y
  {
  }

  /** Splicing from the back equals reading left to right: when no step
      throws, the pass yields the original text's gaps interleaved with the
      replacements, each token without one keeping its own span. */
  lemma SpliceInterleaves(text: string, toks: seq<Token>, steps: seq<Step>)
    requires |toks| == |steps| && Ordered(toks, 0, |text|) && NoAbort(steps)
    ensures Run(text, toks, steps).result == Ok(Interleave(text, toks, Reps(steps), 0, |text|))
  {
    assert text[..|text|] + "" == text;
    RunPrefix(text, toks, steps, |text|, "");
    assert Interleave(text, toks, Reps(steps), 0, |text|) + "" == Interleave(text, toks, Reps(steps), 0, |text|);
  }

  /** When no token is replaced the text is unchanged. */
  lemma {:induction false} InterleaveIdentity(text: string, toks: seq<Token>, reps: seq<Option<string>>, from: nat, to: nat)
    requires |toks| == |reps| && from <= to <= |text| && Ordered(toks, from, to)
    requires forall k :: 0 <= k < |reps| ==> reps[k].None?
    ensures Interleave(text, toks, reps, from, to) == text[from..to]
    decreases |toks|
  {
    if |toks| > 0 {
      InterleaveIdentity(text, toks[1..], reps[1..], toks[0].end, to);
      SliceSplit(text, from, toks[0].end, to);
      SliceSplit(text, from, toks[0].start, toks[0].end);
    }
  }

  /** Every error handed to the handler for a token is in the log, unless a
      token to its right threw first. */
  lemma {:induction false} Reported(content: string, toks: seq<Token>, steps: seq<Step>, k: nat, m: nat)
    requires |toks| == |steps| && k < |steps| && m < |steps[k].reports|
    requires forall l :: k < l < |steps| ==> steps[l].abort.None?
    ensures Report(steps[k].reports[m], toks[k]) in Run(content, toks, steps).log
    decreases |toks|
  {
    var n := |toks| - 1;
    var st := steps[n];
    var tk := toks[n];
    if k < n {
      var c := if st.rep.Some? then ReplaceValue(content, st.rep.value, tk.start, tk.end) else content;
      Reported(c, toks[..n], steps[..n], k, m);
    } else {
      assert Logged(st, tk)[m] == Report(st.reports[m], tk);
    }
  }

  /** With no step reporting, the handler is never called. */
  lemma {:induction false} QuietRun(content: string, toks: seq<Token>, steps: seq<Step>)
    requires |toks| == |steps|
    requires forall k :: 0 <= k < |steps| ==> steps[k].reports == []
    ensures Run(content, toks, steps).log == []
    decreases |toks|
  {
    if |toks| > 0 {
      var n := |toks| - 1;
      var st := steps[n];
      var tk := toks[n];
      if st.abort.None? {
        var c := if st.rep.Some? then ReplaceValue(content, st.rep.value, tk.start, tk.end) else content;
        QuietRun(c, toks[..n], steps[..n]);
      }
    }
  }

  /** A text that is one whole token, replaced without a report, becomes
      the replacement. */
  lemma WholeRun(content: string, tk: Token, steps: seq<Step>, v: string)
    requires |steps| == 1 && steps[0] == Step(Some(v), [], None) && tk.start == 0 && tk.end == |content|
    ensures Run(content, [tk], steps) == Outcome(Ok(v), [])
  {
    assert [tk][..0] == [] && steps[..0] == [];
    assert ReplaceValue(content, v, 0, |content|) == v;
    assert Logged(steps[0], tk) == [];
  }

  /** `tokens.reverse()`. */
  function Reversed<T>(s: seq<T>): (r: seq<T>)
    ensures |r| == |s| && forall k :: 0 <= k < |s| ==> r[k] == s[|s| - 1 - k]
  {
    seq(|s|, k requires 0 <= k < |s| => s[|s| - 1 - k])
  }

  /** Prepending handler calls to a pass's outcome. */
  function Then(log: seq<Report>, o: Outcome): Outcome
  {
    Outcome(o.result, log + o.log)
  }

  /** One turn of the back-to-front loop, the form its invariant needs. */
  lemma RunStep(content: string, toks: seq<Token>, steps: seq<Step>)
    requires |toks| == |steps| && |toks| > 0 && steps[|toks| - 1].abort.None?
    ensures var n := |toks| - 1;
            var st := steps[n];
            var tk := toks[n];
            var c := if st.rep.Some? then ReplaceValue(content, st.rep.value, tk.start, tk.end) else content;
            Run(content, toks, steps) == Then(Logged(st, tk), Run(c, toks[..n], steps[..n]))
  {
  }

  /** One turn of the back-to-front loop, whether or not its step throws. */
  lemma RunTurn(content: string, toks: seq<Token>, steps: seq<Step>)
    requires |toks| == |steps| && |toks| > 0
    ensures var n := |toks| - 1;
            var st := steps[n];
            var tk := toks[n];
            var c := if st.rep.Some? then ReplaceValue(content, st.rep.value, tk.start, tk.end) else content;
            Run(content, toks, steps) ==
              Then(Logged(st, tk), if st.abort.Some? then Outcome(Err(st.abort.value), []) else Run(c, toks[..n], steps[..n]))
  {
    var n := |toks| - 1;
    assert Logged(steps[n], toks[n]) + [] == Logged(steps[n], toks[n]);
  }

  /** The invariant of a back-to-front loop survives one turn: with `m`
      tokens left and the turn's results those of step `m - 1`, either the
      pass throws now or `m - 1` tokens are left. */
  lemma Turn(content: string, toks: seq<Token>, steps: seq<Step>, m: nat, log: seq<Report>, current: string,
             next: string, reports: seq<Report>, thrown: Option<Error>)
    requires |toks| == |steps| && 0 < m <= |toks|
    requires Run(content, toks, steps) == Then(log, Run(current, toks[..m], steps[..m]))
    requires reports == Logged(steps[m - 1], toks[m - 1]) && thrown == steps[m - 1].abort
    requires thrown.None? ==>
               next == if steps[m - 1].rep.Some?
                       then ReplaceValue(current, steps[m - 1].rep.value, toks[m - 1].start, toks[m - 1].end)
                       else current
    ensures thrown.Some? ==> Run(content, toks, steps) == Outcome(Err(thrown.value), log + reports)
    ensures thrown.None? ==> Run(content, toks, steps) == Then(log + reports, Run(next, toks[..m - 1], steps[..m - 1]))
  {
    assert toks[..m][m - 1] == toks[m - 1] && steps[..m][m - 1] == steps[m - 1];
    assert toks[..m][..m - 1] == toks[..m - 1] && steps[..m][..m - 1] == steps[..m - 1];
    RunTurn(current, toks[..m], steps[..m]);
    ThenTwice(log, reports, if thrown.Some? then Outcome(Err(thrown.value), []) else Run(next, toks[..m - 1], steps[..m - 1]));
    assert log + reports + [] == log + reports;
  }

  /** The loop invariant holds before the first turn and gives the result
      after the last. */
  lemma LoopEnds(content: string, toks: seq<Token>, steps: seq<Step>, log: seq<Report>, current: string)
    requires |toks| == |steps|
    ensures Run(content, toks, steps) == Then([], Run(content, toks[..|toks|], steps[..|toks|]))
    ensures Run(content, toks, steps) == Then(log, Run(current, toks[..0], steps[..0])) ==>
              Run(content, toks, steps) == Outcome(Ok(current), log)
  {
    assert toks[..|toks|] == toks && steps[..|toks|] == steps;
    assert [] + Run(content, toks, steps).log == Run(content, toks, steps).log;
    assert toks[..0] == [] && log + [] == log;
  }

  lemma ThenTwice(a: seq<Report>, b: seq<Report>, o: Outcome)
    ensures Then(a, Then(b, o)) == Then(a + b, o)
  {
    assert a + (b + o.log) == (a + b) + o.log;
  }
}
