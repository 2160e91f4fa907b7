# np90 token substitution, modelled in Dafny

np90 rewrites CSS and other text that contains `$name` tokens. The model
covers three parts of it:

- **The scanner** (`src/engine/Scanner.js`). It finds each token and reads
  its name, any parenthesised arguments, and what follows it: the dotted
  name becomes a path, each argument is bare or quoted, and the token takes
  at most one white-space character after it as a suffix.
- **Value resolution**. A token's path is looked up in one or more token
  maps ("layers"), searched in order (`src/p90/lookup.js`,
  `Resolver._lookup`). A function value is called with the token's
  arguments, and the result is rendered as text (`src/engine/resolve.js`,
  `Resolver._stringify`).
- **Three engines** that splice the values back into the text:
  `src/engine/engine.js`, `src/p90/p90.js` and `src/compiler/compile.js`.
  Each walks the tokens from the last to the first, so that the earlier
  tokens keep their positions. Each engine treats a token that is missing
  or fails to resolve in its own way: it reports it, skips it, or throws.

The model follows each source file's own form:

- The scanner is a class (`Scanner.Scanner`) holding a cursor. Its methods
  advance the cursor and rewind it to a bookmark when the grammar looks
  ahead. Each method is proved to compute what a recursive function in
  `TokenSyntax` describes.
- The lookup loops are methods proved against recursive functions. So is
  the `Resolver` class.
- Each engine's loop over the reversed tokens is a method. It is proved
  equal to `Splice.Run`, which applies a sequence of per-token "steps"
  back to front. A step is the replacement, what the token reports, and
  whether it throws.
- The main theorem is `Splice.SpliceInterleaves`. When nothing throws,
  splicing back to front gives the original text's gaps interleaved, left
  to right, with the chosen replacements. For each engine, this is
  restated over its own options: `Engine.LenientInterleaves`,
  `P90.LenientInterleaves` and `Compile.DefaultInterleaves`.

Some parts are represented by parameters:

- User functions in token maps: an `Oracle` parameter that maps a
  function's identity and its arguments to the value it returns.
- The error handler (`onError`, `handleError`): a log of `Report(error,
  token)` entries, plus an option saying whether the handler rethrows.

## Model

| member | source | states |
|---|---|---|
| Text.Split | src/engine/Scanner.js:147 | `name.split('.')` gives at least one piece, no piece contains the separator, and joining the pieces gives the name back |
| Text.SplitJoin | src/engine/Scanner.js:147 | splitting a join of separator-free pieces gives exactly those pieces back |
| Text.DecimalText | src/engine/resolve.js:16-22 | `String(n)` of an integer: a minus sign exactly for negatives, then digits whose value is the number's magnitude, with no leading zero (a lone `0` only for zero) |
| Text.CanonicalIndex | src/p90/lookup.js:12-24 | a property key counts as an array index only when it is a canonical decimal numeral, which renders back to the key itself |
| Text.CanonicalIndexOfDigits | src/p90/lookup.js:20 | the rendering of every natural number is read back as that index, so a key selects a list element exactly when it is a canonical numeral |
| Values.IdentifyType | src/engine/resolve.js:40-50 | each type tag corresponds to exactly one kind of value; null and arrays get tags of their own |
| Values.ToText | src/engine/resolve.js:16-22 | `String(v)`: text as it is, integers in decimal (`Text.DecimalText`), booleans as `true`/`false`, arrays joined with `,` with null and undefined elements empty, objects as `[object Object]`, functions as their source text; the suffix rule built on it is `Splice.AppendSuffix` |
| Values.Get | src/p90/lookup.js:20 | `v[segment]` on own data properties: an object's field, an array's element or a string's character at a canonical index, `length` of an array or string, and undefined otherwise; `LayerLookup.OneSegment` ties the path search to it |
| Cursors.RunEnd | src/engine/Scanner.js:18-20 | `readWhile` stops at the end of the maximal run: every character before the end matches, and the character at the end does not |
| Cursors.FirstMatch | src/engine/Scanner.js:129-132 | `seek` stops at the first matching character, or at the end of the text when there is none |
| Cursors.Accept | src/engine/Scanner.js:123-125 | one character is consumed exactly when it matches the class; otherwise the cursor is unchanged |
| Cursors.Expect | src/engine/Scanner.js:37-40 | success exactly when the expected character is next, which is then consumed; otherwise an `Expected` error |
| Cursors.IsEmpty | src/engine/Scanner.js:90 | `isEmpty()`: no character is left after the cursor |
| Cursors.ReadWhile | src/engine/Scanner.js:19 | `readWhile(cls)` returns exactly the text it consumes, and stops at `RunEnd`, the end of the maximal run |
| Cursors.SkipSpaces | src/engine/Scanner.js:26 | `skipSpaces()` moves the cursor to the end of the run of white space |
| Cursors.Seek | src/engine/Scanner.js:130 | `seek(cls)` moves to `FirstMatch`, and reports a find exactly when that is before the end of the text |
| Cursors.Read | src/engine/Scanner.js:135 | `read()` returns the character under the cursor and moves one past it |
| Cursors.Slice | src/engine/Scanner.js:145 | `slice(a, b)` between two bookmarks is the text between them |
| TokenSyntax.NameAt | src/engine/Scanner.js:18-20 | the name is the maximal run of name characters at the cursor |
| TokenSyntax.QuotedAt | src/engine/Scanner.js:83-120 | a quoted argument consumes at least its closing delimiter; the only error is an unterminated string |
| TokenSyntax.QuotedFrom | src/engine/Scanner.js:83-120 | the quoted argument read one character at a time with the escape flag; an argument that is read ends just after a delimiter inside the text |
| TokenSyntax.QuotedRuns | src/engine/Scanner.js:90-117 | the same reading a run of plain characters at a time, as the loop of `_scanQuotedArg` does; `QuotedRunsAgree` proves the two readings equal |
| TokenSyntax.QuotedRunsAgree | src/engine/Scanner.js:90-117 | reading a run at a time agrees with reading one character at a time, on every text, position, flag and accumulated text |
| TokenSyntax.QuotedRoundTrip | src/engine/Scanner.js:83-120 | reading an escaped word followed by the delimiter gives the word back, and stops right after the delimiter |
| TokenSyntax.QuotedUnterminated | src/engine/Scanner.js:83-120 | with no delimiter in the rest of the text, the quoted argument is unterminated |
| TokenSyntax.EscapeOutlivesPlainCharacter | src/engine/Scanner.js:90-117 | the escape flag survives an ordinary character, so in `'\a'` the closing quote is taken literally |
| TokenSyntax.ArgAt | src/engine/Scanner.js:63-81 | an argument that is read consumes at least one character |
| TokenSyntax.ArgQuoted | src/engine/Scanner.js:63-70 | after spaces, a quote character starts a quoted argument delimited by that quote |
| TokenSyntax.ArgBare | src/engine/Scanner.js:71-80 | a bare argument is the maximal run of characters other than `,` and `)`; an empty run is a missing-argument error |
| TokenSyntax.ArgsAt | src/engine/Scanner.js:44-58 | an argument list holds at least one argument and stops where no comma follows |
| TokenSyntax.ArgsUnfold | src/engine/Scanner.js:44-58 | after one argument, a comma continues the list and anything else ends it |
| TokenSyntax.ParamsAt | src/engine/Scanner.js:23-41 | reading the parameters never moves the cursor backwards |
| TokenSyntax.ParamsProbe | src/engine/Scanner.js:23-30 | without a `(` after optional spaces, there are no parameters and the cursor stays at the bookmark |
| TokenSyntax.ParamsOpened | src/engine/Scanner.js:23-41 | with a `(`, the parameters are read from just after it |
| TokenSyntax.ParamsOpen | src/engine/Scanner.js:32-40 | an opened parameter list ends with `)`, and it is empty exactly when `)` is the next non-space character |
| TokenSyntax.ParamsClosing | src/engine/Scanner.js:23-41 | an opened parameter list that is read ends on a `)` |
| TokenSyntax.ParamsEmpty | src/engine/Scanner.js:32-35 | an opened parameter list is empty exactly when `)` is the next non-space character |
| TokenSyntax.SuffixAt | src/engine/Scanner.js:123-125 | the suffix is one white-space character if one follows, else empty |
| TokenSyntax.TokenAt | src/engine/Scanner.js:129-150 | no token exactly when no `$` is left; a token lies inside the text and the scan resumes at its end |
| TokenSyntax.TokenFrom | src/engine/Scanner.js:134-150 | a token starts at its `$` and is laid out as `$`, name, parameters, suffix |
| TokenSyntax.TokenAfter | src/engine/Scanner.js:137-149 | a token is built exactly when its parameters were read, and it carries those arguments |
| TokenSyntax.TokenRaw | src/engine/Scanner.js:142-145 | a token's raw text is the slice of the content between its start and end, and begins with `$` |
| TokenSyntax.TokenShape | src/engine/Scanner.js:129-150 | every token found is laid out as `$`, name, parameters, suffix |
| TokenSyntax.BareDollarPath | src/engine/Scanner.js:137-147 | a `$` not followed by a name character is a token whose path is the single empty segment |
| TokenSyntax.TokensOrdered | src/engine/Scanner.js:154-164 | `scanAll` returns tokens in text order, without overlaps, inside the text |
| TokenSyntax.TokensRaw | src/engine/Scanner.js:154-164 | every token's raw text is its own span of the content |
| TokenSyntax.TokensComplete | src/engine/Scanner.js:154-164 | `scanAll` misses no `$`: every `$` in the text lies inside the span of some token found: its start, its name or one of its arguments |
| TokenSyntax.TokensFrom | src/engine/Scanner.js:154-164 | `scanAll` from a cursor: the tokens `nextToken` yields, in discovery order, or the first scan error; `TokensOrdered`, `TokensRaw`, `TokensComplete` and `TokensNone` state its properties |
| TokenSyntax.Tokens | src/engine/Scanner.js:154-164 | `scanAll(content)`, from the start of the text; `Scanner.ScanAll` is proved to compute it |
| TokenSyntax.TokensNone | src/engine/Scanner.js:154-164 | `scanAll` finds no tokens exactly when the text has no `$`, and a scan error ends the scan with that error |
| Scanner.Scanner.constructor | src/engine/Scanner.js:5-11 | a new scanner reads its content from the start |
| Scanner.Scanner.ScanName | src/engine/Scanner.js:18-20 | `_scanName` returns what `NameAt` describes and moves the cursor past it |
| Scanner.Scanner.ScanParams | src/engine/Scanner.js:23-41 | `_scanParams`, with its look-ahead for `(`, computes `ParamsAt`, errors included |
| Scanner.Scanner.ScanArgs | src/engine/Scanner.js:44-58 | the comma loop of `_scanArgs` computes `ArgsAt` |
| Scanner.Scanner.ScanArg | src/engine/Scanner.js:63-81 | `_scanArg` computes `ArgAt`: a quoted or bare argument, or a missing-argument error |
| Scanner.Scanner.ScanQuotedArg | src/engine/Scanner.js:83-120 | `_scanQuotedArg` computes `QuotedAt` |
| Scanner.ReadQuoted | src/engine/Scanner.js:83-120 | the escape-tracking loop of `_scanQuotedArg` computes `QuotedAt`, including the unterminated-string error |
| Scanner.Scanner.ScanSuffix | src/engine/Scanner.js:123-125 | `_scanSuffix` computes `SuffixAt` |
| Scanner.Scanner.NextToken | src/engine/Scanner.js:129-150 | `nextToken` computes `TokenAt`: the next token, none at the end, or the scan error |
| Scanner.ScanAll | src/engine/Scanner.js:154-164 | the `scanAll` loop returns exactly `Tokens(content)`, so the scanner lemmas above apply to its result |
| ValueResolve.Resolve | src/engine/resolve.js:8-33 | only text-like results; null renders as `''`, and other text-like values as their `String`; objects, undefined and functions returned by functions are errors; a function is called with the token's arguments |
| ValueResolve.InvokeFunction | src/engine/resolve.js:52-67 | a function's result is the oracle's value for its identity and arguments, checked as in `resolve` |
| ValueResolve.CallOutcome | src/engine/resolve.js:52-67 | what a function's result leads to: kept when text-like, refused when it is itself a function, `''` for null, and a type error otherwise |
| LayerLookup.SearchIn | src/p90/lookup.js:12-24 | an empty path gives the map itself; a path into undefined or null gives undefined |
| LayerLookup.LookupFrom | src/p90/lookup.js:1-10 | found exactly when some layer holds the path, and then the value comes from the first such layer |
| LayerLookup.Lookup | src/p90/lookup.js:1-10 | the loop over the token maps computes `LookupFrom` |
| LayerLookup.SearchTokenMap | src/p90/lookup.js:12-24 | the loop over the path segments computes `SearchIn` |
| LayerLookup.SearchConcat | src/p90/lookup.js:12-24 | searching `p + q` is searching `p`, then `q` in the result |
| LayerLookup.OneSegment | src/p90/lookup.js:16-21 | one segment is JavaScript property access on the map |
| LayerLookup.NullMidPath | src/p90/lookup.js:16-21 | a null reached before the path's end makes the lookup undefined instead of throwing |
| LayerLookup.LengthOfList | src/p90/lookup.js:12-24 | `list.length` is found by the p90 lookup but not by `Resolver`, which only descends into plain objects |
| LayerLookup.SecondLayer | src/engine/lookup.test.js:39-44 | a value missing from the first token map is found in a later one |
| Resolver.FindTokenIn | src/resolver/Resolver.js:27-39 | an empty path gives the mapping; a path into anything but a plain object gives undefined |
| Resolver.IsObject | src/resolver/Resolver.js:1-3 | `isObject`: the value's type tag is `object`, that is, an object that is neither null nor an array |
| Resolver.LookupFrom | src/resolver/Resolver.js:16-25 | found exactly when some mapping holds the path, and then from the first such mapping; otherwise a token-not-found error |
| Resolver.StringifyAgrees | src/resolver/Resolver.js:43-102 | `_stringify` and `_invokeFunction` agree with `resolve` and `invokeFunction` of `src/engine/resolve.js` on every value |
| Resolver.Stringify | src/resolver/Resolver.js:43-71 | `_stringify`, case by case; `Resolver.StringifyAgrees` proves it equal to `ValueResolve.Resolve`, whose contract then applies |
| Resolver.InvokeFunction | src/resolver/Resolver.js:88-102 | `_invokeFunction`: a text-like result is kept, a function result refused, anything else stringified; covered by `Resolver.StringifyAgrees` |
| Resolver.ResolvePath | src/resolver/Resolver.js:11-14 | `resolve(tokenPath, args)`: the lookup's not-found error is passed on, and a found value is stringified; `Compile.Replacement` and `Resolver.Resolver.Resolve` are stated over it |
| Resolver.Resolver.constructor | src/resolver/Resolver.js:7-9 | the resolver keeps the mappings it is given |
| Resolver.Resolver.Resolve | src/resolver/Resolver.js:11-14 | `resolve` is the lookup followed by `_stringify` |
| Resolver.Resolver.Lookup | src/resolver/Resolver.js:16-25 | the loop of `_lookup` computes `Resolver.LookupFrom` |
| Resolver.Resolver.FindToken | src/resolver/Resolver.js:27-39 | the loop of `_findToken` computes `FindTokenIn` |
| Splice.JsSlice | src/engine/engine.js:75-79 | `slice(a, b)` clamps the end to the length: the characters from `a` up to `b` or the end of the text, whichever comes first, and empty when `a` is not below both `b` and the length |
| Splice.ReplaceValue | src/engine/engine.js:75-79 | the token's span is replaced by the value and the rest of the text is untouched |
| Splice.AppendSuffix | src/engine/engine.js:81-84 | undefined and null pass through; any other value becomes its text followed by the suffix |
| Splice.Run | src/engine/engine.js:37-56 | the loop over the reversed tokens, given each token's step: the last token is handled first, each step's reports are logged, and a step that throws ends the pass; `Splice.SpliceInterleaves` and `Splice.RunAborts` characterise it |
| Splice.RunAborts | src/engine/engine.js:39-56 | a back-to-front run fails exactly when some step throws, and then with the error of the last such step (the first one met) |
| Splice.SpliceInterleaves | src/engine/engine.js:35-56 | with no step throwing, splicing back to front gives the original gaps interleaved left to right with the replacements |
| Splice.InterleaveIdentity | src/engine/engine.js:35-56 | when no token is replaced, the text is unchanged |
| Splice.Reported | src/engine/engine.js:44-50 | every report made before the run stops reaches the error handler |
| Splice.QuietRun | src/engine/engine.js:44-50 | when no step reports, the handler is never called |
| Splice.WholeRun | src/engine/engine.js:39-56 | a single token spanning the whole text is replaced by its value |
| Splice.Reversed | src/engine/engine.js:37 | `tokens.reverse()` puts the last token first |
| Splice.Turn | src/engine/engine.js:39-56 | one pass of the loop body advances the run by exactly the token's step |
| Engine.GetOptions | src/engine/engine.js:17-30 | a given option wins; the defaults are `ref` `¯\_(ツ)_/¯`, throwing on missing, and a handler that does not rethrow |
| Engine.WrapLayers | src/engine/engine.js:9-11 | an array of token maps is used as it is; anything else becomes a single layer |
| Engine.Replacement | src/engine/engine.js:61-73 | no replacement exactly when the lookup is undefined; an error exactly when the found value fails to resolve; otherwise the resolved value's text followed by the suffix |
| Engine.EngineStep | src/engine/engine.js:42-55 | one token's turn: a found value replaces the token silently; a token not found is reported and, by default, thrown; a resolution error is reported, and is rethrown or followed by the missing-token report; `Engine.LenientStep`, `Engine.StrictStep` and `Engine.ResolveErrorCountsAsMissing` state it |
| Engine.ReplaceAllSpec | src/engine/engine.js:32-59 | `replaceAllTokens`: a scan error is thrown before any token is handled, else the run over the tokens' steps |
| Engine.StringP69Spec | src/engine/engine.js:6-15 | `stringP69`: the options after defaults, the token maps as layers, then `replaceAllTokens` |
| Engine.EngineSteps | src/engine/engine.js:39-56 | one step per token, computed from that token alone |
| Engine.StringP69 | src/engine/engine.js:6-15 | `stringP69` returns exactly `StringP69Spec`: the options, the layers, and then the run |
| Engine.ReplaceToken | src/engine/engine.js:61-73 | `replaceToken` throws the resolution error, splices a found value and flags it as found, or leaves the text as it is and flags it as not found |
| Engine.HandleToken | src/engine/engine.js:40-55 | one loop body: what it reports, whether it throws, and the new text, as the token's step says |
| Engine.ReplaceAllTokens | src/engine/engine.js:32-59 | `replaceAllTokens` returns exactly `ReplaceAllSpec`: scan, then splice back to front |
| Engine.Advance | src/engine/engine.js:40-55 | one pass of the loop body moves the back-to-front run forward by exactly the token's step, or ends it with the thrown error |
| Engine.SpliceAll | src/engine/engine.js:37-56 | the loop over the reversed tokens computes `Run` on the tokens' steps |
| Engine.SpecRun | src/engine/engine.js:32-59 | once the text scans, the engine's outcome is `Run` on its tokens and their steps |
| Engine.Choices | src/engine/engine.js:48-55 | the replacement chosen for each token: the found text, or none |
| Engine.StepChoice | src/engine/engine.js:42-55 | the steps' replacements are exactly the choices |
| Engine.LenientInterleaves | src/engine/engine.js:32-59 | with `throwIfMissing` off and a handler that does not rethrow, the output is the text's gaps interleaved with the found values, and missing tokens stay as written |
| Engine.RunLenient | src/engine/engine.js:39-56 | the same over any ordered tokens |
| Engine.LenientReportsMissing | src/engine/engine.js:48-51 | without throwing, every token not found still has a missing-token report with the handler |
| Engine.LenientStep | src/engine/engine.js:42-55 | a lenient step never throws, and a token not found reports the missing-token error, after the resolution error if there was one |
| Engine.ResolveErrorCountsAsMissing | src/engine/engine.js:42-55 | a value that fails to resolve is reported, and then also counts as missing, unless the handler rethrows |
| Engine.StrictThrowsOnMissing | src/engine/engine.js:48-55 | with the default `throwIfMissing`, the pass throws exactly when some token is not found, with the missing-token error of the last such token |
| Engine.RunStrict | src/engine/engine.js:39-56 | the same over any tokens |
| Engine.StrictStep | src/engine/engine.js:48-55 | a strict step throws exactly when its token is not found, and then with that token's missing-token error |
| Engine.AbortsOnMissing | src/engine/engine.js:39-56 | a run whose steps throw exactly on the missing tokens fails with the last missing token |
| Engine.AllFoundQuiet | src/engine/engine.js:32-59 | when every token is found, the output is the interleaving and the handler is never called |
| Engine.FoundSteps | src/engine/engine.js:42-55 | tokens that are all found neither throw nor reach the handler |
| Engine.RunAllFound | src/engine/engine.js:39-56 | the same over any ordered tokens |
| Engine.NoDollarUnchanged | src/engine/engine.js:6-15 | text without `$` comes back unchanged, with no reports |
| Engine.SuffixAlwaysAppended | src/engine/engine.js:81-84 | after `resolve`, the suffix is always appended, since `resolve` never returns undefined or null |
| Engine.WholeToken | src/engine/engine.js:32-59 | a text that is one found token becomes that token's value |
| P90.GetOptions | src/p90/p90.js:17-23 | a given option wins; the defaults are not throwing and the note `¯\_(ツ)_/¯` |
| P90.P90Step | src/p90/p90.js:33-37 | one token's turn with `handleError`: the replacement when resolution succeeds (none for a token not found), else the error reported and thrown only with `throwOnError`; `P90.LenientStep` and `P90.MissingIsSilent` state it |
| P90.ReplaceAllSpec | src/p90/p90.js:25-41 | `replaceAllTokens`: a scan error is thrown before any token is handled, else the run over the tokens' steps |
| P90.ReplaceAllOf | src/p90/p90.js:6-15 | `replaceAll`: the options after defaults, the token maps as layers, then `replaceAllTokens` |
| P90.P90Steps | src/p90/p90.js:32-38 | one step per token, computed from that token alone |
| P90.ReplaceAll | src/p90/p90.js:6-15 | `replaceAll` returns exactly `ReplaceAllOf`: options, layers, then the run |
| P90.ReplaceToken | src/p90/p90.js:43-54 | an undefined lookup leaves the text as it is; a resolution error is thrown; otherwise the value and suffix are spliced in |
| P90.HandleToken | src/p90/p90.js:33-37 | one loop body with `handleError`: what it reports, whether it throws, and the new text |
| P90.ReplaceAllTokens | src/p90/p90.js:25-41 | `replaceAllTokens` returns exactly `ReplaceAllSpec` |
| P90.Advance | src/p90/p90.js:33-37 | one pass of the loop body moves the back-to-front run forward by exactly the token's step, or ends it with the thrown error |
| P90.SpliceAll | src/p90/p90.js:30-40 | the loop over the reversed tokens computes `Run` on the tokens' steps |
| P90.SpecRun | src/p90/p90.js:25-41 | once the text scans, the outcome is `Run` on its tokens and their steps |
| P90.LenientInterleaves | src/p90/p90.js:25-41 | by default, the output is the gaps interleaved with the found values; missing and failing tokens stay as written |
| P90.RunLenient | src/p90/p90.js:30-40 | the same over any ordered tokens |
| P90.LenientStep | src/p90/p90.js:32-38 | without `throwOnError`, a step never throws, and it replaces exactly what was found |
| P90.MissingIsSilent | src/p90/p90.js:44-48 | a token not found is skipped silently: no replacement, no report, nothing thrown |
| P90.StrictThrowsOnError | src/p90/p90.js:67-77 | with `throwOnError`, the pass throws exactly when some token fails to resolve, with the error of the last such token |
| Compile.CompileOptions | lib/compiler/compile_options.js:5-10 | a given `onError` wins; the default handler does not rethrow |
| Compile.MappingsOf | src/compiler/compile.js:8-12 | a plain object becomes one mapping, an array is spread, a string is spread into its characters, and anything else cannot be spread |
| Compile.Replacement | src/compiler/compile.js:33-35 | the resolver's error, or the resolved value's text followed by the suffix |
| Compile.CompileStep | src/compiler/compile.js:32-38 | one token's turn: the resolved text replaces the token, or the error goes to `onError`, which ends the pass only when it rethrows; `Compile.DefaultStep` states it |
| Compile.ReplaceAllSpec | src/compiler/compile.js:22-42 | `replaceAllTokens`: a scan error is thrown before any token is handled, else the run over the tokens' steps |
| Compile.CompileSpec | src/compiler/compile.js:5-16 | the default export: mappings that cannot be spread throw first, else `replaceAllTokens` with the options after defaults |
| Compile.CompileSteps | src/compiler/compile.js:29-39 | one step per token, computed from that token alone |
| Compile.Compile | src/compiler/compile.js:5-16 | the default export returns exactly `CompileSpec`: options, mappings, resolver, then the run |
| Compile.ReplaceAllTokens | src/compiler/compile.js:22-42 | `replaceAllTokens` returns exactly `ReplaceAllSpec` over the resolver's mappings |
| Compile.HandleToken | src/compiler/compile.js:32-38 | one loop body: what the handler receives, whether it rethrows, and the new text |
| Compile.Advance | src/compiler/compile.js:32-38 | one pass of the loop body moves the back-to-front run forward by exactly the token's step, or ends it with the rethrown error |
| Compile.SpliceAll | src/compiler/compile.js:27-39 | the loop over the reversed tokens computes `Run` on the tokens' steps |
| Compile.Choices | src/compiler/compile.js:32-38 | the replacement chosen for each token: the resolved text, or none |
| Compile.SpecRun | src/compiler/compile.js:22-42 | once the text scans, the outcome is `Run` on its tokens and their steps |
| Compile.DefaultInterleaves | src/compiler/compile.js:22-42 | with a handler that does not rethrow, the output is the gaps interleaved with the resolved values; failing tokens stay as written |
| Compile.RunDefault | src/compiler/compile.js:27-39 | the same over any ordered tokens |
| Compile.DefaultStep | src/compiler/compile.js:32-38 | a step never throws, replaces exactly what resolved, and hands a failure to the handler |
| Compile.ErrorReported | src/compiler/compile.js:36-38 | every failing token's error reaches `onError` with that token |
| Compile.NotFoundReported | src/resolver/Resolver.js:16-25 | a token that no mapping holds reaches `onError` with a token-not-found error |
| Compile.NotIterableFails | src/compiler/compile.js:8-12 | mappings that are neither an object, an array nor a string make the compiler throw before any scanning |
| Compile.WholeToken | src/compiler/compile.js:22-42 | a text that is one resolvable token becomes that token's value |
| Scenarios.GreenTokens | src/engine/engine.test.js:14-21 | `$green` scans to one token spanning the whole text, with path `green`, no arguments and no suffix |
| Scenarios.EngineGreenReplacement | src/engine/engine.test.js:14-21 | `green` resolves to `forestgreen` |
| Scenarios.EngineOneMap | src/engine/engine.js:9-11 | a single token map behaves as a one-layer list |
| Scenarios.EngineSimpleReplacement | src/engine/engine.test.js:14-21 | `$green` becomes `forestgreen`, with nothing reported |
| Scenarios.CompileGreenReplacement | lib/compiler/compile.test.js:17-24 | the compiler resolves `$green` to `forestgreen` |
| Scenarios.CompileSimpleReplacement | lib/compiler/compile.test.js:17-24 | the compiler turns `$green` into `forestgreen`, with nothing reported |

## Left out

- NFC normalisation (`content.normalize('NFC')`) is left out: Dafny has no
  Unicode tables. The model works on the text as given.
- Positions are Dafny character (Unicode scalar) indices. The source mixes
  code-point and UTF-16 indices for `start`, `end` and `raw`, and the model
  does not tell them apart.
- Values.Get: a string's `length` and its indices count Unicode scalars,
  while JavaScript counts UTF-16 code units. For a character outside the
  basic plane, such as an emoji, JavaScript gives `length` 2 and a lone
  surrogate at index 0, and the model gives 1 and the whole character. This
  reaches the p90 path search (`$s.length`, `$s.0`).
- `StringReader` is not part of this model. It is modelled as a cursor
  value, and its white-space class is assumed to be JavaScript's `\s`.
- `src/engine/lookup.js` is not part of this model. `src/engine/engine.js`
  is modelled with the lookup of `src/p90/lookup.js`, which `Engine` and
  `P90` share.
- `src/engine/engine.js` imports the scanner as `../scanner/Scanner.js`,
  and `src/compiler/compile.js` imports it the same way and calls
  `Scanner.scanAll` on the default import. `src/p90/p90.js` imports
  `./Scanner.js`. None of these files is part of this model, and `scanAll`
  of `src/engine/Scanner.js` stands in for all three. That file exports
  `scanAll` by name only, and its default export is the scanner class, which
  has no static `scanAll`. The stand-in therefore assumes that the missing
  `../scanner/Scanner.js` makes `scanAll` reachable from its default export,
  behaving as the named `scanAll` does.
- `src/p90/p90.js` imports `./resolve.js` as well, and that file is not part
  of this model either. `P90` uses `src/engine/resolve.js` (`ValueResolve`)
  in its place.
- `src/compiler/compile_options.js`, which `compile.js` imports, is not
  part of this model. `lib/compiler/compile_options.js`, whose defaults it is
  taken to share, stands in for it.
- User functions are a pure, total oracle. A function that throws, has
  side effects, or depends on JavaScript arity is not modelled.
- Integers are rendered in full decimal at any size. JavaScript switches
  to exponent form from `1e21` on, and stores numbers above 2^53 inexactly;
  the model does neither.
- Values are own data properties only. There are no prototype chains or
  getters, and no floating-point numbers (numbers are integers). Function
  values carry no properties at all, so `$f.length` and `$f.name` are
  undefined here, while in JavaScript they are the arity and the name.
- Error messages are abstracted to error constructors. Their text, and the
  diagnostics the default handlers write (`stderr`, `stdout`,
  `JSON.stringify(tk)`), are left out.
- `onError` is modelled as a log of reports, plus a flag saying whether the
  handler rethrows what it receives. A handler that throws a different
  error, or only sometimes rethrows, is not modelled.
- Options given explicitly as `undefined` count as absent. With JavaScript's
  spread they would override the default.
- `Engine.GetOptions`: `ref` is carried but not used, because it only
  appears in the default handler's diagnostics.
- The unused `tokenFound` variable of `compile.js` has no counterpart.
- Everything outside the scanner, resolution and the three engines is left
  out: file compilation, watchers, the Svelte preprocessor, and
  `spacings.js`.
- `tokens.reverse()` is modelled as a reversed copy of the scanned tokens.
  The scanned array is not shared, so no caller can see the difference.
- The scenarios with several lines or function arguments are not restated
  as concrete lemmas: those in `src/engine/engine.test.js` and in
  `lib/compiler/compile.test.js:26-65`, and quoted arguments such as
  `$f('a,b', "c\"d")`. The general scanner and splice lemmas cover them.
