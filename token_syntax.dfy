/** What the scanner recognises, as functions from a cursor to what is
    scanned and the cursor after it. The `Scanner` class is proved to compute
    exactly these; the lemmas here state what the token grammar promises. */
module TokenSyntax {
  import opened Wrappers
  import opened Text
  import opened Values
  import opened Cursors

  /** One `$...` occurrence: its span `[start, end)` in the scanned text (in
      the same character positions `raw` is sliced with), the text of the
      span, the absorbed trailing white space, the dotted path and the decoded
      arguments. */
  datatype Token = Token(start: nat, end: nat, raw: string, suffix: string,
                         path: seq<string>, args: seq<string>)

  /** A scanned value and the cursor after it. */
  datatype Scanned<+T> = Scanned(value: T, rest: Cursor)

  /** `d` is `c` moved forward over the same text. */
  predicate Advances(c: Cursor, d: Cursor)
  {
    d.text == c.text && c.pos <= d.pos <= |c.text|
  }

  function Attach<T>(r: Result<T, Error>, c: Cursor): Result<Scanned<T>, Error>
  {
    match r
    case Ok(v) => Ok(Scanned(v, c))
    case Err(e) => Err(e)
  }

  function Prepend<T>(xs: seq<T>, r: Result<Scanned<seq<T>>, Error>): Result<Scanned<seq<T>>, Error>
  {
    match r
    case Ok(Scanned(ys, c)) => Ok(Scanned(xs + ys, c))
    case Err(e) => Err(e)
  }

  function PrependAll<T>(xs: seq<T>, r: Result<seq<T>, Error>): Result<seq<T>, Error>
  {
    match r
    case Ok(ys) => Ok(xs + ys)
    case Err(e) => Err(e)
  }

  lemma PrependNil<T>(r: Result<Scanned<seq<T>>, Error>)
    ensures Prepend([], r) == r
  {
    if r.Ok? { assert [] + r.value.value == r.value.value; }
  }

  lemma PrependTwice<T>(xs: seq<T>, ys: seq<T>, r: Result<Scanned<seq<T>>, Error>)
    ensures Prepend(xs, Prepend(ys, r)) == Prepend(xs + ys, r)
  {
    if r.Ok? { assert xs + (ys + r.value.value) == (xs + ys) + r.value.value; }
  }

  lemma PrependAllNil<T>(r: Result<seq<T>, Error>)
    ensures PrependAll([], r) == r
  {
    if r.Ok? { assert [] + r.value == r.value; }
  }

  predicate NoPrefixIn(text: string, from: nat, to: nat)
  {
    forall k :: from <= k < to && k < |text| ==> text[k] != '$'
  }

  /** Token spans that do not overlap, in increasing position, at or after
      `from` and inside a text of length `n`. */
  predicate Ordered(toks: seq<Token>, from: nat, n: nat)
  {
    && (forall k :: 0 <= k < |toks| ==> toks[k].start <= toks[k].end <= n)
    && (forall j, k :: 0 <= j < k < |toks| ==> toks[j].end <= toks[k].start)
    && (|toks| > 0 ==> from <= toks[0].start)
  }

  // ---------------------------------------------------------------- NAME

  /** NAME: the maximal run of name characters. */
  function NameAt(c: Cursor): (r: Scanned<string>)
    requires c.Valid()
    ensures Advances(c, r.rest) && r.value == c.text[c.pos..r.rest.pos]
    ensures forall k :: 0 <= k < |r.value| ==> IsNameChar(r.value[k])
    ensures r.rest.pos < |c.text| ==> !IsNameChar(c.text[r.rest.pos])
  {
    var (name, c1) := ReadWhile(c, NameChar);
    assert forall k :: 0 <= k < |name| ==> name[k] == c.text[c.pos + k];
    Scanned(name, c1)
  }

  // ------------------------------------------------------- quoted arguments

  /** Decoding a quoted argument one character at a time, from `pos` (just
      after the opening delimiter), with the escape flag and the text decoded
      so far: an unescaped delimiter closes the argument; an escaped one is
      kept and clears the flag; a backslash sets the flag, or is kept and
      clears it when the flag is already set; any other character is kept and
      leaves the flag as it is. Running out of text is `None`. */
  function QuotedFrom(text: string, pos: nat, delim: char, escaped: bool, acc: string): (r: Option<(string, nat)>)
    requires pos <= |text|
    ensures r.Some? ==> pos < r.value.1 <= |text| && text[r.value.1 - 1] == delim
    decreases |text| - pos
  {
    if pos == |text| then None
    else
      var ch := text[pos];
      if ch == delim then
        if escaped then QuotedFrom(text, pos + 1, delim, false, acc + [ch])
        else Some((acc, pos + 1))
      else if ch == '\\' then
        if escaped then QuotedFrom(text, pos + 1, delim, false, acc + [ch])
        else QuotedFrom(text, pos + 1, delim, true, acc)
      else QuotedFrom(text, pos + 1, delim, escaped, acc + [ch])
  }

  function QuotedResult(text: string, d: Option<(string, nat)>, name: string): Result<Scanned<string>, Error>
  {
    match d
    case None => Err(UnterminatedString(name))
    case Some((s, p)) => Ok(Scanned(s, Cursor(text, p)))
  }

  /** A quoted argument whose opening delimiter was just consumed. */
  function QuotedAt(c: Cursor, delim: char, name: string): (r: Result<Scanned<string>, Error>)
    requires c.Valid()
    ensures r.Ok? ==> Advances(c, r.value.rest) && c.pos < r.value.rest.pos
    ensures r.Err? ==> r.error == UnterminatedString(name)
  {
    QuotedResult(c.text, QuotedFrom(c.text, c.pos, delim, false, ""), name)
  }

  /** A run of characters that are neither the delimiter nor a backslash is
      decoded as itself, with the escape flag unchanged. */
  lemma {:induction false} QuotedRun(text: string, pos: nat, e: nat, delim: char, escaped: bool, acc: string)
    requires pos <= e <= |text|
    requires forall k :: pos <= k < e ==> text[k] != delim && text[k] != '\\'
    ensures QuotedFrom(text, pos, delim, escaped, acc) == QuotedFrom(text, e, delim, escaped, acc + text[pos..e])
    decreases e - pos
  {
    if pos < e {
      QuotedRun(text, pos + 1, e, delim, escaped, acc + [text[pos]]);
      assert acc + [text[pos]] + text[pos + 1..e] == acc + text[pos..e];
    } else {
      assert acc + text[pos..e] == acc;
    }
  }

  /** The same decoding, a run at a time as the scanner's loop does it: the
      maximal run of characters that are neither the delimiter nor a
      backslash is kept, and then the character that stopped the run (if
      any) is handled as above. */
  function QuotedRuns(text: string, pos: nat, delim: char, escaped: bool, acc: string): Option<(string, nat)>
    requires pos <= |text|
    decreases |text| - pos
  {
    var e := RunEnd(text, pos, QuotedText(delim));
    var kept := acc + text[pos..e];
    if e == |text| then None
    else if text[e] == delim then
      if escaped then QuotedRuns(text, e + 1, delim, false, kept + [delim])
      else Some((kept, e + 1))
    else if escaped then QuotedRuns(text, e + 1, delim, false, kept + ['\\'])
    else QuotedRuns(text, e + 1, delim, true, kept)
  }

  /** Decoding a run at a time agrees with decoding a character at a time. */
  lemma {:induction false} QuotedRunsAgree(text: string, pos: nat, delim: char, escaped: bool, acc: string)
    requires pos <= |text|
    ensures QuotedRuns(text, pos, delim, escaped, acc) == QuotedFrom(text, pos, delim, escaped, acc)
    decreases |text| - pos
  {
    var e := RunEnd(text, pos, QuotedText(delim));
    var kept := acc + text[pos..e];
    QuotedRun(text, pos, e, delim, escaped, acc);
    if e < |text| {
      if text[e] == delim {
        if escaped { QuotedRunsAgree(text, e + 1, delim, false, kept + [delim]); }
      } else if escaped {
        QuotedRunsAgree(text, e + 1, delim, false, kept + ['\\']);
      } else {
        QuotedRunsAgree(text, e + 1, delim, true, kept);
      }
    }
  }

  /** How a quoted argument is written: the delimiter and the backslash are
      preceded by a backslash, every other character stands for itself. */
  function Escape(w: string, delim: char): (q: string)
    ensures |q| >= |w|
  {
    if |w| == 0 then ""
    else (if w[0] == delim || w[0] == '\\' then ['\\', w[0]] else [w[0]]) + Escape(w[1..], delim)
  }

  /** Decoding undoes escaping: any string, escaped and followed by the
      delimiter, decodes back to itself, and the argument ends just after
      that delimiter whatever follows. */
  lemma {:induction false} QuotedRoundTrip(pre: string, w: string, delim: char, rest: string, acc: string)
    requires delim != '\\'
    ensures var text := pre + Escape(w, delim) + [delim] + rest;
            QuotedFrom(text, |pre|, delim, false, acc) == Some((acc + w, |pre| + |Escape(w, delim)| + 1))
    decreases |w|
  {
    var text := pre + Escape(w, delim) + [delim] + rest;
    if |w| == 0 {
      assert Escape(w, delim) == "";
      assert text == pre + [delim] + rest;
      assert text[|pre|] == delim;
      assert acc + w == acc;
    } else {
      var head := if w[0] == delim || w[0] == '\\' then ['\\', w[0]] else [w[0]];
      var pre' := pre + head;
      assert text == pre' + Escape(w[1..], delim) + [delim] + rest;
      QuotedRoundTrip(pre', w[1..], delim, rest, acc + [w[0]]);
      assert acc + [w[0]] + w[1..] == acc + w;
      if |head| == 2 {
        assert text[|pre|] == '\\' && text[|pre| + 1] == w[0];
      } else {
        assert text[|pre|] == w[0];
      }
    }
  }

  /** A quoted argument with no delimiter anywhere after it is unterminated. */
  lemma {:induction false} QuotedUnterminated(text: string, pos: nat, delim: char, escaped: bool, acc: string)
    requires pos <= |text|
    requires forall k :: pos <= k < |text| ==> text[k] != delim
    ensures QuotedFrom(text, pos, delim, escaped, acc) == None
    decreases |text| - pos
  {
    if pos < |text| {
      var ch := text[pos];
      var acc' := if ch == '\\' && !escaped then acc else acc + [ch];
      var escaped' := if ch == '\\' then !escaped else escaped;
      QuotedUnterminated(text, pos + 1, delim, escaped', acc');
    }
  }

  /** The escape flag is cleared only by a delimiter or a backslash: after
      `\a`, the quote that would close `'\a'` is taken as a literal, so the
      argument runs on and here never ends. */
  lemma EscapeOutlivesPlainCharacter()
    ensures QuotedFrom("\\a'", 0, '\'', false, "") == None
    ensures QuotedFrom("\\a''", 0, '\'', false, "") == Some(("a'", 4))
  {
    var t := "\\a''";
    assert |t| == 4 && t[0] == '\\' && t[1] == 'a' && t[2] == '\'' && t[3] == '\'';
    assert "" + ['a'] == "a" && "a" + ['\''] == "a'";
    assert QuotedFrom(t, 3, '\'', false, "a'") == Some(("a'", 4));
    assert QuotedFrom(t, 2, '\'', true, "a") == QuotedFrom(t, 3, '\'', false, "a'");
    assert QuotedFrom(t, 1, '\'', true, "") == QuotedFrom(t, 2, '\'', true, "a");
    assert QuotedFrom(t, 0, '\'', false, "") == QuotedFrom(t, 1, '\'', true, "");
    var u := "\\a'";
    assert |u| == 3 && u[0] == '\\' && u[1] == 'a' && u[2] == '\'';
    assert QuotedFrom(u, 2, '\'', true, "a") == QuotedFrom(u, 3, '\'', false, "a'");
    assert QuotedFrom(u, 1, '\'', true, "") == QuotedFrom(u, 2, '\'', true, "a");
  }

  // ------------------------------------------------------------ arguments

  /** The first character after the skipped spaces is not a quote. */
  predicate BareAt(c: Cursor)
    requires c.Valid()
  {
    var s := SkipSpaces(c).pos;
    !(s < |c.text| && (c.text[s] == '"' || c.text[s] == '\''))
  }

  /** ARG: after spaces, a quoted argument or else a non-empty bare one. */
  function ArgAt(c: Cursor, name: string): (r: Result<Scanned<string>, Error>)
    requires c.Valid()
    ensures r.Ok? ==> Advances(c, r.value.rest) && c.pos < r.value.rest.pos
  {
    var c1 := SkipSpaces(c);
    var (delim, c2) := Accept(c1, Quote);
    if delim.Some? then QuotedAt(c2, delim.value, name)
    else
      var (run, c3) := ReadWhile(c1, NotCommaOrClose);
      if run == "" then Err(MissingArgument(name)) else Ok(Scanned(run, c3))
  }

  /** A quote after the spaces starts a quoted argument. */
  lemma ArgQuoted(c: Cursor, name: string)
    requires c.Valid() && !BareAt(c)
    ensures var s := SkipSpaces(c).pos;
            ArgAt(c, name) == QuotedAt(Cursor(c.text, s + 1), c.text[s], name)
  {
  }

  /** A bare argument is the maximal run of characters other than `,` and
      `)` after the spaces, and it is an error exactly when that run is
      empty. */
  lemma ArgBare(c: Cursor, name: string)
    requires c.Valid() && BareAt(c)
    ensures var r := ArgAt(c, name);
            var s := SkipSpaces(c).pos;
            && (r.Err? <==> s == |c.text| || c.text[s] == ',' || c.text[s] == ')')
            && (r.Err? ==> r.error == MissingArgument(name))
            && (r.Ok? ==>
                  && s <= r.value.rest.pos
                  && r.value.value == c.text[s..r.value.rest.pos]
                  && (forall k :: s <= k < r.value.rest.pos ==> c.text[k] != ',' && c.text[k] != ')')
                  && (r.value.rest.pos < |c.text| ==>
                        c.text[r.value.rest.pos] == ',' || c.text[r.value.rest.pos] == ')'))
  {
  }

  /** ARGS: one or more arguments separated by commas (spaces allowed before
      each comma). */
  function ArgsAt(c: Cursor, name: string): (r: Result<Scanned<seq<string>>, Error>)
    requires c.Valid()
    ensures r.Ok? ==> Advances(c, r.value.rest) && c.pos < r.value.rest.pos && |r.value.value| >= 1
    ensures r.Ok? ==> r.value.rest.pos == |c.text| || c.text[r.value.rest.pos] != ','
    decreases |c.text| - c.pos
  {
    match ArgAt(c, name)
    case Err(e) => Err(e)
    case Ok(Scanned(a, c1)) =>
      var c2 := SkipSpaces(c1);
      var (comma, c3) := Accept(c2, Is(','));
      if comma.None? then Ok(Scanned([a], c2))
      else Prepend([a], ArgsAt(c3, name))
  }

  /** One more argument: it is followed by a comma and further arguments, or
      it is the last one. */
  lemma ArgsUnfold(c: Cursor, name: string, a: string, c1: Cursor)
    requires c.Valid() && ArgAt(c, name) == Ok(Scanned(a, c1))
    ensures c1.Valid()
    ensures var c2 := SkipSpaces(c1);
            if c2.pos < |c2.text| && c2.text[c2.pos] == ',' then
              ArgsAt(c, name) == Prepend([a], ArgsAt(Cursor(c2.text, c2.pos + 1), name))
            else ArgsAt(c, name) == Ok(Scanned([a], c2))
  {
    var c2 := SkipSpaces(c1);
    var (comma, c3) := Accept(c2, Is(','));
    assert ArgsAt(c, name) == if comma.None? then Ok(Scanned([a], c2)) else Prepend([a], ArgsAt(c3, name));
    if comma.Some? {
      assert c3 == Cursor(c2.text, c2.pos + 1);
    }
  }

  /** The next character after the skipped spaces is `x`. */
  predicate NextIs(c: Cursor, x: char)
    requires c.Valid()
  {
    var s := SkipSpaces(c).pos;
    s < |c.text| && c.text[s] == x
  }

  /** PARAMS: optional; see the lemmas below for what it promises. */
  function ParamsAt(c: Cursor, name: string): (r: Result<Scanned<seq<string>>, Error>)
    requires c.Valid()
    ensures r.Ok? ==> Advances(c, r.value.rest)
  {
    var c1 := SkipSpaces(c);
    var (open, c2) := Accept(c1, Is('('));
    if open.None? then Ok(Scanned([], c))
    else ParamsOpen(c2, name)
  }

  /** What follows a consumed `(`: a `)` after spaces, or arguments and then
      a `)`. */
  function ParamsOpen(c: Cursor, name: string): (r: Result<Scanned<seq<string>>, Error>)
    requires c.Valid()
    ensures r.Ok? ==> Advances(c, r.value.rest) && c.pos < r.value.rest.pos
    ensures r.Ok? ==> c.text[r.value.rest.pos - 1] == ')'
    ensures (r.Ok? && r.value.value == []) <==> NextIs(c, ')')
  {
    var c3 := SkipSpaces(c);
    var (close, c4) := Accept(c3, Is(')'));
    if close.Some? then Ok(Scanned([], c4))
    else ClosedArgs(c3, ArgsAt(c3, name))
  }

  /** The arguments scanned from `c`, which must be followed by `)`. */
  function ClosedArgs(c: Cursor, r: Result<Scanned<seq<string>>, Error>): (q: Result<Scanned<seq<string>>, Error>)
    requires r.Ok? ==> Advances(c, r.value.rest) && |r.value.value| >= 1
    ensures q.Ok? ==> r.Ok? && q.value.value == r.value.value && |q.value.value| >= 1
    ensures q.Ok? ==> Advances(c, q.value.rest) && c.pos < q.value.rest.pos && c.text[q.value.rest.pos - 1] == ')'
  {
    match r
    case Err(e) => Err(e)
    case Ok(Scanned(args, c5)) =>
      match Expect(c5, ')')
      case Err(e) => Err(e)
      case Ok(c6) => Ok(Scanned(args, c6))
  }

  /** Without a `(` after the spaces, nothing is consumed: the cursor is
      back where the probe started and there are no arguments. */
  lemma ParamsProbe(c: Cursor, name: string)
    requires c.Valid() && !NextIs(c, '(')
    ensures ParamsAt(c, name) == Ok(Scanned([], c))
  {
  }

  /** With a `(` after the spaces, it is consumed and what follows it is
      scanned. */
  lemma ParamsOpened(c: Cursor, name: string)
    requires c.Valid() && NextIs(c, '(')
    ensures ParamsAt(c, name) == ParamsOpen(Cursor(c.text, SkipSpaces(c).pos + 1), name)
  {
    var c1 := SkipSpaces(c);
    var (open, c2) := Accept(c1, Is('('));
    assert open.Some? && c2 == Cursor(c.text, c1.pos + 1);
  }

  /** With a `(`, a successful parse ends just after a `)`. */
  lemma ParamsClosing(c: Cursor, name: string)
    requires c.Valid() && NextIs(c, '(')
    ensures var r := ParamsAt(c, name);
            r.Ok? ==> c.pos < r.value.rest.pos && c.text[r.value.rest.pos - 1] == ')'
  {
    ParamsOpened(c, name);
  }

  /** With a `(`, there are no arguments exactly when only spaces stand
      between it and a `)`. */
  lemma ParamsEmpty(c: Cursor, name: string)
    requires c.Valid() && NextIs(c, '(')
    ensures var r := ParamsAt(c, name);
            var open := Cursor(c.text, SkipSpaces(c).pos + 1);
            (r.Ok? && r.value.value == []) <==> NextIs(open, ')')
  {
    ParamsOpened(c, name);
  }

  // --------------------------------------------------------------- SUFFIX

  /** SUFFIX: at most one white-space character. */
  function SuffixAt(c: Cursor): (r: Scanned<string>)
    requires c.Valid()
    ensures Advances(c, r.rest) && r.value == c.text[c.pos..r.rest.pos] && |r.value| <= 1
    ensures |r.value| == 1 ==> IsSpace(r.value[0])
    ensures r.value == "" ==> c.pos == |c.text| || !IsSpace(c.text[c.pos])
  {
    var (ch, c1) := Accept(c, Space);
    Scanned(if ch.Some? then [ch.value] else "", c1)
  }

  // ---------------------------------------------------------------- TOKEN

  /** Where `tk` lies when it was scanned from `c`, leaving `rest`. */
  predicate TokenPlaced(c: Cursor, tk: Token, rest: Cursor)
  {
    && c.pos <= tk.start < tk.end <= |c.text|
    && rest == Cursor(c.text, tk.end)
    && NoPrefixIn(c.text, c.pos, tk.start)
    && tk.raw == c.text[tk.start..tk.end] && tk.raw[0] == '$'
    && |tk.suffix| <= 1 && tk.suffix == c.text[tk.end - |tk.suffix|..tk.end]
    && (|tk.suffix| == 1 ==> IsSpace(tk.suffix[0]))
    && tk.start + 1 <= RunEnd(c.text, tk.start + 1, NameChar) <= tk.end
    && Join(tk.path, '.') == c.text[tk.start + 1..RunEnd(c.text, tk.start + 1, NameChar)]
    && |tk.path| >= 1 && (forall k :: 0 <= k < |tk.path| ==> '.' !in tk.path[k])
  }

  /** `nextToken`: the next token at or after the cursor, `None` exactly when
      no `$` is left; a scan error is reported only when a `$` was found. */
  function TokenAt(c: Cursor): (r: Result<Scanned<Option<Token>>, Error>)
    requires c.Valid()
    ensures (r.Ok? && r.value.value.None?) <==> NoPrefixIn(c.text, c.pos, |c.text|)
    ensures r.Ok? && r.value.value.Some? ==>
              var tk := r.value.value.value;
              c.pos <= tk.start < tk.end <= |c.text| && r.value.rest == Cursor(c.text, tk.end)
  {
    var (found, c1) := Seek(c, Is('$'));
    if !found then Ok(Scanned(None, c1))
    else
      match TokenFrom(c1)
      case Err(e) => Err(e)
      case Ok(Scanned(tk, c5)) => Ok(Scanned(Some(tk), c5))
  }

  /** The token whose `$` is at the cursor. */
  function TokenFrom(c1: Cursor): (r: Result<Scanned<Token>, Error>)
    requires c1.pos < |c1.text| && c1.text[c1.pos] == '$'
    ensures r.Ok? ==> c1.pos == r.value.value.start < r.value.value.end <= |c1.text|
    ensures r.Ok? ==> TokenPlaced(c1, r.value.value, r.value.rest)
  {
    var (_, c2) := Read(c1);
    var Scanned(name, c3) := NameAt(c2);
    TokenAfter(c1, name, c3, ParamsAt(c3, name))
  }

  /** The token that starts at the `$` under `c1`, given its name (which ends
      at `c3`) and the result of scanning its parameters. */
  function TokenAfter(c1: Cursor, name: string, c3: Cursor, p: Result<Scanned<seq<string>>, Error>)
    : (r: Result<Scanned<Token>, Error>)
    requires c1.pos < |c1.text| && c1.text[c1.pos] == '$'
    requires c3 == Cursor(c1.text, RunEnd(c1.text, c1.pos + 1, NameChar)) && name == c1.text[c1.pos + 1..c3.pos]
    requires p.Ok? ==> Advances(c3, p.value.rest)
    ensures r.Ok? <==> p.Ok?
    ensures r.Ok? ==> TokenPlaced(c1, r.value.value, r.value.rest) && r.value.value.args == p.value.value
  {
    match p
    case Err(e) => Err(e)
    case Ok(Scanned(args, c4)) =>
      var Scanned(suffix, c5) := SuffixAt(c4);
      PlacedParts(c1.text, c1.pos, name, c3.pos, c4.pos, c5.pos, suffix, args);
      Ok(Scanned(Token(c1.pos, c5.pos, Slice(c5, c1.pos, c5.pos), suffix, Split(name, '.'), args), c5))
  }

  /** A scanned token's raw text is its span and begins with `$`. */
  lemma TokenRaw(c: Cursor)
    requires c.Valid()
    ensures var r := TokenAt(c);
            r.Ok? && r.value.value.Some? ==>
              var tk := r.value.value.value;
              tk.raw == c.text[tk.start..tk.end] && tk.raw[0] == '$'
  {
    var (found, c1) := Seek(c, Is('$'));
    if found && TokenFrom(c1).Ok? {
      assert c.text[c1.pos] == '$';
    }
  }

  /** A scanned token starts at the first `$` after the cursor, its raw text
      is its span and begins with `$`, its suffix is the span's last character
      when white space was absorbed, and its path joined with `.` is the name
      right after the `$`, split at every `.`. */
  lemma TokenShape(c: Cursor)
    requires c.Valid()
    ensures var r := TokenAt(c);
            r.Ok? && r.value.value.Some? ==> TokenPlaced(c, r.value.value.value, r.value.rest)
  {
    var (found, c1) := Seek(c, Is('$'));
  }

  /** The placement facts of a token assembled from its parts. */
  lemma PlacedParts(text: string, start: nat, name: string, nameEnd: nat, paramsEnd: nat, end: nat,
                    suffix: string, args: seq<string>)
    requires start < |text| && text[start] == '$'
    requires nameEnd == RunEnd(text, start + 1, NameChar) && name == text[start + 1..nameEnd]
    requires nameEnd <= paramsEnd <= end <= |text|
    requires suffix == text[paramsEnd..end] && |suffix| <= 1 && (|suffix| == 1 ==> IsSpace(suffix[0]))
    ensures TokenPlaced(Cursor(text, start), Token(start, end, text[start..end], suffix, Split(name, '.'), args),
                        Cursor(text, end))
  {
    var tk := Token(start, end, text[start..end], suffix, Split(name, '.'), args);
    assert tk.raw[0] == '$';
    assert tk.suffix == text[tk.end - |tk.suffix|..tk.end];
  }

  /** A `$` not followed by a name character has the path `[""]`. */
  lemma BareDollarPath(c: Cursor)
    requires c.Valid()
    ensures var r := TokenAt(c);
            r.Ok? && r.value.value.Some? ==>
              var tk := r.value.value.value;
              (tk.start + 1 == |c.text| || !IsNameChar(c.text[tk.start + 1])) ==> tk.path == [""]
  {
    TokenShape(c);
    var r := TokenAt(c);
    if r.Ok? && r.value.value.Some? {
      var tk := r.value.value.value;
      if tk.start + 1 == |c.text| || !IsNameChar(c.text[tk.start + 1]) {
        JoinEmpty(tk.path, '.');
      }
    }
  }

  lemma JoinEmpty(parts: seq<string>, sep: char)
    requires |parts| >= 1 && Join(parts, sep) == ""
    ensures parts == [""]
  {
  }

  /** `scanAll` from a cursor: every token in discovery order, or the first
      scan error. */
  function TokensFrom(c: Cursor): (r: Result<seq<Token>, Error>)
    requires c.Valid()
    decreases |c.text| - c.pos
  {
    match TokenAt(c)
    case Err(e) => Err(e)
    case Ok(Scanned(None, _)) => Ok([])
    case Ok(Scanned(Some(tk), c1)) =>
      match TokensFrom(c1)
      case Err(e) => Err(e)
      case Ok(ts) => Ok([tk] + ts)
  }

  lemma TokensUnfold(c: Cursor, tk: Token, c1: Cursor)
    requires c.Valid() && TokenAt(c) == Ok(Scanned(Some(tk), c1))
    ensures c1.Valid() && TokensFrom(c) == PrependAll([tk], TokensFrom(c1))
  {
  }

  lemma PrependAllTwice<T>(xs: seq<T>, ys: seq<T>, r: Result<seq<T>, Error>)
    ensures PrependAll(xs, PrependAll(ys, r)) == PrependAll(xs + ys, r)
  {
    if r.Ok? { assert xs + (ys + r.value) == (xs + ys) + r.value; }
  }

  /** The tokens come in discovery order and do not overlap. */
  lemma {:induction false} TokensOrdered(c: Cursor)
    requires c.Valid()
    ensures var r := TokensFrom(c);
            r.Ok? ==> Ordered(r.value, c.pos, |c.text|)
    decreases |c.text| - c.pos
  {
    var t := TokenAt(c);
    if t.Ok? && t.value.value.Some? {
      var tk := t.value.value.value;
      var c1 := t.value.rest;
      TokensUnfold(c, tk, c1);
      TokensOrdered(c1);
      var r := TokensFrom(c1);
      if r.Ok? {
        OrderedCons(tk, r.value, c.pos, |c.text|);
      }
    }
  }

  lemma OrderedCons(tk: Token, ts: seq<Token>, from: nat, n: nat)
    requires from <= tk.start <= tk.end <= n && Ordered(ts, tk.end, n)
    ensures Ordered([tk] + ts, from, n)
  {
    var all := [tk] + ts;
    assert forall k :: 1 <= k < |all| ==> all[k] == ts[k - 1];
  }

  /** Each token's raw text is its span of `text` and begins with `$`. */
  predicate RawSpans(toks: seq<Token>, text: string)
  {
    forall k :: 0 <= k < |toks| ==>
      toks[k].start < toks[k].end <= |text| &&
      toks[k].raw == text[toks[k].start..toks[k].end] && toks[k].raw[0] == '$'
  }

  /** Every token's raw text is its span of the scanned text and begins with
      `$`. */
  lemma {:induction false} TokensRaw(c: Cursor)
    requires c.Valid()
    ensures TokensFrom(c).Ok? ==> RawSpans(TokensFrom(c).value, c.text)
    decreases |c.text| - c.pos
  {
    var t := TokenAt(c);
    if t.Ok? && t.value.value.Some? {
      TokenRaw(c);
      var tk := t.value.value.value;
      var c1 := t.value.rest;
      TokensRaw(c1);
      var r := TokensFrom(c1);
      if r.Ok? {
        assert TokensFrom(c) == Ok([tk] + r.value);
        RawSpansCons(tk, r.value, c.text);
      }
    }
  }

  lemma RawSpansCons(tk: Token, ts: seq<Token>, text: string)
    requires RawSpans(ts, text)
    requires tk.start < tk.end <= |text| && tk.raw == text[tk.start..tk.end] && tk.raw[0] == '$'
    ensures RawSpans([tk] + ts, text)
  {
    var all := [tk] + ts;
    forall k | 0 <= k < |all|
      ensures all[k].start < all[k].end <= |text| &&
              all[k].raw == text[all[k].start..all[k].end] && all[k].raw[0] == '$'
    {
      if k > 0 { assert all[k] == ts[k - 1]; }
    }
  }

  /** There are no tokens exactly when no `$` is left; scanning stops at the
      first scan error. */
  lemma TokensNone(c: Cursor)
    requires c.Valid()
    ensures var r := TokensFrom(c);
            (r.Ok? && r.value == []) <==> NoPrefixIn(c.text, c.pos, |c.text|)
    ensures TokenAt(c).Err? ==> TokensFrom(c) == Err(TokenAt(c).error)
  {
  }

  /** Some token's span contains position `i`. */
  predicate Covers(toks: seq<Token>, i: nat)
  {
    exists k :: 0 <= k < |toks| && toks[k].start <= i < toks[k].end
  }

  /** No `$` is missed: every `$` at or after the cursor lies inside the span
      of a token found: its start, its name (`$` is a name character) or one
      of its arguments. */
  lemma {:induction false} TokensComplete(c: Cursor)
    requires c.Valid()
    ensures TokensFrom(c).Ok? ==>
              forall i :: c.pos <= i < |c.text| && c.text[i] == '$' ==> Covers(TokensFrom(c).value, i)
    decreases |c.text| - c.pos
  {
    var t := TokenAt(c);
    if t.Ok? && t.value.value.Some? {
      var tk := t.value.value.value;
      var c1 := t.value.rest;
      TokenShape(c);
      assert NoPrefixIn(c.text, c.pos, tk.start) && c1 == Cursor(c.text, tk.end);
      TokensUnfold(c, tk, c1);
      TokensComplete(c1);
      if TokensFrom(c1).Ok? {
        CoversCons(tk, TokensFrom(c1).value, c.text, c.pos);
      }
    }
  }

  /** A token preceded by no `$`, followed by tokens that cover every later
      `$`, covers with them every `$` from `from` on. */
  lemma CoversCons(tk: Token, ts: seq<Token>, text: string, from: nat)
    requires from <= tk.start && NoPrefixIn(text, from, tk.start)
    requires forall i :: tk.end <= i < |text| && text[i] == '$' ==> Covers(ts, i)
    ensures forall i :: from <= i < |text| && text[i] == '$' ==> Covers([tk] + ts, i)
  {
    var all := [tk] + ts;
    forall i | from <= i < |text| && text[i] == '$'
      ensures Covers(all, i)
    {
      assert tk.start <= i;
      if i < tk.end {
        assert all[0] == tk;
      } else {
        var k :| 0 <= k < |ts| && ts[k].start <= i < ts[k].end;
        assert all[k + 1] == ts[k];
      }
    }
  }

  /** `scanAll(content)`. */
  function Tokens(text: string): Result<seq<Token>, Error>
  {
    TokensFrom(Cursor(text, 0))
  }
}
