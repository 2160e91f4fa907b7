/** The scanner itself: a class holding the cursor, advanced step by step and
    rewound to a bookmark where the grammar probes ahead. Every method is
    proved to compute what the matching function of `TokenSyntax` says. */
module Scanner {
  import opened Wrappers
  import opened Text
  import opened Values
  import opened Cursors
  import opened TokenSyntax

  class Scanner {
    var sr: Cursor

    constructor (content: string)
      ensures sr == Cursor(content, 0)
    {
      sr := Cursor(content, 0);
    }

    /** NAME := { alpha-numeric | "_" | "-" | "." | "$" } */
    method ScanName() returns (name: string)
      requires sr.Valid()
      modifies this
      ensures sr.Valid() && NameAt(old(sr)) == Scanned(name, sr)
    {
      var (run, c) := ReadWhile(sr, NameChar);
      name, sr := run, c;
    }

    /** PARAMS := [ "(" ARGS ")" ], probing for the `(` and going back to
        the bookmark when it is not there. */
    method ScanParams(name: string) returns (r: Result<seq<string>, Error>)
      requires sr.Valid()
      modifies this
      ensures sr.Valid() && sr.text == old(sr.text)
      ensures ParamsAt(old(sr), name) == Attach(r, sr)
    {
      var bookmark := sr.pos;
      sr := SkipSpaces(sr);
      var (open, c1) := Accept(sr, Is('('));
      sr := c1;
      if open.None? {
        sr := Cursor(sr.text, bookmark);
        return Ok([]);
      }

      sr := SkipSpaces(sr);
      var (close, c2) := Accept(sr, Is(')'));
      if close.Some? {
        sr := c2;
        return Ok([]);
      }

      var args := ScanArgs(name);
      if args.Err? {
        return Err(args.error);
      }
      var closed := Expect(sr, ')');
      if closed.Err? {
        return Err(closed.error);
      }
      sr := closed.value;
      return Ok(args.value);
    }

    /** ARGS := ARG { "," ARG } */
    method ScanArgs(name: string) returns (r: Result<seq<string>, Error>)
      requires sr.Valid()
      modifies this
      ensures sr.Valid() && sr.text == old(sr.text)
      ensures ArgsAt(old(sr), name) == Attach(r, sr)
    {
      ghost var start := sr;
      var args: seq<string> := [];
      PrependNil(ArgsAt(sr, name));
      while true
        invariant sr.Valid() && sr.text == start.text
        invariant ArgsAt(start, name) == Prepend(args, ArgsAt(sr, name))
        decreases |sr.text| - sr.pos
      {
        ghost var before := sr;
        ghost var done := args;
        var arg := ScanArg(name);
        if arg.Err? {
          return Err(arg.error);
        }
        ArgsUnfold(before, name, arg.value, sr);
        args := args + [arg.value];

        sr := SkipSpaces(sr);
        var (comma, c) := Accept(sr, Is(','));
        if comma.None? {
          break;
        }
        sr := c;
        PrependTwice(done, [arg.value], ArgsAt(sr, name));
      }
      return Ok(args);
    }

    /** ARG := a quoted argument, or a non-empty run of characters other
        than `,` and `)`, after leading spaces. */
    method ScanArg(name: string) returns (r: Result<string, Error>)
      requires sr.Valid()
      modifies this
      ensures sr.Valid() && sr.text == old(sr.text)
      ensures ArgAt(old(sr), name) == Attach(r, sr)
    {
      sr := SkipSpaces(sr);
      var (delim, c1) := Accept(sr, Quote);
      sr := c1;
      if delim.Some? {
        r := ScanQuotedArg(delim.value, name);
      } else {
        var (run, c2) := ReadWhile(sr, NotCommaOrClose);
        sr := c2;
        if run == "" {
          r := Err(MissingArgument(name));
        } else {
          r := Ok(run);
        }
      }
    }

    /** The body of a quoted argument, up to and including the closing
        delimiter, tracking backslash escapes with one flag. */
    method ScanQuotedArg(delim: char, name: string) returns (r: Result<string, Error>)
      requires sr.Valid()
      modifies this
      ensures sr.Valid() && sr.text == old(sr.text)
      ensures QuotedAt(old(sr), delim, name) == Attach(r, sr)
    {
      r, sr := ReadQuoted(sr, delim, name);
    }

    /** SUFFIX := at most one white-space character. */
    method ScanSuffix() returns (suffix: string)
      requires sr.Valid()
      modifies this
      ensures sr.Valid() && SuffixAt(old(sr)) == Scanned(suffix, sr)
    {
      var (ch, c) := Accept(sr, Space);
      sr := c;
      suffix := if ch.Some? then [ch.value] else "";
    }

    /** The next token, or `None` at the end of the text. */
    method NextToken() returns (r: Result<Option<Token>, Error>)
      requires sr.Valid()
      modifies this
      ensures sr.Valid() && sr.text == old(sr.text)
      ensures TokenAt(old(sr)) == Attach(r, sr)
    {
      var (found, c1) := Seek(sr, Is('$'));
      sr := c1;
      if !found {
        return Ok(None);
      }

      var start := sr.pos;
      var (_, c2) := Read(sr);
      sr := c2;

      var name := ScanName();
      var args := ScanParams(name);
      if args.Err? {
        return Err(args.error);
      }
      var suffix := ScanSuffix();
      var end := sr.pos;

      return Ok(Some(Token(start, end, Slice(sr, start, end), suffix, Split(name, '.'), args.value)));
    }
  }

  /** The loop of `_scanQuotedArg` over the scanner's cursor: read a run of
      plain characters, then handle the delimiter or backslash that stopped
      it; returns the argument (or the error) and the cursor after it. */
  method ReadQuoted(start: Cursor, delim: char, name: string) returns (r: Result<string, Error>, c: Cursor)
    requires start.Valid()
    ensures c.Valid() && c.text == start.text
    ensures QuotedAt(start, delim, name) == Attach(r, c)
  {
    c := start;
    var result := "";
    var escaped := false;
    QuotedRunsAgree(c.text, c.pos, delim, escaped, result);

    while !IsEmpty(c)
      invariant c.Valid() && c.text == start.text
      invariant QuotedAt(start, delim, name)
                == QuotedResult(c.text, QuotedRuns(c.text, c.pos, delim, escaped, result), name)
      decreases |c.text| - c.pos
    {
      var (run, c1) := ReadWhile(c, QuotedText(delim));
      result := result + run;

      var (terminator, c2) := Accept(c1, Is(delim));
      c := c2;
      if terminator.Some? && !escaped {
        return Ok(result), c;
      }
      if terminator.Some? && escaped {
        result := result + [terminator.value];
        escaped := false;
        continue;
      }

      var (backSlash, c3) := Accept(c, Is('\\'));
      c := c3;
      if backSlash.Some? && !escaped {
        escaped := true;
        continue;
      }
      if backSlash.Some? && escaped {
        result := result + [backSlash.value];
        escaped := false;
        continue;
      }
    }

    return Err(UnterminatedString(name)), c;
  }

  /** `scanAll`: drain a fresh scanner, collecting the tokens in discovery
      order; a scan error ends the scan and is passed on. */
  method ScanAll(content: string) returns (r: Result<seq<Token>, Error>)
    ensures r == Tokens(content)
  {
    var sc := new Scanner(content);
    var result: seq<Token> := [];
    PrependAllNil(TokensFrom(sc.sr));

    while true
      invariant sc.sr.Valid() && sc.sr.text == content
      invariant Tokens(content) == PrependAll(result, TokensFrom(sc.sr))
      decreases |content| - sc.sr.pos
    {
      ghost var before := sc.sr;
      var tk := sc.NextToken();
      if tk.Err? {
        return Err(tk.error);
      }
      if tk.value.None? {
        assert TokensFrom(before) == Ok([]);
        assert result + [] == result;
        break;
      }
      TokensUnfold(before, tk.value.value, sc.sr);
      PrependAllTwice(result, [tk.value.value], TokensFrom(sc.sr));
      result := result + [tk.value.value];
    }

    return Ok(result);
  }
}
