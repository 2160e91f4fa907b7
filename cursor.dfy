/** The scanner's read position over an immutable text (the role of
    `StringReader`). A cursor is a value: saving a bookmark is keeping a copy
    of the position, and going back to it is building the cursor again. */
module Cursors {
  import opened Wrappers
  import opened Values

  /** The JavaScript `\s` class: Unicode white space and line terminators. */
  predicate IsSpace(c: char)
  {
    c == ' ' || c == '\t' || c == '\n' || c == '\U{000B}' || c == '\U{000C}' || c == '\r'
    || c == '\U{00A0}' || c == '\U{1680}' || ('\U{2000}' <= c <= '\U{200A}')
    || c == '\U{2028}' || c == '\U{2029}' || c == '\U{202F}' || c == '\U{205F}'
    || c == '\U{3000}' || c == '\U{FEFF}'
  }

  /** `[a-zA-Z0-9_\-\.\$]`, the characters of a token name. */
  predicate IsNameChar(c: char)
  {
    ('a' <= c <= 'z') || ('A' <= c <= 'Z') || ('0' <= c <= '9')
    || c == '_' || c == '-' || c == '.' || c == '$'
  }

  /** The character classes (regular expressions) the scanner reads with. */
  datatype CharClass =
    | NameChar                  // [a-zA-Z0-9_\-\.\$]
    | Space                     // \s
    | NotCommaOrClose           // [^,)]
    | QuotedText(delim: char)   // [^\\<delim>]
    | Quote                     // ["']
    | Is(c: char)               // one literal character

  predicate Matches(cls: CharClass, c: char)
  {
    match cls
    case NameChar => IsNameChar(c)
    case Space => IsSpace(c)
    case NotCommaOrClose => c != ',' && c != ')'
    case QuotedText(d) => c != '\\' && c != d
    case Quote => c == '"' || c == '\''
    case Is(x) => c == x
  }

  datatype Cursor = Cursor(text: string, pos: nat)
  {
    predicate Valid() { pos <= |text| }
  }

  /** The end of the maximal run of `cls` characters starting at `pos`. */
  function RunEnd(text: string, pos: nat, cls: CharClass): (e: nat)
    requires pos <= |text|
    ensures pos <= e <= |text|
    ensures forall k :: pos <= k < e ==> Matches(cls, text[k])
    ensures e < |text| ==> !Matches(cls, text[e])
    decreases |text| - pos
  {
    if pos == |text| || !Matches(cls, text[pos]) then pos
    else RunEnd(text, pos + 1, cls)
  }

  /** The first position at or after `pos` holding a `cls` character, or the
      end of the text. */
  function FirstMatch(text: string, pos: nat, cls: CharClass): (e: nat)
    requires pos <= |text|
    ensures pos <= e <= |text|
    ensures forall k :: pos <= k < e ==> !Matches(cls, text[k])
    ensures e < |text| ==> Matches(cls, text[e])
    decreases |text| - pos
  {
    if pos == |text| || Matches(cls, text[pos]) then pos
    else FirstMatch(text, pos + 1, cls)
  }

  predicate IsEmpty(c: Cursor)
  {
    c.pos >= |c.text|
  }

  /** `readWhile(cls)`: consume and return the maximal run of `cls`. */
  function ReadWhile(c: Cursor, cls: CharClass): (r: (string, Cursor))
    requires c.Valid()
    ensures r.1.Valid() && r.1.text == c.text && r.1.pos == c.pos + |r.0|
    ensures r.0 == c.text[c.pos..r.1.pos]
    ensures r.1.pos == RunEnd(c.text, c.pos, cls)
  {
    var e := RunEnd(c.text, c.pos, cls);
    (c.text[c.pos..e], c.(pos := e))
  }

  /** `accept(cls)`: consume and return one `cls` character, or nothing. */
  function Accept(c: Cursor, cls: CharClass): (r: (Option<char>, Cursor))
    requires c.Valid()
    ensures r.0.Some? <==> c.pos < |c.text| && Matches(cls, c.text[c.pos])
    ensures r.0.Some? ==> r.0.value == c.text[c.pos] && r.1 == c.(pos := c.pos + 1)
    ensures r.0.None? ==> r.1 == c
  {
    if c.pos < |c.text| && Matches(cls, c.text[c.pos]) then (Some(c.text[c.pos]), c.(pos := c.pos + 1))
    else (None, c)
  }

  /** `expect(/x/)`: like `accept`, but a missing `x` is an error. */
  function Expect(c: Cursor, x: char): (r: Result<Cursor, Error>)
    requires c.Valid()
    ensures r.Ok? <==> c.pos < |c.text| && c.text[c.pos] == x
    ensures r.Ok? ==> r.value == c.(pos := c.pos + 1)
    ensures r.Err? ==> r.error == Expected(x)
  {
    var (ch, c1) := Accept(c, Is(x));
    if ch.Some? then Ok(c1) else Err(Expected(x))
  }

  /** `skipSpaces()`. */
  function SkipSpaces(c: Cursor): (d: Cursor)
    requires c.Valid()
    ensures d.Valid() && d.text == c.text && d.pos == RunEnd(c.text, c.pos, Space)
  {
    ReadWhile(c, Space).1
  }

  /** `seek(cls)`: move to the next `cls` character, or to the end; say
      whether one was found. */
  function Seek(c: Cursor, cls: CharClass): (r: (bool, Cursor))
    requires c.Valid()
    ensures r.1.Valid() && r.1.text == c.text && r.1.pos == FirstMatch(c.text, c.pos, cls)
    ensures r.0 <==> r.1.pos < |c.text|
  {
    var e := FirstMatch(c.text, c.pos, cls);
    (e < |c.text|, c.(pos := e))
  }

  /** `read()`: consume one character. */
  function Read(c: Cursor): (r: (char, Cursor))
    requires c.pos < |c.text|
    ensures r.0 == c.text[c.pos] && r.1 == c.(pos := c.pos + 1)
  {
    (c.text[c.pos], c.(pos := c.pos + 1))
  }

  /** `slice(a, b)`: the text between two bookmarks. */
  function Slice(c: Cursor, a: nat, b: nat): string
    requires a <= b <= |c.text|
  {
    c.text[a..b]
  }
}
