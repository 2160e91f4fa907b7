/** The simple-replacement scenario of the engine and compiler tests: the
    text `$green` with the token map `{green: 'forestgreen'}`. */
module Scenarios {
  import opened Wrappers
  import opened Text
  import opened Values
  import opened Cursors
  import opened TokenSyntax
  import opened Splice
  import Engine
  import Compile
  import LayerLookup
  import Resolver

  const Green: string := "$green"

  /** `{green: 'forestgreen'}` */
  function GreenMap(): Value
  {
    Obj(map["green" := Str("forestgreen")])
  }

  /** The one token of `$green`: the whole text, no suffix, no arguments. */
  function GreenToken(): Token
  {
    Token(0, 6, Green, "", ["green"], [])
  }

  lemma GreenName()
    ensures NameAt(Cursor(Green, 1)) == Scanned("green", Cursor(Green, 6))
  {
    var t := Green;
    assert |t| == 6;
    assert RunEnd(t, 6, NameChar) == 6;
    assert RunEnd(t, 5, NameChar) == 6;
    assert RunEnd(t, 4, NameChar) == 6;
    assert RunEnd(t, 3, NameChar) == 6;
    assert RunEnd(t, 2, NameChar) == 6;
    assert RunEnd(t, 1, NameChar) == 6;
    assert t[1..6] == "green";
  }

  lemma GreenEnd()
    ensures ParamsAt(Cursor(Green, 6), "green") == Ok(Scanned([], Cursor(Green, 6)))
    ensures SuffixAt(Cursor(Green, 6)) == Scanned("", Cursor(Green, 6))
    ensures TokenAt(Cursor(Green, 6)) == Ok(Scanned(None, Cursor(Green, 6)))
  {
    assert |Green| == 6;
  }

  lemma GreenPath()
    ensures Split("green", '.') == ["green"]
  {
    assert forall k :: 0 <= k < 5 ==> "green"[k] != '.';
  }

  lemma GreenTokenAt()
    ensures TokenAt(Cursor(Green, 0)) == Ok(Scanned(Some(GreenToken()), Cursor(Green, 6)))
  {
    var t := Green;
    assert |t| == 6 && t[0] == '$';
    assert FirstMatch(t, 0, Is('$')) == 0;
    GreenName();
    GreenEnd();
    GreenPath();
    var c1 := Cursor(t, 0);
    var c3 := Cursor(t, 6);
    assert TokenFrom(c1) == TokenAfter(c1, "green", c3, ParamsAt(c3, "green"));
    assert t[0..6] == t;
  }

  /** `$green` scans as one token covering the whole text, with path
      `["green"]`. */
  lemma GreenTokens()
    ensures Tokens(Green) == Ok([GreenToken()])
  {
    GreenTokenAt();
    GreenEnd();
    TokensUnfold(Cursor(Green, 0), GreenToken(), Cursor(Green, 6));
    assert [GreenToken()] + [] == [GreenToken()];
  }

  lemma EngineGreenReplacement(call: Oracle)
    ensures Engine.Replacement([GreenMap()], GreenToken(), call) == Ok(Some("forestgreen"))
  {
    LayerLookup.OneSegment(GreenMap(), "green", []);
    assert LayerLookup.LookupFrom([GreenMap()], ["green"], 0) == Str("forestgreen");
    assert "forestgreen" + "" == "forestgreen";
  }

  lemma EngineOneMap(m: Value, content: string, u: Engine.UserOptions, call: Oracle)
    requires !m.List?
    ensures Engine.StringP69Spec(m, content, u, call) == Engine.ReplaceAllSpec([m], content, Engine.GetOptions(u), call)
  {
  }

  /** `stringP69({green: 'forestgreen'}, '$green')` is `forestgreen`, and the
      error handler is not called. */
  lemma EngineSimpleReplacement(call: Oracle)
    ensures Engine.StringP69Spec(GreenMap(), Green, Engine.UserOptions(None, None, None), call)
            == Outcome(Ok("forestgreen"), [])
  {
    var u := Engine.UserOptions(None, None, None);
    EngineOneMap(GreenMap(), Green, u, call);
    GreenTokens();
    EngineGreenReplacement(call);
    Engine.WholeToken([GreenMap()], Green, Engine.GetOptions(u), call, GreenToken(), "forestgreen");
  }

  lemma CompileGreenReplacement(call: Oracle)
    ensures Compile.Replacement([GreenMap()], GreenToken(), call) == Ok("forestgreen")
  {
    var p: seq<string> := ["green"];
    assert p[1..] == [];
    assert Resolver.FindTokenIn(GreenMap(), p) == Str("forestgreen");
    assert "forestgreen" + "" == "forestgreen";
  }

  /** `compile({green: 'forestgreen'}, '$green', {onError: e => { throw e }})`
      is `forestgreen`, and `onError` is not called. */
  lemma CompileSimpleReplacement(call: Oracle)
    ensures Compile.CompileSpec(GreenMap(), Green, Compile.UserOptions(Some(true)), call)
            == Outcome(Ok("forestgreen"), [])
  {
    var u := Compile.UserOptions(Some(true));
    assert Compile.MappingsOf(GreenMap()) == Ok([GreenMap()]);
    GreenTokens();
    CompileGreenReplacement(call);
    Compile.WholeToken([GreenMap()], Green, Compile.CompileOptions(u), call, GreenToken(), "forestgreen");
  }
}
