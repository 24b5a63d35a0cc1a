/** A worked example: one lambda in a one-line file, hoisted above the statement that uses it. */
module Scenario {
  import opened Wrappers
  import opened Scan
  import opened ParseSpec
  import opened GenerateSpec
  import opened CharClass

  const Text: string := "f(lambda int(){1;});"
  const OneLambda: Gen := Gen(Text, "a.c", [Lambda(2, Range(9, 5), Range(14, 3), 3, 1, 1, 1, false)], [Position(0, 1)])
  const LineOne: string := "\n#line 1 \"a.c\"\n"

  lemma ExampleFunctions()
    ensures Functions(OneLambda, 0, 0) == Some(LineOne + "static int lambda_0()" + "{1;}" + "\n")
  {
    var g := OneLambda;
    assert Decimal(0) == "0" && Decimal(1) == "1";
    assert Marker("a.c", 1, true) == LineOne;
    assert g.data[9..12] == "int" && g.data[12..14] == "()" && g.data[14..18] == "{1;}";
    var head := Begin(g, 0).value;
    assert head == LineOne + "static " + "int" + " lambda_" + "0" + "()";
    assert head == LineOne + "static int lambda_0()";
    assert Code(g, 14, 4, 1, true) == Some("{1;}");
    assert Definition(g, 0) == Some(Begin(g, 0).value + "" + Code(g, 14, 4, 1, true).value + "");
    assert head + "" + "{1;}" + "" == head + "{1;}";
    assert head + "{1;}" + [] == head + "{1;}";
    assert Definitions(g, 0, 1) == Some(head + "{1;}");
    assert LastCovered(g, 0, None) == 1;
  }

  lemma ExampleReplace()
    ensures Replace(OneLambda, 0, 20, 0, 0) == Some("f((&lambda_0));")
  {
    var g := OneLambda;
    assert Decimal(0) == "0";
    assert g.data[0..2] == "f(" && g.data[18..20] == ");";
    assert SkipFrom(g, 1, 18) == 1;
    assert NextProto(g, 1, 0) == Some(1);
    assert CodeLoop(g, 18, 2, 1, 1) == Some(");");
    assert Replace(g, 0, 20, 0, 0) == Some("f(" + "(&lambda_" + "0" + ")" + ");");
    assert "f(" + "(&lambda_" + "0" + ")" + ");" == "f((&lambda_0));";
  }

  const Hoisted: string := LineOne + "static int lambda_0(){1;}\n"

  lemma ExampleCode()
    ensures Code(OneLambda, 0, 20, 0, false) == Some(Hoisted + LineOne + "f((&lambda_0));")
  {
    var g := OneLambda;
    ExampleFunctions();
    ExampleReplace();
    assert LineOne + "static int lambda_0()" + "{1;}" + "\n" == Hoisted;
    assert Marker("a.c", 1, true) == LineOne by { assert Decimal(1) == "1"; }
    assert Bytes(g, 0, 0) == Some("");
    assert NextProto(g, 0, 1) == Some(0);
    assert CodeLoop(g, 0, 20, 0, 0) == Some("" + Hoisted + LineOne + "f((&lambda_0));");
    assert "" + Hoisted == Hoisted;
  }

  /** A closer with nothing open is an error on the line it is on, and nothing is written. */
  lemma ExampleTooManyClosing()
    ensures Parse(Input("x\n)", false), State(1, [], []), 0, Normal).outcome == Err(2, TooManyClosing)
    ensures Generated(Input("x\n)", false), "a.c") == Some([])
  {
    var inp := Input("x\n)", false);
    var fr0 := InitFrame(Normal, 0, 0, 0);
    var st1 := State(1, [], [Position(0, 1)]);
    var fr1 := fr0.(protomove := false, i := 1);
    assert Step(inp, State(1, [], []), fr0) == Next(fr1, st1);
    var fr2 := fr1.(i := 2, j := 2);
    assert ParseWord(inp, st1, 0, 1) == Parsed(Ok(1), st1.(line := 2), 0);
    assert Step(inp, st1, fr1) == Next(fr2, st1.(line := 2));
    assert Step(inp, st1.(line := 2), fr2) == Done(Parsed(Err(2, TooManyClosing), st1.(line := 2), 0));
    ErrorWritesNothing(inp, "a.c");
  }

  /** A closer other than the one the latest opener expects is an error naming both. */
  lemma ExampleMismatching()
    ensures Parse(Input("f(]", false), State(1, [], []), 0, Normal).outcome == Err(1, Mismatching(')', ']'))
  {
    var inp := Input("f(]", false);
    var fr0 := InitFrame(Normal, 0, 0, 0);
    var st1 := State(1, [], [Position(0, 1)]);
    var fr1 := fr0.(protomove := false, i := 1);
    assert Step(inp, State(1, [], []), fr0) == Next(fr1, st1);
    assert ParseWord(inp, st1, 0, 1) == Parsed(Ok(1), st1, 0);
    var fr2 := fr1.(parens := [')'], i := 2, j := 2);
    assert Step(inp, st1, fr1) == Next(fr2, st1);
    assert Step(inp, st1, fr2) == Done(Parsed(Err(1, Mismatching(')', ']')), st1, 0));
  }

  // The scan that produces the records of `OneLambda`.

  const Scanned: Input := Input(Text, false)
  const Anchor0: Position := Position(0, 1)

  /** The letters of `Text` are word bytes. */
  lemma Letters()
    ensures forall k :: 2 <= k < 8 || 9 <= k < 12 ==> 'a' <= Text[k] <= 'z' && !Delimiter(Text[k])
  {
    forall k | 2 <= k < 8 || 9 <= k < 12
      ensures 'a' <= Text[k] <= 'z' && !Delimiter(Text[k])
    {
      AlphaIsLetter(Text[k]);
    }
  }

  /** The frames of the signature scan: at `i`, `n`, `t`, then after `(` and after `)`. */
  function SigFrame(k: nat): Frame
  {
    var f := InitFrame(Type, 0, 9, 9);
    if k <= 12 then f.(i := k)
    else if k == 13 then f.(expectbody := true, movename := true, nameofs := 12, parens := [')'], i := 13, j := 13)
    else f.(expectbody := true, movename := false, nameofs := 12, parens := [], i := 14, j := 14)
  }

  /** The word bytes of `int` are passed over. */
  lemma SignatureWord(st: State, k: nat)
    requires 9 <= k < 12
    ensures Step(Scanned, st, SigFrame(k)) == Next(SigFrame(k + 1), st)
  {
    Letters();
    var c := Scanned.data[k];
    assert 'a' <= c <= 'z' && !Delimiter(c);
    assert Dispatch(Scanned, st, SigFrame(k)) == Branch(Scanned, st, SigFrame(k));
    assert Branch(Scanned, st, SigFrame(k)) == Next(SigFrame(k).(i := k + 1), st);
    assert SigFrame(k).(i := k + 1) == SigFrame(k + 1);
  }

  /** `(` arms the name offset and pushes `)`; `)` pops it. */
  lemma SignatureParens(st: State)
    ensures Step(Scanned, st, SigFrame(12)) == Next(SigFrame(13), st)
    ensures Step(Scanned, st, SigFrame(13)) == Next(SigFrame(14), st)
  {
  }

  /** A loop whose iteration goes on is the loop from the next frame. */
  lemma LoopNext(inp: Input, st: State, fr: Frame, st2: State, fr2: Frame)
    requires fr.i < |inp.data| && FrameOk(st, fr) && FrameOk(st2, fr2)
    requires Step(inp, st, fr) == Next(fr2, st2)
    ensures Loop(inp, st, fr) == Loop(inp, st2, fr2)
  {
  }

  /** A loop whose iteration leaves the call returns what the iteration does. */
  lemma LoopDone(inp: Input, st: State, fr: Frame, p: Parsed)
    requires fr.i < |inp.data| && FrameOk(st, fr)
    requires Step(inp, st, fr) == Done(p)
    ensures Loop(inp, st, fr) == p
  {
  }

  /** The signature `int()` ends at the `{` at 14; the name goes in before the `(` at 12. */
  lemma ScanSignature(st: State)
    ensures Parse(Scanned, st, 9, Type) == Parsed(Ok(14), st, 12)
  {
    var inp := Scanned;
    SignatureWord(st, 9);
    SignatureWord(st, 10);
    SignatureWord(st, 11);
    SignatureParens(st);
    SignatureEnd(st);
    LoopNext(inp, st, SigFrame(9), st, SigFrame(10));
    LoopNext(inp, st, SigFrame(10), st, SigFrame(11));
    LoopNext(inp, st, SigFrame(11), st, SigFrame(12));
    LoopNext(inp, st, SigFrame(12), st, SigFrame(13));
    LoopNext(inp, st, SigFrame(13), st, SigFrame(14));
    LoopDone(inp, st, SigFrame(14), Parsed(Ok(14), st, 12));
    assert InitFrame(Type, 0, 9, 9) == SigFrame(9);
  }

  /** The `{` after the parameters ends the signature. */
  lemma SignatureEnd(st: State)
    ensures Step(Scanned, st, SigFrame(14)) == Done(Parsed(Ok(14), st, 12))
  {
  }

  /** The record when its signature is filled in, before its body is sealed. */
  const Opened0: Lambda := Lambda(2, Range(9, 5), Range(14, 0), 3, 1, 1, 0, false)
  const Sealed0: Lambda := Lambda(2, Range(9, 5), Range(14, 3), 3, 1, 1, 1, false)

  /** The frames of the body scan: at `{`, at `1`, at `;` and at `}`. */
  function BodyFrame(k: nat): Frame
  {
    var f := InitFrame(LambdaMode, 0, 14, 8);
    if k == 14 then f
    else if k == 16 then f.(parens := ['}'], i := 16, j := 15)
    else f.(parens := ['}'], i := k, j := k)
  }

  /** The `{` of the body pushes `}`. */
  lemma BodyOpen(st: State)
    requires st == State(1, [Opened0], [Anchor0])
    ensures Step(Scanned, st, BodyFrame(14)) == Next(BodyFrame(15), st)
  {
  }

  /** `1` is a word byte, and the `;` after it is a delimiter inside the braces. */
  lemma BodySteps(st: State)
    requires st == State(1, [Opened0], [Anchor0])
    ensures Step(Scanned, st, BodyFrame(15)) == Next(BodyFrame(16), st)
    ensures Step(Scanned, st, BodyFrame(16)) == Next(BodyFrame(17), st)
  {
    DigitIsDecimal('1');
    AlphaIsLetter('1');
  }

  /** The `}` that empties the stack seals the record. */
  lemma BodyEnd(st: State)
    requires st == State(1, [Opened0], [Anchor0])
    ensures Step(Scanned, st, BodyFrame(17)) == Done(Parsed(Ok(17), State(1, [Sealed0], [Anchor0]), 0))
  {
  }

  /** The body `{1;}` is scanned and the record is sealed at the `}` at 17. */
  lemma ScanBody()
    ensures Loop(Scanned, State(1, [Opened0], [Anchor0]), BodyFrame(14)) == Parsed(Ok(17), State(1, [Sealed0], [Anchor0]), 0)
  {
    var st := State(1, [Opened0], [Anchor0]);
    BodyOpen(st);
    BodySteps(st);
    BodyEnd(st);
    LoopNext(Scanned, st, BodyFrame(14), st, BodyFrame(15));
    LoopNext(Scanned, st, BodyFrame(15), st, BodyFrame(16));
    LoopNext(Scanned, st, BodyFrame(16), st, BodyFrame(17));
    LoopDone(Scanned, st, BodyFrame(17), Parsed(Ok(17), State(1, [Sealed0], [Anchor0]), 0));
  }

  /**
    After the keyword at 2, the record is created, the signature `int()` is
    scanned and filled in, and the body loop starts at the `{`.
  */
  lemma ScanHead(st: State)
    requires st == State(1, [], [Anchor0])
    ensures Opened(Scanned, st, 8) == Next(BodyFrame(14), State(1, [Opened0], [Anchor0]))
  {
    var data := Scanned.data;
    assert WhiteEnd(data, 9) == 9 by { AlphaIsLetter(data[9]); }
    assert WhiteEnd(data, 8) == 9;
    assert Newlines(data[8..9]) == 0;
    assert st.lambdas + [Created0] == [Created0];
    assert ZeroLambda.(start := 8 - KeyLength, decl := Range(9, 0), declLine := 1) == Created0;
    var st1 := st.(lambdas := [Created0]);
    ScanSignature(st1);
    var t := Parsed(Ok(14), st1, 12);
    assert State(1, st.lambdas + [Created0], st.positions) == st1;
    OpenedUnfold(Scanned, st, 8, 9, 1, Created0, t);
    HeadSigned(t);
  }

  /** `Opened` once its signature scan `t` is known to succeed. */
  lemma OpenedUnfold(inp: Input, st: State, e: nat, i1: nat, line1: nat, rec: Lambda, t: Parsed)
    requires KeyLength <= e <= |inp.data|
    requires i1 == WhiteEnd(inp.data, e) && line1 == st.line + Newlines(inp.data[e..i1])
    requires rec == ZeroLambda.(start := e - KeyLength, decl := Range(i1, 0), declLine := line1)
    requires t == Parse(inp, State(line1, st.lambdas + [rec], st.positions), i1, Type) && t.outcome.Ok?
    ensures t.outcome.pos <= |inp.data| && |st.lambdas| < |t.st.lambdas|
    ensures e <= t.st.lambdas[|st.lambdas|].decl.begin <= t.outcome.pos
    ensures Opened(inp, st, e) == Signed(inp, e, |st.lambdas|, t)
  {
  }

  /** The record `lambda_vector_create_lambda` and the head fill in before the signature is scanned. */
  const Created0: Lambda := ZeroLambda.(start := 2, decl := Range(9, 0), declLine := 1)

  /** The signature's end fills in the declaration; no `=>` follows, so the written-out body starts at 14. */
  lemma HeadSigned(t: Parsed)
    requires t == Parsed(Ok(14), State(1, [Created0], [Anchor0]), 12)
    ensures Signed(Scanned, 8, 0, t) == Next(BodyFrame(14), State(1, [Opened0], [Anchor0]))
  {
    var data := Scanned.data;
    assert WhiteEnd(data, 14) == 14;
    assert data[14..14] == [];
  }

  /** The call of `parse` for the lambda returns the offset of its `}` with the record sealed. */
  lemma ScanLambda()
    ensures Parse(Scanned, State(1, [], [Anchor0]), 8, LambdaMode) == Parsed(Ok(17), State(1, [Sealed0], [Anchor0]), 0)
  {
    ScanHead(State(1, [], [Anchor0]));
    ScanBody();
  }

  /** The frames of the outermost scan: `f`, `(`, the keyword, the `)` and the `;` after the lambda, the end. */
  function TopFrame(k: nat): Frame
  {
    var f := InitFrame(Normal, 0, 0, 0);
    if k == 0 then f
    else if k == 1 then f.(protomove := false, i := 1)
    else if k <= 8 then f.(protomove := false, parens := [')'], i := k, j := 2)
    else if k == 18 then f.(protomove := false, parens := [')'], i := 18, j := 18)
    else if k == 19 then f.(protomove := false, i := 19, j := 19)
    else f.(i := 20, j := 20, protopos := 20)
  }

  /** At file start the anchor 0 on line 1 is recorded; `f` is a word byte. */
  lemma TopFirst(st: State)
    requires st == State(1, [], [])
    ensures Step(Scanned, st, TopFrame(0)) == Next(TopFrame(1), State(1, [], [Anchor0]))
  {
    AlphaIsLetter('f');
  }

  /** `(` after the word `f`, which is not the keyword, pushes `)`. */
  lemma TopOpen(st: State)
    requires st == State(1, [], [Anchor0])
    ensures Step(Scanned, st, TopFrame(1)) == Next(TopFrame(2), st)
  {
    NoKeywordAtStart();
  }

  /** `f(` does not start with the keyword. */
  lemma NoKeywordAtStart()
    ensures !KeywordAt(Scanned.data, 0)
  {
    var head := Scanned.data[0..KeyLength];
    assert head[0] == Scanned.data[0] == 'f';
    assert Keyword[0] == 'l';
  }

  /** The letters of the keyword are word bytes. */
  lemma TopWord(st: State, k: nat)
    requires st == State(1, [], [Anchor0]) && 2 <= k < 8
    ensures Step(Scanned, st, TopFrame(k)) == Next(TopFrame(k + 1), st)
  {
    Letters();
    var c := Scanned.data[k];
    assert 'a' <= c <= 'z' && !Delimiter(c);
    assert Dispatch(Scanned, st, TopFrame(k)) == Branch(Scanned, st, TopFrame(k));
    assert TopFrame(k).(i := k + 1) == TopFrame(k + 1);
  }

  /** The blank after `lambda` ends a word that starts with the keyword: the lambda's call runs to its `}`. */
  lemma TopKeyword(st: State)
    requires st == State(1, [], [Anchor0])
    ensures ParseWord(Scanned, st, 2, 8) == Parsed(Ok(17), State(1, [Sealed0], [Anchor0]), 0)
  {
    assert KeywordAt(Scanned.data, 2);
    ScanLambda();
  }

  lemma TopLambda(st: State)
    requires st == State(1, [], [Anchor0])
    ensures Step(Scanned, st, TopFrame(8)) == Next(TopFrame(18), State(1, [Sealed0], [Anchor0]))
  {
    var w := Parsed(Ok(17), State(1, [Sealed0], [Anchor0]), 0);
    var fr := TopFrame(8);
    TopKeyword(st);
    assert fr.i == 8 && fr.j == 2 && fr.parens == [')'] && fr.mode == Normal && !fr.movename;
    assert FrameOk(st, fr);
    BlankAfterKeyword();
    StepDelimited(Scanned, st, fr, w);
  }

  /** The blank between the keyword and the return type. */
  lemma BlankAfterKeyword()
    ensures Scanned.data[8] == ' ' && Delimiter(Scanned.data[8])
  {
    AlphaIsLetter(' ');
    DigitIsDecimal(' ');
  }

  /**
    An iteration at a delimiter other than a quote, a bracket or a closer,
    inside brackets and outside a signature, resumes after `parse_word`.
  */
  lemma StepDelimited(inp: Input, st: State, fr: Frame, w: Parsed)
    requires fr.i < |inp.data| && FrameOk(st, fr) && fr.parens != [] && fr.mode != Type && !fr.movename
    requires var c := inp.data[fr.i]; Delimiter(c) && c != '"' && c != '\'' && !IsOpener(c) && !IsCloser(c)
    requires w == ParseWord(inp, st, fr.j, fr.i) && w.outcome.Ok?
    ensures Resumable(inp, st, fr, w.st, w.outcome.pos)
    ensures Step(inp, st, fr) == Delimited(inp, st, fr, w.st, w.outcome.pos)
  {
    var c := inp.data[fr.i];
    assert Word(inp, st, fr) == w;
    assert Classified(inp, st, fr) == After(inp, st, fr, w.st, w.outcome.pos);
    assert Branch(inp, st, fr) == Classified(inp, st, fr);
    assert Dispatch(inp, st, fr) == Branch(inp, st, fr);
  }

  /** The `)` closes the call's parentheses, and the `;` after it starts the next anchor at 20. */
  lemma TopClose(st: State)
    requires st == State(1, [Sealed0], [Anchor0])
    ensures Step(Scanned, st, TopFrame(18)) == Next(TopFrame(19), st)
    ensures Step(Scanned, st, TopFrame(19)) == Next(TopFrame(20), st)
  {
  }

  /** The loop stops at the end of the buffer with the offset it reached. */
  lemma LoopEnd(inp: Input, st: State, fr: Frame)
    requires FrameOk(st, fr) && fr.i >= |inp.data|
    ensures Loop(inp, st, fr) == Parsed(Ok(fr.i), st, fr.nameofs)
  {
  }

  /** From the first byte to the blank after the keyword: one anchor at 0, one `(` open. */
  lemma TopPrefix(st: State)
    requires st == State(1, [], [])
    ensures Loop(Scanned, st, TopFrame(0)) == Loop(Scanned, State(1, [], [Anchor0]), TopFrame(8))
  {
    var sa := State(1, [], [Anchor0]);
    TopFirst(st);
    LoopNext(Scanned, st, TopFrame(0), sa, TopFrame(1));
    TopOpen(sa);
    LoopNext(Scanned, sa, TopFrame(1), sa, TopFrame(2));
    var k := 2;
    while k < 8
      invariant 2 <= k <= 8
      invariant Loop(Scanned, st, TopFrame(0)) == Loop(Scanned, sa, TopFrame(k))
    {
      TopWord(sa, k);
      LoopNext(Scanned, sa, TopFrame(k), sa, TopFrame(k + 1));
      k := k + 1;
    }
  }

  /** From the blank after the keyword to the end: the lambda is recorded and sealed, the call closed. */
  lemma TopSuffix(st: State)
    requires st == State(1, [], [Anchor0])
    ensures Loop(Scanned, st, TopFrame(8)) == Parsed(Ok(20), State(1, [Sealed0], [Anchor0]), 0)
  {
    var sb := State(1, [Sealed0], [Anchor0]);
    TopLambda(st);
    LoopNext(Scanned, st, TopFrame(8), sb, TopFrame(18));
    TopClose(sb);
    LoopNext(Scanned, sb, TopFrame(18), sb, TopFrame(19));
    LoopNext(Scanned, sb, TopFrame(19), sb, TopFrame(20));
    LoopEnd(Scanned, sb, TopFrame(20));
  }

  /**
    The whole scan of `f(lambda int(){1;});`: one lambda, its signature at
    9..14 and its body at 14..17 on line 1, and one anchor at 0.
  */
  lemma ScanText()
    ensures Parse(Scanned, State(1, [], []), 0, Normal) == Parsed(Ok(20), State(1, [Sealed0], [Anchor0]), 0)
  {
    assert InitFrame(Normal, 0, 0, 0) == TopFrame(0);
    TopPrefix(State(1, [], []));
    TopSuffix(State(1, [], [Anchor0]));
  }

  /**
    The whole translation of `f(lambda int(){1;});` in `a.c`: the opening
    `#line`, the hoisted function, then the call with the lambda replaced.
  */
  lemma ExampleGenerated()
    ensures Generated(Scanned, "a.c") == Some(Marker("a.c", 1, false) + (Hoisted + LineOne + "f((&lambda_0));") + "\n")
  {
    ScanText();
    assert Gen(Scanned.data, "a.c", [Sealed0], [Anchor0]) == OneLambda;
    ExampleCode();
    GeneratedOk(Scanned, "a.c", Parsed(Ok(20), State(1, [Sealed0], [Anchor0]), 0), Hoisted + LineOne + "f((&lambda_0));");
  }

  /** A scan that succeeds, with code that is written out, is translated to that code between the markers. */
  lemma GeneratedOk(inp: Input, file: string, p: Parsed, code: string)
    requires p == Parse(inp, State(1, [], []), 0, Normal) && p.outcome.Ok?
    requires Code(Gen(inp.data, file, p.st.lambdas, p.st.positions), 0, |inp.data|, 0, false) == Some(code)
    ensures Generated(inp, file) == Some(Marker(file, 1, false) + code + "\n")
  {
  }
}
