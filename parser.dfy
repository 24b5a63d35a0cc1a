/**
  The scanner of lambda.c as the C code runs it: `parse_skip_string`,
  `parse_skip_white`, `parse_word` and `parse` (lines 204-428) as methods
  that advance offsets, bump `source->line` and append to the records and
  anchors of `parse_data_t` in place.  Each is proved to compute exactly the corresponding
  function of module `ParseSpec` (`SkipString` the function `StringEnd`,
  `SkipWhite` the function `WhiteEnd`, `DispatchStep` the function `Dispatch`, and so on).
*/
module Parser {
  import opened CharClass
  import opened Wrappers
  import opened Scan
  import opened ParseSpec

  /** `lambda_source_t`: the loaded file and its line counter. */
  class Source {
    const file: string
    const data: seq<char>
    const shortEnabled: bool
    var line: nat

    /** `lambda_source_init` and `parse_open`: the line counter starts at 1. */
    constructor (file: string, data: seq<char>, shortEnabled: bool)
      ensures this.file == file && this.data == data && this.shortEnabled == shortEnabled
      ensures line == 1
    {
      this.file := file;
      this.data := data;
      this.shortEnabled := shortEnabled;
      line := 1;
    }

    function Scanned(): Input
    {
      Scan.Input(data, shortEnabled)
    }
  }

  /**
    `parse_data_t`: the records and the anchors.  The two vectors are
    append-only during a scan and are modelled by their contents; the
    growth policy of `lambda_vector_t` is module `Vectors`.
  */
  class ParseData {
    var lambdas: seq<Lambda>
    var positions: seq<Position>

    /** The two `lambda_vector_init` calls of `generate`. */
    constructor ()
      ensures lambdas == [] && positions == []
    {
      lambdas := [];
      positions := [];
    }
  }

  /** The scanner state as the functions of `ParseSpec` see it. */
  function Snap(src: Source, pd: ParseData): State
    reads src, pd
  {
    State(src.line, pd.lambdas, pd.positions)
  }

  /** `parse_skip_string`. */
  method SkipString(src: Source, i: nat, check: char) returns (r: nat)
    requires i <= |src.data|
    ensures r == StringEnd(src.data, i, check)
  {
    var data := src.data;
    r := i;
    while r != |data|
      invariant i <= r <= |data|
      invariant StringEnd(data, r, check) == StringEnd(data, i, check)
      decreases |data| - r
    {
      if data[r] == check {
        return r + 1;
      } else if data[r] == '\\' {
        r := r + 1;
        if r == |data| {
          break;
        }
      }
      r := r + 1;
    }
  }

  /** `parse_skip_white`: counts the newlines it passes. */
  method SkipWhite(src: Source, i: nat) returns (r: nat)
    requires i <= |src.data|
    modifies src
    ensures r == WhiteEnd(src.data, i)
    ensures src.line == old(src.line) + Newlines(src.data[i..r])
  {
    var data := src.data;
    r := i;
    while r != |data| && IsSpace(data[r])
      invariant i <= r <= |data|
      invariant WhiteEnd(data, r) == WhiteEnd(data, i)
      invariant src.line == old(src.line) + Newlines(data[i..r])
      decreases |data| - r
    {
      NewlinesAppend(data[i..r], data[r]);
      assert data[i..r + 1] == data[i..r] + [data[r]];
      if data[r] == '\n' {
        src.line := src.line + 1;
      }
      r := r + 1;
    }
  }

  /**
    An iteration of the imperative loop ended as the functional one did:
    with the same locals and state (`stop` is `None`, the loop goes on), or
    by leaving `parse` with the same outcome, state and name offset.
  */
  ghost predicate Agrees(it: Iteration, next: Frame, stop: Option<Outcome>, st: State)
  {
    match it
    case Next(fr, st2) => stop.None? && next == fr && st == st2
    case Done(p) => stop == Some(p.outcome) && st == p.st && next.nameofs == p.nameofs
  }

  /** `finish_lambda`: the body of record `lambda` ends at `k`, on the current line. */
  method FinishLambda(src: Source, pd: ParseData, lambda: nat, k: nat) returns (o: Outcome)
    requires lambda < |pd.lambdas| && pd.lambdas[lambda].body.begin <= k
    modifies pd
    ensures var rec := old(pd.lambdas[lambda]);
      pd.lambdas == old(pd.lambdas)[lambda := rec.(body := Range(rec.body.begin, k - rec.body.begin), endLine := src.line)]
    ensures pd.positions == old(pd.positions) && o == Ok(k)
  {
    var rec := pd.lambdas[lambda];
    pd.lambdas := pd.lambdas[lambda := rec.(body := Range(rec.body.begin, k - rec.body.begin), endLine := src.line)];
    o := Ok(k);
  }

  /** `parse_word`: the keyword test on the word `data[j..i]`, then newlines and comments at `i`. */
  method ParseWord(src: Source, pd: ParseData, j: nat, i: nat) returns (o: Outcome)
    requires j <= i < |src.data| && Delimiter(src.data[i])
    modifies src, pd
    ensures Parsed(o, Snap(src, pd), 0) == ParseSpec.ParseWord(src.Scanned(), old(Snap(src, pd)), j, i)
    decreases Rest(src.data, j), 0, 0
  {
    var data := src.data;
    if j != i && KeywordAt(data, j) {
      KeywordBeforeDelimiter(data, j, i);
      var ofs;
      o, ofs := Parse(src, pd, i, LambdaMode);
      return;
    }
    o := Ok(i);
    if data[i] == '\n' {
      src.line := src.line + 1;
    } else if data[i] == '/' && i + 1 == |data| {
      o := Undefined;
    } else if data[i] == '/' && data[i + 1] == '/' {
      var found := FindNewline(data, i);
      o := if found.Some? then Ok(found.value) else Undefined;
    } else if data[i] == '/' && data[i + 1] == '*' {
      var found := FindCommentEnd(data, i);
      o := if found.Some? then Ok(found.value) else Undefined;
    }
  }

  /**
    The second half of the byte classification (lines 341-409), once the word
    before byte `fr.i` has been classified and scanning resumes at `k`.  The
    signature bookkeeping of a `(` is done after the word rather than before
    it; in `Type` mode the word is not classified, so the order does not
    matter.
  */
  method AfterStep(src: Source, pd: ParseData, fr: Frame, ghost st0: State, k: nat)
    returns (next: Frame, stop: Option<Outcome>)
    requires Resumable(src.Scanned(), st0, fr, Snap(src, pd), k)
    modifies pd
    ensures Agrees(After(src.Scanned(), st0, fr, old(Snap(src, pd)), k), next, stop, Snap(src, pd))
  {
    var c := src.data[fr.i];
    if c == '"' || c == '\'' {
      next, stop := LiteralStep(src, pd, fr, st0, k);
    } else if IsOpener(c) {
      next, stop := OpeningStep(src, pd, fr, st0, k);
    } else if IsCloser(c) {
      next, stop := ClosingStep(src, pd, fr, st0, k);
    } else {
      next, stop := DelimitedStep(src, pd, fr, st0, k);
    }
  }

  /** A literal is skipped by `parse_skip_string`, its quote being the byte at `k`. */
  method LiteralStep(src: Source, pd: ParseData, fr: Frame, ghost st0: State, k: nat)
    returns (next: Frame, stop: Option<Outcome>)
    requires Resumable(src.Scanned(), st0, fr, Snap(src, pd), k)
    requires var c := src.data[fr.i]; c == '"' || c == '\''
    ensures Agrees(Literal(src.Scanned(), st0, fr, Snap(src, pd), k), next, stop, Snap(src, pd))
  {
    var data := src.data;
    if k >= |data| {
      return fr, Some(Undefined);
    }
    var e := SkipString(src, k + 1, data[k]);
    return fr.(i := e, j := e), None;
  }

  /** An opener pushes onto `parens` the closer of the byte at `k`. */
  method OpeningStep(src: Source, pd: ParseData, fr: Frame, ghost st0: State, k: nat)
    returns (next: Frame, stop: Option<Outcome>)
    requires Resumable(src.Scanned(), st0, fr, Snap(src, pd), k)
    requires var c := src.data[fr.i]; c != '"' && c != '\'' && IsOpener(c)
    ensures Agrees(Opening(src.Scanned(), st0, fr, Snap(src, pd), k), next, stop, Snap(src, pd))
  {
    var data := src.data;
    var c := data[fr.i];
    next := fr;
    if fr.mode == Type && fr.parens == [] && !fr.expectbody && c == '(' {
      next := next.(expectbody := true, movename := true, nameofs := fr.i);
    }
    if k >= |data| || Closer(data[k]).None? {
      return fr, Some(Undefined);
    }
    next, stop := next.(parens := fr.parens + [Closer(data[k]).value], i := k + 1, j := k + 1), None;
  }

  /** A matching closer is popped off `parens`. */
  method ClosingStep(src: Source, pd: ParseData, fr: Frame, ghost st0: State, k: nat)
    returns (next: Frame, stop: Option<Outcome>)
    requires Resumable(src.Scanned(), st0, fr, Snap(src, pd), k)
    requires var c := src.data[fr.i]; c != '"' && c != '\'' && !IsOpener(c) && IsCloser(c)
    ensures Agrees(Closing(src.Scanned(), st0, fr, Snap(src, pd), k), next, stop, Snap(src, pd))
  {
    var c := src.data[fr.i];
    var popped := fr.parens[..|fr.parens| - 1];
    next, stop := fr.(parens := popped, i := k + 1, j := k + 1), None;
    if fr.mode == Type && c == '}' && popped == [] && !fr.expectbody {
      next := next.(movename := true);
    }
    if fr.mode == Normal && popped == [] && c == '}' {
      next := next.(protopos := k + 1, protomove := true);
    }
  }

  /** Any other delimiter; a depth-zero `;` seals a short body. */
  method DelimitedStep(src: Source, pd: ParseData, fr: Frame, ghost st0: State, k: nat)
    returns (next: Frame, stop: Option<Outcome>)
    requires Resumable(src.Scanned(), st0, fr, Snap(src, pd), k)
    requires var c := src.data[fr.i]; c != '"' && c != '\'' && !IsOpener(c) && !IsCloser(c)
    modifies pd
    ensures Agrees(Delimited(src.Scanned(), st0, fr, old(Snap(src, pd)), k), next, stop, Snap(src, pd))
  {
    var data := src.data;
    if fr.parens == [] && fr.mode == Expression {
      if k >= |data| {
        return fr, Some(Undefined);
      }
      if data[k] == ';' {
        var o := FinishLambda(src, pd, fr.lambda, k);
        return fr, Some(o);
      }
    }
    if fr.parens == [] && src.shortEnabled && fr.mode == Type && fr.expectbody && data[k] == '=' {
      if k + 1 >= |data| {
        return fr, Some(Undefined);
      }
      if data[k + 1] == '>' {
        return fr, Some(Ok(k));
      }
    }
    return fr.(i := k + 1, j := k + 1), None;
  }

  /** The word before the delimiter at `fr.i` is classified (outside `Type` mode), then the delimiter. */
  method ClassifiedStep(src: Source, pd: ParseData, fr: Frame) returns (next: Frame, stop: Option<Outcome>)
    requires var data := src.data;
      && fr.i < |data| && FrameOk(Snap(src, pd), fr)
      && (var c := data[fr.i]; c == '"' || c == '\'' || IsOpener(c) || IsCloser(c) || Delimiter(c))
      && (IsCloser(data[fr.i]) ==> fr.parens != [] && data[fr.i] == fr.parens[|fr.parens| - 1])
      && (IsCloser(data[fr.i]) && data[fr.i] == '}' && |fr.parens| == 1 ==> fr.mode != LambdaMode)
    modifies src, pd
    ensures Agrees(Classified(src.Scanned(), old(Snap(src, pd)), fr), next, stop, Snap(src, pd))
    decreases Rest(src.data, fr.j), 2, 0
  {
    var c := src.data[fr.i];
    assert Delimiter(c) by {
      if !Delimiter(c) { PunctuationIsDelimiter(c); }
    }
    ghost var st0 := Snap(src, pd);
    var k := fr.i;
    if fr.mode != Type {
      var w := ParseWord(src, pd, fr.j, fr.i);
      assert Word(src.Scanned(), st0, fr) == Parsed(w, Snap(src, pd), 0);
      if !w.Ok? {
        return fr, Some(w);
      }
      k := w.pos;
    }
    next, stop := AfterStep(src, pd, fr, st0, k);
  }

  /** lines 341-409: the byte at `fr.i` is a literal, a bracket, another delimiter, or part of a word. */
  method BranchStep(src: Source, pd: ParseData, fr: Frame) returns (next: Frame, stop: Option<Outcome>)
    requires fr.i < |src.data| && FrameOk(Snap(src, pd), fr)
    modifies src, pd
    ensures Agrees(Branch(src.Scanned(), old(Snap(src, pd)), fr), next, stop, Snap(src, pd))
    decreases Rest(src.data, fr.j), 3, 0
  {
    var c := src.data[fr.i];
    if !(c == '"' || c == '\'' || IsOpener(c) || IsCloser(c) || Delimiter(c)) {
      return fr.(i := fr.i + 1), None;
    }
    if IsOpener(c) && fr.mode == Type && fr.parens == [] && fr.expectbody && c == '{' {
      return fr, Some(Ok(fr.i));
    }
    if IsCloser(c) {
      if fr.parens == [] {
        return fr, Some(Err(src.line, TooManyClosing));
      }
      var back := fr.parens[|fr.parens| - 1];
      if c != back {
        return fr, Some(Err(src.line, Mismatching(back, c)));
      }
      if c == '}' && |fr.parens| == 1 && fr.mode == LambdaMode {
        var o := FinishLambda(src, pd, fr.lambda, fr.i);
        return fr, Some(o);
      }
    }
    next, stop := ClassifiedStep(src, pd, fr);
  }

  /** lines 334-339: the name offset of a signature moves over `*` and blanks after its `(`. */
  method DispatchStep(src: Source, pd: ParseData, fr: Frame) returns (next: Frame, stop: Option<Outcome>)
    requires fr.i < |src.data| && FrameOk(Snap(src, pd), fr)
    modifies src, pd
    ensures Agrees(Dispatch(src.Scanned(), old(Snap(src, pd)), fr), next, stop, Snap(src, pd))
    decreases Rest(src.data, fr.j), 4, 0
  {
    var c := src.data[fr.i];
    var moved := fr;
    if fr.movename {
      if c != '*' && c != '(' && !IsSpace(c) {
        moved := fr.(movename := false);
      } else if c != '(' {
        moved := fr.(nameofs := fr.i + 1);
      }
    }
    next, stop := BranchStep(src, pd, moved);
  }

  /** lines 305-331: a `;`, a `#`, or the newline ending a directive starts the next anchor. */
  method MarkStep(src: Source, pd: ParseData, fr: Frame) returns (next: Frame, stop: Option<Outcome>)
    requires fr.i < |src.data| && FrameOk(Snap(src, pd), fr)
    requires fr.mode == Normal && fr.parens == []
    requires var c := src.data[fr.i]; c == ';' || c == '#' || (fr.preprocessor && c == '\n')
    modifies src, pd
    ensures Agrees(Mark(src.Scanned(), old(Snap(src, pd)), fr), next, stop, Snap(src, pd))
    decreases Rest(src.data, fr.j), 3, 0
  {
    var c := src.data[fr.i];
    PunctuationIsDelimiter(c);
    ghost var st0 := Snap(src, pd);
    var w := ParseWord(src, pd, fr.j, fr.i);
    assert Word(src.Scanned(), st0, fr) == Parsed(w, Snap(src, pd), 0);
    if !w.Ok? {
      return fr, Some(w);
    }
    var k := w.pos + 1;
    if c == ';' {
      next := fr.(i := k, j := k, protomove := true, protopos := k);
    } else if c == '#' {
      next := fr.(i := k, j := k, protomove := false, protopos := k, preprocessor := true);
    } else {
      next := fr.(i := k, j := k, protomove := true, protopos := k, preprocessor := false);
    }
    stop := None;
  }

  /** lines 292-298: blanks after an anchor move it along, counting newlines. */
  method TopStep(src: Source, pd: ParseData, fr: Frame) returns (next: Frame, stop: Option<Outcome>)
    requires fr.i < |src.data| && FrameOk(Snap(src, pd), fr)
    requires fr.mode == Normal && fr.parens == []
    modifies src, pd
    ensures Agrees(Top(src.Scanned(), old(Snap(src, pd)), fr), next, stop, Snap(src, pd))
    decreases Rest(src.data, fr.j), 5, 1
  {
    var c := src.data[fr.i];
    if fr.protomove && IsSpace(c) {
      if c == '\n' {
        src.line := src.line + 1;
      }
      return fr.(i := fr.i + 1, j := fr.i + 1, protopos := fr.i + 1), None;
    }
    next, stop := AnchorStep(src, pd, fr);
  }

  /** lines 299-332: a pending anchor is pushed with the current line, then the byte is looked at. */
  method AnchorStep(src: Source, pd: ParseData, fr: Frame) returns (next: Frame, stop: Option<Outcome>)
    requires fr.i < |src.data| && FrameOk(Snap(src, pd), fr)
    requires fr.mode == Normal && fr.parens == []
    modifies src, pd
    ensures Agrees(Anchor(src.Scanned(), old(Snap(src, pd)), fr), next, stop, Snap(src, pd))
    decreases Rest(src.data, fr.j), 5, 0
  {
    var c := src.data[fr.i];
    if fr.protomove {
      pd.positions := pd.positions + [Position(fr.protopos, src.line)];
    }
    var settled := fr.(protomove := false);
    if c == ';' || c == '#' || (settled.preprocessor && c == '\n') {
      next, stop := MarkStep(src, pd, settled);
    } else {
      next, stop := DispatchStep(src, pd, settled);
    }
  }

  /** One iteration of the `while` loop of `parse`. */
  method IterateStep(src: Source, pd: ParseData, fr: Frame) returns (next: Frame, stop: Option<Outcome>)
    requires fr.i < |src.data| && FrameOk(Snap(src, pd), fr)
    modifies src, pd
    ensures Agrees(Step(src.Scanned(), old(Snap(src, pd)), fr), next, stop, Snap(src, pd))
    decreases Rest(src.data, fr.j), 6, 0
  {
    if fr.mode == Normal && fr.parens == [] {
      next, stop := TopStep(src, pd, fr);
    } else {
      next, stop := DispatchStep(src, pd, fr);
    }
  }

  /**
    lines 262-269: the head of a lambda, entered just past the keyword.  The
    record is created and its declaration start recorded, then the signature
    is scanned in `Type` mode; `fr` is where the body loop starts, unless
    `stop` ends the call first.
  */
  method OpenLambda(src: Source, pd: ParseData, e: nat) returns (fr: Frame, stop: Option<Outcome>)
    requires KeyLength <= e <= |src.data|
    modifies src, pd
    ensures Agrees(Opened(src.Scanned(), old(Snap(src, pd)), e), fr, stop, Snap(src, pd))
    decreases Rest(src.data, e), 9, 0
  {
    ghost var inp := src.Scanned();
    ghost var st0 := Snap(src, pd);
    var data := src.data;
    // create_lambda
    var lambda := |pd.lambdas|;
    pd.lambdas := pd.lambdas + [ZeroLambda];
    var i := SkipWhite(src, e);
    var rec := ZeroLambda.(start := e - KeyLength, decl := Range(i, 0), declLine := src.line);
    pd.lambdas := pd.lambdas[lambda := rec];
    ghost var st1 := Snap(src, pd);
    assert st1 == State(st0.line + Newlines(data[e..i]), st0.lambdas + [rec], st0.positions);
    var t, ofs := Parse(src, pd, i, Type);
    ghost var typed := ParseSpec.Parse(inp, st1, i, Type);
    assert typed == Parsed(t, Snap(src, pd), ofs);
    if !t.Ok? {
      return InitFrame(LambdaMode, lambda, i, e), Some(t);
    }
    fr, stop := SignedStep(src, pd, e, lambda, t.pos, ofs);
  }

  /** lines 270-290: the declaration of record `lambda` ends at `i2`, and the kind of body is chosen. */
  method SignedStep(src: Source, pd: ParseData, e: nat, lambda: nat, i2: nat, ofs: nat)
    returns (fr: Frame, stop: Option<Outcome>)
    requires i2 <= |src.data| && lambda < |pd.lambdas|
    requires e <= pd.lambdas[lambda].decl.begin <= i2
    modifies src, pd
    ensures Agrees(Signed(src.Scanned(), e, lambda, Parsed(Ok(i2), old(Snap(src, pd)), ofs)), fr, stop, Snap(src, pd))
  {
    var data := src.data;
    var rec := pd.lambdas[lambda];
    rec := rec.(nameOffset := ofs - rec.decl.begin, decl := Range(rec.decl.begin, i2 - rec.decl.begin),
                body := Range(i2, 0), bodyLine := src.line);
    pd.lambdas := pd.lambdas[lambda := rec];
    var i := SkipWhite(src, i2);
    if src.shortEnabled && (i == |data| || (data[i] == '=' && i + 1 == |data|)) {
      return InitFrame(LambdaMode, lambda, i, e), Some(Undefined);
    }
    if src.shortEnabled && data[i] == '=' && data[i + 1] == '>' {
      rec := rec.(body := Range(i + 2, 0), isShort := true);
      pd.lambdas := pd.lambdas[lambda := rec];
      return InitFrame(Expression, lambda, i + 2, e), None;
    }
    return InitFrame(LambdaMode, lambda, i, e), None;
  }

  /**
    `parse`: one scan from offset `e` in the given mode; `nameofs` is the
    final value of `*nameofs`, which only a `Type` call moves.  The locals of
    the C function are the fields of the `Frame` value `fr`.
  */
  method Parse(src: Source, pd: ParseData, e: nat, mode: Mode) returns (o: Outcome, nameofs: nat)
    requires e <= |src.data| && mode != Expression && (mode == LambdaMode ==> KeyLength <= e)
    modifies src, pd
    ensures Parsed(o, Snap(src, pd), nameofs) == ParseSpec.Parse(src.Scanned(), old(Snap(src, pd)), e, mode)
    decreases Rest(src.data, e), if mode == Type then 8 else 9, 1
  {
    ghost var inp := src.Scanned();
    ghost var st0 := Snap(src, pd);
    var data := src.data;
    var fr := InitFrame(mode, 0, e, e);
    if mode == LambdaMode {
      var stop;
      fr, stop := OpenLambda(src, pd, e);
      if stop.Some? {
        return stop.value, fr.nameofs;
      }
    }

    ghost var goal := Loop(inp, Snap(src, pd), fr);
    assert goal == ParseSpec.Parse(inp, st0, e, mode);
    while fr.i < |data|
      invariant e <= fr.j
      invariant FrameOk(Snap(src, pd), fr)
      invariant Loop(inp, Snap(src, pd), fr) == goal
      decreases Rest(data, fr.j), Rest(data, fr.i)
    {
      ghost var st := Snap(src, pd);
      ghost var before := fr;
      var stop;
      fr, stop := IterateStep(src, pd, fr);
      if stop.Some? {
        return stop.value, fr.nameofs;
      }
      assert OwnOk(Snap(src, pd), fr) by {
        if Owns(before.mode) {
          assert OwnIndex(before) == before.lambda;
          assert SameHead(pd.lambdas[before.lambda], st.lambdas[before.lambda]);
        }
      }
    }
    return Ok(fr.i), fr.nameofs;
  }
}
