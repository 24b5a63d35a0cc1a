/**
  The recursive scanner `parse` of lambda.c (lines 225-428) as functions.
  `Parse` is one call of the C function, `Loop` its `while` loop and `Step`
  one iteration of that loop, split along the loop body's own blocks
  (`Top`: the anchor bookkeeping of the outermost call, lines 292-332;
  `Dispatch`: the `movename` block, lines 334-339; `Branch`: the byte
  classification, lines 341-409).  `ParseWord` is `parse_word`.  The
  imperative methods of module `Parser` are proved to compute exactly these
  functions.
*/
module ParseSpec {
  import opened CharClass
  import opened Wrappers
  import opened Scan

  /** The locals of one call of `parse`: `mark` is `mode == Normal`, `*nameofs` is `nameofs`. */
  datatype Frame = Frame(
    mode: Mode,
    lambda: nat,
    i: nat,
    j: nat,
    protopos: nat,
    protomove: bool,
    preprocessor: bool,
    expectbody: bool,
    movename: bool,
    parens: seq<char>,
    nameofs: nat)

  /** What a call returns, the state it leaves, and the final `*nameofs`. */
  datatype Parsed = Parsed(outcome: Outcome, st: State, nameofs: nat)

  /** One loop iteration either continues with new locals or leaves `parse`. */
  datatype Iteration = Next(fr: Frame, st: State) | Done(res: Parsed)

  /** The locals on entry to the loop, `i` being where scanning starts and `entry` the call's argument. */
  function InitFrame(mode: Mode, lambda: nat, i: nat, entry: nat): Frame
  {
    Frame(mode, lambda, i, i, entry, true, false, false, false, [], 0)
  }

  /** The bytes left from offset `k`; a termination measure. */
  function Rest(data: seq<char>, k: nat): nat
  {
    if k < |data| then |data| - k else 0
  }

  /** The calls that own a record: the body of a lambda, written out or after `=>`. */
  predicate Owns(mode: Mode)
  {
    mode == LambdaMode || mode == Expression
  }

  function OwnIndex(fr: Frame): int
  {
    if Owns(fr.mode) then fr.lambda else -1
  }

  /** Two records that agree on everything a record has once it is created. */
  predicate SameHead(a: Lambda, b: Lambda)
  {
    && a.start == b.start && a.decl == b.decl && a.body.begin == b.body.begin
    && a.nameOffset == b.nameOffset && a.declLine == b.declLine
    && a.bodyLine == b.bodyLine && a.isShort == b.isShort
  }

  /**
    `after` extends `before`, and every record of `before` is unchanged,
    except that the record `own` may have had its body sealed.
  */
  predicate Keeps(before: seq<Lambda>, after: seq<Lambda>, own: int)
  {
    && |before| <= |after|
    && forall k :: 0 <= k < |before| ==>
         if k == own then SameHead(after[k], before[k]) else after[k] == before[k]
  }

  /** The own record exists and its body starts no later than the word being scanned. */
  predicate OwnOk(st: State, fr: Frame)
  {
    Owns(fr.mode) ==> fr.lambda < |st.lambdas| && st.lambdas[fr.lambda].body.begin <= fr.j
  }

  predicate FrameOk(st: State, fr: Frame)
  {
    fr.j <= fr.i && OwnOk(st, fr)
  }

  /** What each iteration guarantees: progress, and which parts of the state it may touch. */
  predicate StepOk(data: seq<char>, st: State, fr: Frame, r: Iteration)
  {
    match r
    case Next(fr2, st2) =>
      && fr2.mode == fr.mode && fr2.lambda == fr.lambda
      && fr.j <= fr2.j <= fr2.i && fr.i < fr2.i
      && Keeps(st.lambdas, st2.lambdas, OwnIndex(fr))
      && (fr.mode != Normal ==> st2.positions == st.positions)
      && (fr.mode == Type ==> st2.lambdas == st.lambdas && fr2.i <= |data|)
    case Done(p) =>
      && (p.outcome.Ok? ==> p.outcome.pos >= fr.i)
      && Keeps(st.lambdas, p.st.lambdas, OwnIndex(fr))
      && (fr.mode != Normal ==> p.st.positions == st.positions)
      && (fr.mode == Type ==> p.st.lambdas == st.lambdas && (p.outcome.Ok? ==> p.outcome.pos <= |data|))
  }

  /** A word that starts with the keyword ends at least six bytes before the delimiter after it. */
  lemma KeywordBeforeDelimiter(data: seq<char>, j: nat, i: nat)
    requires j < i < |data| && Delimiter(data[i]) && KeywordAt(data, j)
    ensures j + KeyLength <= i
  {
    if i < j + KeyLength {
      assert data[i] == Keyword[i - j];
      AlphaIsLetter(data[i]);
    }
  }

  /** The punctuation `parse` calls `parse_word` at is a word delimiter. */
  lemma PunctuationIsDelimiter(c: char)
    requires c == ';' || c == '#' || c == '\n' || c == '"' || c == '\'' || IsOpener(c) || IsCloser(c)
    ensures Delimiter(c)
  {
    AlphaIsLetter(c);
    DigitIsDecimal(c);
  }

  /** One call of `parse(source, data, e, mode, nameofs)`, `nameofs` being non-NULL exactly in `Type` mode. */
  function Parse(inp: Input, st: State, e: nat, mode: Mode): (r: Parsed)
    requires e <= |inp.data|
    requires mode != Expression
    requires mode == LambdaMode ==> KeyLength <= e
    ensures r.outcome.Ok? ==> r.outcome.pos >= e
    ensures Keeps(st.lambdas, r.st.lambdas, -1)
    ensures mode != Normal ==> r.st.positions == st.positions
    ensures mode == Type ==> r.st.lambdas == st.lambdas && (r.outcome.Ok? ==> r.outcome.pos <= |inp.data|)
    decreases Rest(inp.data, e), if mode == Type then 8 else 9, 1
  {
    if mode != LambdaMode then
      Loop(inp, st, InitFrame(mode, 0, e, e))
    else
      match Opened(inp, st, e)
      case Done(p) => p
      case Next(fr, st2) =>
        var r := Loop(inp, st2, fr);
        KeepsBelowNew(st.lambdas, st2.lambdas, r.st.lambdas);
        r
  }

  /**
    lines 262-290: the head of a lambda.  A record is created at the keyword,
    the signature is scanned in `Type` mode, and the record's declaration is
    filled in; the loop then scans the body, written out or after `=>`.
    `Next` is where that loop starts, `Done` a call that ends before it.
  */
  function Opened(inp: Input, st: State, e: nat): (r: Iteration)
    requires KeyLength <= e <= |inp.data|
    ensures match r
      case Next(fr, st2) =>
        && Owns(fr.mode) && fr.lambda == |st.lambdas| && e <= fr.j && FrameOk(st2, fr)
        && |st2.lambdas| == |st.lambdas| + 1 && st2.lambdas[..|st.lambdas|] == st.lambdas
        && st2.positions == st.positions
      case Done(p) =>
        && !p.outcome.Ok? && p.nameofs == 0
        && Keeps(st.lambdas, p.st.lambdas, -1) && p.st.positions == st.positions
    decreases Rest(inp.data, e), 9, 0
  {
    var data := inp.data;
    var idx := |st.lambdas|;
    var i1 := WhiteEnd(data, e);
    var line1 := st.line + Newlines(data[e..i1]);
    var rec := ZeroLambda.(start := e - KeyLength, decl := Range(i1, 0), declLine := line1);
    var t := Parse(inp, State(line1, st.lambdas + [rec], st.positions), i1, Type);
    if !t.outcome.Ok? then
      Done(Parsed(t.outcome, t.st, 0))
    else
      var r := Signed(inp, e, idx, t);
      assert r.Next? ==> r.st.lambdas[..idx] == t.st.lambdas[..idx];
      assert r.Done? ==> r.res.st.lambdas[..idx] == t.st.lambdas[..idx];
      r
  }

  /**
    lines 270-290: the signature of record `idx` ended at `t`'s offset; its
    declaration is filled in, and either a written-out body or, with short
    lambdas enabled, an expression after `=>` follows.
  */
  function Signed(inp: Input, e: nat, idx: nat, t: Parsed): (r: Iteration)
    requires t.outcome.Ok? && t.outcome.pos <= |inp.data| && idx < |t.st.lambdas|
    requires e <= t.st.lambdas[idx].decl.begin <= t.outcome.pos
    ensures match r
      case Next(fr, st2) =>
        && Owns(fr.mode) && fr.lambda == idx && e <= fr.j && FrameOk(st2, fr)
        && |st2.lambdas| == |t.st.lambdas| && st2.lambdas == t.st.lambdas[idx := st2.lambdas[idx]]
        && st2.positions == t.st.positions
      case Done(p) =>
        && !p.outcome.Ok? && p.nameofs == 0
        && |p.st.lambdas| == |t.st.lambdas| && p.st.lambdas == t.st.lambdas[idx := p.st.lambdas[idx]]
        && p.st.positions == t.st.positions
  {
    var data := inp.data;
    var rec := t.st.lambdas[idx];
    var i1 := rec.decl.begin;
    var i2 := t.outcome.pos;
    var rec2 := rec.(nameOffset := t.nameofs - i1, decl := Range(i1, i2 - i1), body := Range(i2, 0), bodyLine := t.st.line);
    var i3 := WhiteEnd(data, i2);
    var line3 := t.st.line + Newlines(data[i2..i3]);
    if inp.shortEnabled && (i3 == |data| || (data[i3] == '=' && i3 + 1 == |data|)) then
      Done(Parsed(Undefined, State(line3, t.st.lambdas[idx := rec2], t.st.positions), 0))
    else if inp.shortEnabled && data[i3] == '=' && data[i3 + 1] == '>' then
      var rec3 := rec2.(body := Range(i3 + 2, 0), isShort := true);
      Next(InitFrame(Expression, idx, i3 + 2, e), State(line3, t.st.lambdas[idx := rec3], t.st.positions))
    else
      Next(InitFrame(LambdaMode, idx, i3, e), State(line3, t.st.lambdas[idx := rec2], t.st.positions))
  }

  /** A record kept unchanged and then kept up to sealing is kept up to sealing. */
  lemma KeepsChain(a: seq<Lambda>, b: seq<Lambda>, c: seq<Lambda>, own: int)
    requires Keeps(a, b, -1) && Keeps(b, c, own)
    ensures Keeps(a, c, own)
  {
  }

  /** Records kept by a scan that only seals a record of its own are kept by the enclosing call. */
  lemma KeepsBelowNew(before: seq<Lambda>, mid: seq<Lambda>, after: seq<Lambda>)
    requires |mid| == |before| + 1 && mid[..|before|] == before
    requires Keeps(mid, after, |before|)
    ensures Keeps(before, after, -1)
  {
    forall k | 0 <= k < |before|
      ensures after[k] == before[k]
    {
      assert mid[k] == mid[..|before|][k];
    }
  }

  /** The `while (i < source->length)` loop, and the `return i` after it. */
  function Loop(inp: Input, st: State, fr: Frame): (r: Parsed)
    requires FrameOk(st, fr)
    ensures r.outcome.Ok? ==> r.outcome.pos >= fr.i
    ensures Keeps(st.lambdas, r.st.lambdas, OwnIndex(fr))
    ensures fr.mode != Normal ==> r.st.positions == st.positions
    ensures fr.mode == Type ==> r.st.lambdas == st.lambdas
    ensures fr.mode == Type && fr.i <= |inp.data| && r.outcome.Ok? ==> r.outcome.pos <= |inp.data|
    decreases Rest(inp.data, fr.j), 7, Rest(inp.data, fr.i)
  {
    if fr.i >= |inp.data| then
      Parsed(Ok(fr.i), st, fr.nameofs)
    else
      match Step(inp, st, fr)
      case Done(p) => p
      case Next(fr2, st2) =>
        assert OwnOk(st2, fr2) by {
          if Owns(fr.mode) {
            assert OwnIndex(fr) == fr.lambda;
            assert SameHead(st2.lambdas[fr.lambda], st.lambdas[fr.lambda]);
          }
        }
        Loop(inp, st2, fr2)
  }

  /** One iteration: the anchor bookkeeping runs only in the outermost call at depth zero. */
  function Step(inp: Input, st: State, fr: Frame): (r: Iteration)
    requires fr.i < |inp.data| && FrameOk(st, fr)
    ensures StepOk(inp.data, st, fr, r)
    decreases Rest(inp.data, fr.j), 6, 0
  {
    if fr.mode == Normal && fr.parens == [] then Top(inp, st, fr) else Dispatch(inp, st, fr)
  }

  /** `!nameofs && (i = parse_word(source, data, j, i)) == ERROR`: outside `Type` mode the word is classified. */
  function Word(inp: Input, st: State, fr: Frame): (r: Parsed)
    requires fr.j <= fr.i < |inp.data| && Delimiter(inp.data[fr.i])
    ensures r.outcome.Ok? ==> r.outcome.pos >= fr.i
    ensures Keeps(st.lambdas, r.st.lambdas, -1)
    ensures r.st.positions == st.positions
    ensures fr.mode == Type ==> r == Parsed(Ok(fr.i), st, 0)
    decreases Rest(inp.data, fr.j), 1, 0
  {
    if fr.mode == Type then Parsed(Ok(fr.i), st, 0) else ParseWord(inp, st, fr.j, fr.i)
  }

  /** lines 292-332: anchors of the outermost call, at depth zero. */
  function Top(inp: Input, st: State, fr: Frame): (r: Iteration)
    requires fr.i < |inp.data| && FrameOk(st, fr)
    requires fr.mode == Normal && fr.parens == []
    ensures StepOk(inp.data, st, fr, r)
    decreases Rest(inp.data, fr.j), 5, 1
  {
    var c := inp.data[fr.i];
    if fr.protomove && IsSpace(c) then
      Next(fr.(i := fr.i + 1, j := fr.i + 1, protopos := fr.i + 1),
           st.(line := st.line + if c == '\n' then 1 else 0))
    else
      Anchor(inp, st, fr)
  }

  /** lines 299-332: past the blanks, a pending anchor is recorded at `protopos`, then the byte is looked at. */
  function Anchor(inp: Input, st: State, fr: Frame): (r: Iteration)
    requires fr.i < |inp.data| && FrameOk(st, fr)
    requires fr.mode == Normal && fr.parens == []
    ensures StepOk(inp.data, st, fr, r)
    decreases Rest(inp.data, fr.j), 5, 0
  {
    var c := inp.data[fr.i];
    var st1 := if fr.protomove then st.(positions := st.positions + [Position(fr.protopos, st.line)]) else st;
    var fr1 := fr.(protomove := false);
    if c == ';' || c == '#' || (fr1.preprocessor && c == '\n') then
      Mark(inp, st1, fr1)
    else
      Dispatch(inp, st1, fr1)
  }

  /** lines 305-331: a `;`, a `#`, or the newline ending a directive line starts a new anchor. */
  function Mark(inp: Input, st: State, fr: Frame): (r: Iteration)
    requires fr.i < |inp.data| && FrameOk(st, fr)
    requires fr.mode == Normal && fr.parens == []
    requires var c := inp.data[fr.i]; c == ';' || c == '#' || (fr.preprocessor && c == '\n')
    ensures StepOk(inp.data, st, fr, r)
    decreases Rest(inp.data, fr.j), 3, 0
  {
    var c := inp.data[fr.i];
    PunctuationIsDelimiter(c);
    var w := Word(inp, st, fr);
    if !w.outcome.Ok? then
      Done(Parsed(w.outcome, w.st, fr.nameofs))
    else
      var k := w.outcome.pos + 1;
      if c == ';' then
        Next(fr.(i := k, j := k, protomove := true, protopos := k), w.st)
      else if c == '#' then
        Next(fr.(i := k, j := k, protomove := false, protopos := k, preprocessor := true), w.st)
      else
        Next(fr.(i := k, j := k, protomove := true, protopos := k, preprocessor := false), w.st)
  }

  /** lines 334-339: after a depth-zero `(` of a signature, run the name offset over `*` and blanks. */
  function Dispatch(inp: Input, st: State, fr: Frame): (r: Iteration)
    requires fr.i < |inp.data| && FrameOk(st, fr)
    ensures StepOk(inp.data, st, fr, r)
    decreases Rest(inp.data, fr.j), 4, 0
  {
    var c := inp.data[fr.i];
    var fr1 :=
      if !fr.movename then fr
      else if c != '*' && c != '(' && !IsSpace(c) then fr.(movename := false)
      else if c != '(' then fr.(nameofs := fr.i + 1)
      else fr;
    Branch(inp, st, fr1)
  }

  /** `finish_lambda`: seal the own record with the body length and the current line. */
  function Finish(st: State, fr: Frame, k: nat): (r: Iteration)
    requires Owns(fr.mode) && OwnOk(st, fr) && fr.j <= k
    ensures r.Done? && r.res.outcome == Ok(k) && r.res.nameofs == fr.nameofs
    ensures Keeps(st.lambdas, r.res.st.lambdas, fr.lambda) && r.res.st.positions == st.positions
  {
    var rec := st.lambdas[fr.lambda];
    var sealed := rec.(body := Range(rec.body.begin, k - rec.body.begin), endLine := st.line);
    Done(Parsed(Ok(k), st.(lambdas := st.lambdas[fr.lambda := sealed]), fr.nameofs))
  }

  /** lines 341-409: literals, openers, closers, other delimiters and word bytes. */
  function Branch(inp: Input, st: State, fr: Frame): (r: Iteration)
    requires fr.i < |inp.data| && FrameOk(st, fr)
    ensures StepOk(inp.data, st, fr, r)
    decreases Rest(inp.data, fr.j), 3, 0
  {
    var data := inp.data;
    var c := data[fr.i];
    var typ := fr.mode == Type;
    if c == '"' || c == '\'' || IsOpener(c) || IsCloser(c) || Delimiter(c) then
      if IsOpener(c) && typ && fr.parens == [] && fr.expectbody && c == '{' then
        Done(Parsed(Ok(fr.i), st, fr.nameofs))
      else if IsCloser(c) && fr.parens == [] then
        Done(Parsed(Err(st.line, TooManyClosing), st, fr.nameofs))
      else if IsCloser(c) && c != fr.parens[|fr.parens| - 1] then
        Done(Parsed(Err(st.line, Mismatching(fr.parens[|fr.parens| - 1], c)), st, fr.nameofs))
      else if IsCloser(c) && c == '}' && |fr.parens| == 1 && fr.mode == LambdaMode then
        Finish(st, fr, fr.i)
      else
        Classified(inp, st, fr)
    else
      Next(fr.(i := fr.i + 1), st)
  }

  /** A delimiter that does not leave the call: the word before it is classified, then the byte itself. */
  function Classified(inp: Input, st: State, fr: Frame): (r: Iteration)
    requires fr.i < |inp.data| && FrameOk(st, fr)
    requires var c := inp.data[fr.i]; c == '"' || c == '\'' || IsOpener(c) || IsCloser(c) || Delimiter(c)
    requires IsCloser(inp.data[fr.i]) ==> fr.parens != [] && inp.data[fr.i] == fr.parens[|fr.parens| - 1]
    requires IsCloser(inp.data[fr.i]) && inp.data[fr.i] == '}' && |fr.parens| == 1 ==> fr.mode != LambdaMode
    ensures StepOk(inp.data, st, fr, r)
    decreases Rest(inp.data, fr.j), 2, 0
  {
    var c := inp.data[fr.i];
    assert Delimiter(c) by {
      if !Delimiter(c) { PunctuationIsDelimiter(c); }
    }
    var w := Word(inp, st, fr);
    if !w.outcome.Ok? then
      Done(Parsed(w.outcome, w.st, fr.nameofs))
    else
      After(inp, st, fr, w.st, w.outcome.pos)
  }

  /**
    What holds when the byte at `fr.i` is handled after `parse_word` has
    returned `k` and left state `st` (state `st0` being from before it).
  */
  predicate Resumable(inp: Input, st0: State, fr: Frame, st: State, k: nat)
  {
    && fr.i < |inp.data| && FrameOk(st0, fr) && fr.i <= k
    && Keeps(st0.lambdas, st.lambdas, -1)
    && (fr.mode != Normal ==> st.positions == st0.positions)
    && (fr.mode == Type ==> k == fr.i && st == st0)
    && var c := inp.data[fr.i];
    && (c == '"' || c == '\'' || IsOpener(c) || IsCloser(c) || Delimiter(c))
    && (IsCloser(c) ==> fr.parens != [] && c == fr.parens[|fr.parens| - 1])
    && (IsCloser(c) && c == '}' && |fr.parens| == 1 ==> fr.mode != LambdaMode)
  }

  /** The rest of a delimiter's branch of `Branch`, once `parse_word` has returned `k`. */
  function After(inp: Input, st0: State, fr: Frame, st: State, k: nat): (r: Iteration)
    requires Resumable(inp, st0, fr, st, k)
    ensures StepOk(inp.data, st0, fr, r)
  {
    var c := inp.data[fr.i];
    if c == '"' || c == '\'' then Literal(inp, st0, fr, st, k)
    else if IsOpener(c) then Opening(inp, st0, fr, st, k)
    else if IsCloser(c) then Closing(inp, st0, fr, st, k)
    else Delimited(inp, st0, fr, st, k)
  }

  /** A string or character literal is skipped, its quote being the byte at `k`. */
  function Literal(inp: Input, st0: State, fr: Frame, st: State, k: nat): (r: Iteration)
    requires Resumable(inp, st0, fr, st, k)
    requires var c := inp.data[fr.i]; c == '"' || c == '\''
    ensures StepOk(inp.data, st0, fr, r)
  {
    var data := inp.data;
    if k >= |data| then Done(Parsed(Undefined, st, fr.nameofs))
    else
      var e := StringEnd(data, k + 1, data[k]);
      Next(fr.(i := e, j := e), st)
  }

  /** An opener pushes the closer of the byte at `k`; the first depth-zero `(` of a signature starts its parameters. */
  function Opening(inp: Input, st0: State, fr: Frame, st: State, k: nat): (r: Iteration)
    requires Resumable(inp, st0, fr, st, k)
    requires var c := inp.data[fr.i]; c != '"' && c != '\'' && IsOpener(c)
    ensures StepOk(inp.data, st0, fr, r)
  {
    var data := inp.data;
    var c := data[fr.i];
    var fr1 :=
      if fr.mode == Type && fr.parens == [] && !fr.expectbody && c == '(' then fr.(expectbody := true, movename := true, nameofs := fr.i)
      else fr;
    if k >= |data| || Closer(data[k]).None? then Done(Parsed(Undefined, st, fr.nameofs))
    else Next(fr1.(parens := fr.parens + [Closer(data[k]).value], i := k + 1, j := k + 1), st)
  }

  /** A matching closer is popped; a depth-zero `}` restarts the anchor of the outermost call, or arms the name offset of a signature. */
  function Closing(inp: Input, st0: State, fr: Frame, st: State, k: nat): (r: Iteration)
    requires Resumable(inp, st0, fr, st, k)
    requires var c := inp.data[fr.i]; c != '"' && c != '\'' && !IsOpener(c) && IsCloser(c)
    ensures StepOk(inp.data, st0, fr, r)
  {
    var c := inp.data[fr.i];
    var ps := fr.parens[..|fr.parens| - 1];
    var domark := fr.mode == Normal && ps == [] && c == '}';
    var move := if fr.mode == Type && c == '}' && ps == [] && !fr.expectbody then true else fr.movename;
    Next(fr.(parens := ps, movename := move, i := k + 1, j := k + 1,
             protopos := if domark then k + 1 else fr.protopos,
             protomove := if domark then true else fr.protomove), st)
  }

  /** Any other delimiter: at depth zero a `;` ends a short body and `=>` ends a signature. */
  function Delimited(inp: Input, st0: State, fr: Frame, st: State, k: nat): (r: Iteration)
    requires Resumable(inp, st0, fr, st, k)
    requires var c := inp.data[fr.i]; c != '"' && c != '\'' && !IsOpener(c) && !IsCloser(c)
    ensures StepOk(inp.data, st0, fr, r)
  {
    var data := inp.data;
    if fr.parens == [] && fr.mode == Expression && (k >= |data| || data[k] == ';') then
      if k >= |data| then Done(Parsed(Undefined, st, fr.nameofs))
      else
        assert OwnOk(st, fr) by {
          assert st.lambdas[fr.lambda] == st0.lambdas[fr.lambda];
        }
        var f := Finish(st, fr, k);
        KeepsChain(st0.lambdas, st.lambdas, f.res.st.lambdas, fr.lambda);
        f
    else if fr.parens == [] && inp.shortEnabled && fr.mode == Type && fr.expectbody && data[k] == '=' && (k + 1 >= |data| || data[k + 1] == '>') then
      if k + 1 >= |data| then Done(Parsed(Undefined, st, fr.nameofs))
      else Done(Parsed(Ok(k), st, fr.nameofs))
    else
      Next(fr.(i := k + 1, j := k + 1), st)
  }

  /** `parse_word`: a word that starts with the keyword begins a lambda; otherwise newlines and comments. */
  function ParseWord(inp: Input, st: State, j: nat, i: nat): (r: Parsed)
    requires j <= i < |inp.data| && Delimiter(inp.data[i])
    ensures r.outcome.Ok? ==> r.outcome.pos >= i
    ensures Keeps(st.lambdas, r.st.lambdas, -1)
    ensures r.st.positions == st.positions
    decreases Rest(inp.data, j), 0, 0
  {
    var data := inp.data;
    if j != i && KeywordAt(data, j) then
      KeywordBeforeDelimiter(data, j, i);
      var p := Parse(inp, st, i, LambdaMode);
      Parsed(p.outcome, p.st, 0)
    else if data[i] == '\n' then
      Parsed(Ok(i), st.(line := st.line + 1), 0)
    else if data[i] == '/' && i + 1 == |data| then
      Parsed(Undefined, st, 0)
    else if data[i] == '/' && data[i + 1] == '/' then
      match FindNewline(data, i)
      case None => Parsed(Undefined, st, 0)
      case Some(k) => Parsed(Ok(k), st, 0)
    else if data[i] == '/' && data[i + 1] == '*' then
      match FindCommentEnd(data, i)
      case None => Parsed(Undefined, st, 0)
      case Some(k) => Parsed(Ok(k), st, 0)
    else
      Parsed(Ok(i), st, 0)
  }
}
