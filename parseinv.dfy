/**
  What the scanner of module `ParseSpec` guarantees about the records and
  anchors it leaves behind, proved by induction along its own recursion.

  A record is `Formed` when its offsets describe the text as `parse` scanned
  it: the signature starts at the first non-blank byte after the keyword,
  the body starts where the signature ends (or past `=>`), and a sealed body
  ends just before its `}` (or its `;`, for a short lambda).  `Records` adds
  that records are in the order of their keywords, each one starting before
  the offset the scan has reached; `Anchors` says that every anchor is at a
  non-blank byte of the text and that anchors come in text order.  These are
  the facts `lambda_generate` relies on when it cuts the text apart.
*/
module ParseInvariants {
  import opened CharClass
  import opened Scan
  import opened ParseSpec

  /** A record whose offsets are those of a lambda in `data`. */
  predicate Formed(data: seq<char>, rec: Lambda)
  {
    && rec.start + KeyLength <= |data|
    && rec.decl.begin == WhiteEnd(data, rec.start + KeyLength)
    && rec.decl.begin + rec.decl.length <= rec.body.begin <= |data|
    && (!rec.isShort ==> rec.body.begin == rec.decl.begin + rec.decl.length)
    && (!rec.isShort && rec.body.begin < |data| ==> data[rec.body.begin] == '{')
    && (rec.isShort ==> 2 <= rec.body.begin && data[rec.body.begin - 2] == '=' && data[rec.body.begin - 1] == '>')
    && (rec.endLine > 0 ==>
          && rec.body.begin + rec.body.length < |data|
          && data[rec.body.begin + rec.body.length] == (if rec.isShort then ';' else '}'))
  }

  /** Formed records, in ascending order of their starts, each starting before `bound`. */
  predicate Records(data: seq<char>, ls: seq<Lambda>, bound: nat)
  {
    && (forall k :: 0 <= k < |ls| ==> Formed(data, ls[k]) && ls[k].start < bound)
    && (forall a, b :: 0 <= a < b < |ls| ==> ls[a].start < ls[b].start)
  }

  /** Anchors at non-blank bytes of `data` before `bound`, in ascending order. */
  predicate Anchors(data: seq<char>, ps: seq<Position>, bound: nat)
  {
    && (forall k :: 0 <= k < |ps| ==> ps[k].pos < bound && ps[k].pos < |data| && !IsSpace(data[ps[k].pos]))
    && (forall a, b :: 0 <= a < b < |ps| ==> ps[a].pos < ps[b].pos)
  }

  /** What a call's own record knows about the kind of body being scanned. */
  predicate OwnKind(st: State, fr: Frame)
  {
    Owns(fr.mode) ==> fr.lambda < |st.lambdas| && st.lambdas[fr.lambda].isShort == (fr.mode == Expression)
  }

  /**
    The invariant of the loop of `parse` at the top of an iteration: a
    pending anchor of the outermost call is at the byte about to be read.
  */
  predicate Ahead(data: seq<char>, st: State, fr: Frame)
  {
    && st.line >= 1
    && (fr.mode != Type ==> Records(data, st.lambdas, fr.j))
    && OwnKind(st, fr)
    && (fr.mode == Normal ==>
          && Anchors(data, st.positions, fr.i)
          && (fr.protomove ==> fr.protopos == fr.i && fr.parens == []))
  }

  /** The invariant once the anchor of the byte at `fr.i`, if any, is recorded. */
  predicate Settled(data: seq<char>, st: State, fr: Frame)
  {
    && st.line >= 1
    && (fr.mode != Type ==> Records(data, st.lambdas, fr.j))
    && OwnKind(st, fr)
    && (fr.mode == Normal ==> Anchors(data, st.positions, fr.i + 1) && !fr.protomove)
  }

  /** The invariant after `parse_word` returned `k` for the delimiter at `fr.i`. */
  predicate Resumed(data: seq<char>, st: State, fr: Frame, k: nat)
  {
    && st.line >= 1
    && (fr.mode != Type ==> Records(data, st.lambdas, k))
    && OwnKind(st, fr)
    && (fr.mode == Normal ==> Anchors(data, st.positions, fr.i + 1) && !fr.protomove)
  }

  /** What a call in mode `mode` leaves when it returns. */
  predicate Final(inp: Input, mode: Mode, p: Parsed)
  {
    && p.st.line >= 1
    && (p.outcome.Ok? && mode == Type ==> TypeEnd(inp, p.outcome.pos))
    && (p.outcome.Ok? && mode != Type ==> Records(inp.data, p.st.lambdas, p.outcome.pos))
    && (p.outcome.Ok? && mode == Normal ==> Anchors(inp.data, p.st.positions, |inp.data|))
  }

  /** Where a signature ends: at the end of the text, at the `{` of a body, or at `=>`. */
  predicate TypeEnd(inp: Input, pos: nat)
  {
    || pos >= |inp.data|
    || inp.data[pos] == '{'
    || (inp.shortEnabled && pos + 1 < |inp.data| && inp.data[pos] == '=' && inp.data[pos + 1] == '>')
  }

  /** After an iteration: the loop invariant again, or what the call returns. */
  predicate Ends(inp: Input, fr: Frame, r: Iteration)
  {
    match r
    case Next(fr2, st2) => Ahead(inp.data, st2, fr2)
    case Done(p) => Final(inp, fr.mode, p)
  }

  /** A formed record with a later start may follow formed records. */
  lemma RecordsAppend(data: seq<char>, ls: seq<Lambda>, rec: Lambda, bound: nat)
    requires Records(data, ls, rec.start) && Formed(data, rec) && rec.start < bound
    ensures Records(data, ls + [rec], bound)
  {
    var ls2 := ls + [rec];
    forall a, b | 0 <= a < b < |ls2|
      ensures ls2[a].start < ls2[b].start
    {
      if b == |ls| {
        assert ls2[a] == ls[a];
      } else {
        assert ls2[a] == ls[a] && ls2[b] == ls[b];
      }
    }
  }

  /** Replacing a record by a formed one with the same start keeps the records in order. */
  lemma RecordsUpdate(data: seq<char>, ls: seq<Lambda>, idx: nat, rec: Lambda, bound: nat)
    requires Records(data, ls, bound) && idx < |ls| && Formed(data, rec) && rec.start == ls[idx].start
    ensures Records(data, ls[idx := rec], bound)
  {
    var ls2 := ls[idx := rec];
    forall a, b | 0 <= a < b < |ls2|
      ensures ls2[a].start < ls2[b].start
    {
      assert ls2[a].start == ls[a].start && ls2[b].start == ls[b].start;
    }
  }

  /** A non-blank byte past every anchor becomes the last anchor. */
  lemma AnchorsPush(data: seq<char>, ps: seq<Position>, line: nat, p: nat)
    requires Anchors(data, ps, p) && p < |data| && !IsSpace(data[p])
    ensures Anchors(data, ps + [Position(p, line)], p + 1)
  {
    var ps2 := ps + [Position(p, line)];
    forall a, b | 0 <= a < b < |ps2|
      ensures ps2[a].pos < ps2[b].pos
    {
      assert ps2[a] == ps[a];
      if b < |ps| {
        assert ps2[b] == ps[b];
      }
    }
  }

  /** `finish_lambda` seals a formed record at the byte that ends its body. */
  lemma FinishInv(inp: Input, st: State, fr: Frame, k: nat)
    requires Owns(fr.mode) && OwnOk(st, fr) && fr.j <= k
    requires k < |inp.data| && inp.data[k] == (if fr.mode == Expression then ';' else '}')
    requires st.line >= 1 && Records(inp.data, st.lambdas, k) && OwnKind(st, fr)
    ensures Final(inp, fr.mode, Finish(st, fr, k).res)
  {
    var rec := st.lambdas[fr.lambda];
    var sealed := rec.(body := Range(rec.body.begin, k - rec.body.begin), endLine := st.line);
    RecordsUpdate(inp.data, st.lambdas, fr.lambda, sealed, k);
  }

  /** A literal is skipped to past its closing quote. */
  lemma LiteralInv(inp: Input, st0: State, fr: Frame, st: State, k: nat)
    requires Resumable(inp, st0, fr, st, k) && Resumed(inp.data, st, fr, k)
    requires var c := inp.data[fr.i]; c == '"' || c == '\''
    ensures Ends(inp, fr, Literal(inp, st0, fr, st, k))
  {
  }

  /** An opener moves the scan past itself. */
  lemma OpeningInv(inp: Input, st0: State, fr: Frame, st: State, k: nat)
    requires Resumable(inp, st0, fr, st, k) && Resumed(inp.data, st, fr, k)
    requires var c := inp.data[fr.i]; c != '"' && c != '\'' && IsOpener(c)
    ensures Ends(inp, fr, Opening(inp, st0, fr, st, k))
  {
  }

  /** A depth-zero `}` of the outermost call starts a pending anchor just past itself. */
  lemma ClosingInv(inp: Input, st0: State, fr: Frame, st: State, k: nat)
    requires Resumable(inp, st0, fr, st, k) && Resumed(inp.data, st, fr, k)
    requires var c := inp.data[fr.i]; c != '"' && c != '\'' && !IsOpener(c) && IsCloser(c)
    ensures Ends(inp, fr, Closing(inp, st0, fr, st, k))
  {
  }

  /** A `;` ending a short body seals a formed record. */
  lemma DelimitedInv(inp: Input, st0: State, fr: Frame, st: State, k: nat)
    requires Resumable(inp, st0, fr, st, k) && Resumed(inp.data, st, fr, k)
    requires var c := inp.data[fr.i]; c != '"' && c != '\'' && !IsOpener(c) && !IsCloser(c)
    ensures Ends(inp, fr, Delimited(inp, st0, fr, st, k))
  {
    var data := inp.data;
    if fr.parens == [] && fr.mode == Expression && k < |data| && data[k] == ';' {
      assert st.lambdas[fr.lambda] == st0.lambdas[fr.lambda];
      FinishInv(inp, st, fr, k);
    }
  }

  /** The rest of a delimiter's branch restores the loop invariant or ends the call well. */
  lemma AfterInv(inp: Input, st0: State, fr: Frame, st: State, k: nat)
    requires Resumable(inp, st0, fr, st, k) && Resumed(inp.data, st, fr, k)
    ensures Ends(inp, fr, After(inp, st0, fr, st, k))
  {
    var c := inp.data[fr.i];
    if c == '"' || c == '\'' {
      LiteralInv(inp, st0, fr, st, k);
      assert After(inp, st0, fr, st, k) == Literal(inp, st0, fr, st, k);
    } else if IsOpener(c) {
      OpeningInv(inp, st0, fr, st, k);
      assert After(inp, st0, fr, st, k) == Opening(inp, st0, fr, st, k);
    } else if IsCloser(c) {
      ClosingInv(inp, st0, fr, st, k);
      assert After(inp, st0, fr, st, k) == Closing(inp, st0, fr, st, k);
    } else {
      DelimitedInv(inp, st0, fr, st, k);
      assert After(inp, st0, fr, st, k) == Delimited(inp, st0, fr, st, k);
    }
  }

  /**
    Every call of `parse` leaves formed records in keyword order and, in the
    outermost call, ordered anchors at non-blank bytes.  A lambda's call
    needs the records before it to start before its keyword.
  */
  lemma {:induction false} ParseInv(inp: Input, st: State, e: nat, mode: Mode)
    requires e <= |inp.data| && mode != Expression && (mode == LambdaMode ==> KeyLength <= e)
    requires st.line >= 1
    requires mode != Type ==> Records(inp.data, st.lambdas, if mode == LambdaMode then e - KeyLength else e)
    requires mode == Normal ==> Anchors(inp.data, st.positions, e)
    ensures Final(inp, mode, Parse(inp, st, e, mode))
    decreases Rest(inp.data, e), if mode == Type then 8 else 9, 1
  {
    if mode != LambdaMode {
      LoopInv(inp, st, InitFrame(mode, 0, e, e));
    } else {
      OpenedInv(inp, st, e);
      match Opened(inp, st, e)
      case Done(p) =>
      case Next(fr, st2) => LoopInv(inp, st2, fr);
    }
  }

  /** The head of a lambda appends a formed record and starts its body's loop in the invariant. */
  lemma {:induction false} OpenedInv(inp: Input, st: State, e: nat)
    requires KeyLength <= e <= |inp.data|
    requires st.line >= 1 && Records(inp.data, st.lambdas, e - KeyLength)
    ensures match Opened(inp, st, e)
      case Next(fr, st2) => Ahead(inp.data, st2, fr)
      case Done(p) => p.st.line >= 1
    decreases Rest(inp.data, e), 9, 0
  {
    var data := inp.data;
    var idx := |st.lambdas|;
    var i1 := WhiteEnd(data, e);
    var line1 := st.line + Newlines(data[e..i1]);
    var rec := ZeroLambda.(start := e - KeyLength, decl := Range(i1, 0), declLine := line1);
    var st1 := State(line1, st.lambdas + [rec], st.positions);
    ParseInv(inp, st1, i1, Type);
    var t := Parse(inp, st1, i1, Type);
    if t.outcome.Ok? {
      assert t.st.lambdas[..idx] == st.lambdas;
      SignedInv(inp, e, idx, t);
      assert Opened(inp, st, e) == Signed(inp, e, idx, t);
    } else {
      assert Opened(inp, st, e) == Done(Parsed(t.outcome, t.st, 0));
    }
  }

  /** The loop of a lambda's body starts in the invariant once its formed record is appended. */
  lemma BodyAhead(data: seq<char>, ls: seq<Lambda>, rec: Lambda, ps: seq<Position>, line: nat, mode: Mode, i: nat, e: nat)
    requires Owns(mode) && rec.isShort == (mode == Expression) && line >= 1
    requires Records(data, ls, rec.start) && Formed(data, rec) && rec.start < i
    ensures Ahead(data, State(line, ls + [rec], ps), InitFrame(mode, |ls|, i, e))
  {
    RecordsAppend(data, ls, rec, i);
  }

  /** A signature followed by a body: the record is formed, and owned by the body's loop. */
  lemma SignedInv(inp: Input, e: nat, idx: nat, t: Parsed)
    requires t.outcome.Ok? && t.outcome.pos <= |inp.data| && idx < |t.st.lambdas|
    requires e <= t.st.lambdas[idx].decl.begin <= t.outcome.pos
    requires KeyLength <= e && idx == |t.st.lambdas| - 1 && t.st.line >= 1
    requires var rec := t.st.lambdas[idx];
      && rec.start == e - KeyLength && rec.decl.begin == WhiteEnd(inp.data, e)
      && rec.endLine == 0 && !rec.isShort
    requires Records(inp.data, t.st.lambdas[..idx], e - KeyLength) && TypeEnd(inp, t.outcome.pos)
    ensures match Signed(inp, e, idx, t)
      case Next(fr, st2) => Ahead(inp.data, st2, fr)
      case Done(p) => p.st.line >= 1
  {
    var data := inp.data;
    var ls := t.st.lambdas[..idx];
    var rec := t.st.lambdas[idx];
    var i1 := rec.decl.begin;
    var i2 := t.outcome.pos;
    var rec2 := rec.(nameOffset := t.nameofs - i1, decl := Range(i1, i2 - i1), body := Range(i2, 0), bodyLine := t.st.line);
    var i3 := WhiteEnd(data, i2);
    var line3 := t.st.line + Newlines(data[i2..i3]);
    if inp.shortEnabled && (i3 == |data| || (data[i3] == '=' && i3 + 1 == |data|)) {
    } else if inp.shortEnabled && data[i3] == '=' && data[i3 + 1] == '>' {
      var rec3 := rec2.(body := Range(i3 + 2, 0), isShort := true);
      assert t.st.lambdas[idx := rec3] == ls + [rec3];
      BodyAhead(data, ls, rec3, t.st.positions, line3, Expression, i3 + 2, e);
      assert Signed(inp, e, idx, t) == Next(InitFrame(Expression, idx, i3 + 2, e), State(line3, ls + [rec3], t.st.positions));
    } else {
      assert t.st.lambdas[idx := rec2] == ls + [rec2];
      BodyAhead(data, ls, rec2, t.st.positions, line3, LambdaMode, i3, e);
      assert Signed(inp, e, idx, t) == Next(InitFrame(LambdaMode, idx, i3, e), State(line3, ls + [rec2], t.st.positions));
    }
  }

  /** The loop keeps its invariant to the end of the call. */
  lemma {:induction false} LoopInv(inp: Input, st: State, fr: Frame)
    requires FrameOk(st, fr) && Ahead(inp.data, st, fr)
    ensures Final(inp, fr.mode, Loop(inp, st, fr))
    decreases Rest(inp.data, fr.j), 7, Rest(inp.data, fr.i)
  {
    if fr.i < |inp.data| {
      StepInv(inp, st, fr);
      match Step(inp, st, fr)
      case Done(p) =>
      case Next(fr2, st2) =>
        assert OwnOk(st2, fr2) by {
          if Owns(fr.mode) {
            assert OwnIndex(fr) == fr.lambda;
            assert SameHead(st2.lambdas[fr.lambda], st.lambdas[fr.lambda]);
          }
        }
        LoopInv(inp, st2, fr2);
    }
  }

  /** One iteration keeps the loop invariant. */
  lemma {:induction false} StepInv(inp: Input, st: State, fr: Frame)
    requires fr.i < |inp.data| && FrameOk(st, fr) && Ahead(inp.data, st, fr)
    ensures Ends(inp, fr, Step(inp, st, fr))
    decreases Rest(inp.data, fr.j), 6, 0
  {
    if fr.mode == Normal && fr.parens == [] {
      TopInv(inp, st, fr);
    } else {
      DispatchInv(inp, st, fr);
    }
  }

  /** Blanks move a pending anchor along; past them it is recorded. */
  lemma {:induction false} TopInv(inp: Input, st: State, fr: Frame)
    requires fr.i < |inp.data| && FrameOk(st, fr) && fr.mode == Normal && fr.parens == []
    requires Ahead(inp.data, st, fr)
    ensures Ends(inp, fr, Top(inp, st, fr))
    decreases Rest(inp.data, fr.j), 5, 1
  {
    if !(fr.protomove && IsSpace(inp.data[fr.i])) {
      AnchorInv(inp, st, fr);
    }
  }

  /** A pending anchor is recorded at the non-blank byte it has reached. */
  lemma {:induction false} AnchorInv(inp: Input, st: State, fr: Frame)
    requires fr.i < |inp.data| && FrameOk(st, fr) && fr.mode == Normal && fr.parens == []
    requires Ahead(inp.data, st, fr) && (fr.protomove ==> !IsSpace(inp.data[fr.i]))
    ensures Ends(inp, fr, Anchor(inp, st, fr))
    decreases Rest(inp.data, fr.j), 5, 0
  {
    var c := inp.data[fr.i];
    if fr.protomove {
      AnchorsPush(inp.data, st.positions, st.line, fr.i);
    }
    var st1 := if fr.protomove then st.(positions := st.positions + [Position(fr.protopos, st.line)]) else st;
    var fr1 := fr.(protomove := false);
    if c == ';' || c == '#' || (fr1.preprocessor && c == '\n') {
      MarkInv(inp, st1, fr1);
    } else {
      DispatchInv(inp, st1, fr1);
    }
  }

  /** After a `;`, a `#` or the end of a directive line the next anchor is pending at the next byte. */
  lemma {:induction false} MarkInv(inp: Input, st: State, fr: Frame)
    requires fr.i < |inp.data| && FrameOk(st, fr) && fr.mode == Normal && fr.parens == []
    requires var c := inp.data[fr.i]; c == ';' || c == '#' || (fr.preprocessor && c == '\n')
    requires Settled(inp.data, st, fr)
    ensures Ends(inp, fr, Mark(inp, st, fr))
    decreases Rest(inp.data, fr.j), 3, 0
  {
    PunctuationIsDelimiter(inp.data[fr.i]);
    WordInv(inp, st, fr);
  }

  /** The name-offset bookkeeping changes nothing the invariant speaks of. */
  lemma {:induction false} DispatchInv(inp: Input, st: State, fr: Frame)
    requires fr.i < |inp.data| && FrameOk(st, fr) && Settled(inp.data, st, fr)
    ensures Ends(inp, fr, Dispatch(inp, st, fr))
    decreases Rest(inp.data, fr.j), 4, 0
  {
    var c := inp.data[fr.i];
    if !fr.movename || c == '(' {
      BranchInv(inp, st, fr);
    } else if c != '*' && !IsSpace(c) {
      BranchInv(inp, st, fr.(movename := false));
    } else {
      BranchInv(inp, st, fr.(nameofs := fr.i + 1));
    }
  }

  /** The byte classification keeps the invariant; a `}` ending a body seals a formed record. */
  lemma {:induction false} BranchInv(inp: Input, st: State, fr: Frame)
    requires fr.i < |inp.data| && FrameOk(st, fr) && Settled(inp.data, st, fr)
    ensures Ends(inp, fr, Branch(inp, st, fr))
    decreases Rest(inp.data, fr.j), 3, 0
  {
    var c := inp.data[fr.i];
    if c == '"' || c == '\'' || IsOpener(c) || IsCloser(c) || Delimiter(c) {
      if IsOpener(c) && fr.mode == Type && fr.parens == [] && fr.expectbody && c == '{' {
      } else if IsCloser(c) && fr.parens == [] {
      } else if IsCloser(c) && c != fr.parens[|fr.parens| - 1] {
      } else if IsCloser(c) && c == '}' && |fr.parens| == 1 && fr.mode == LambdaMode {
        FinishInv(inp, st, fr, fr.i);
        assert Branch(inp, st, fr) == Finish(st, fr, fr.i);
      } else {
        ClassifiedInv(inp, st, fr);
        assert Branch(inp, st, fr) == Classified(inp, st, fr);
      }
    }
  }

  /** The word before a delimiter, then the delimiter, keep the invariant. */
  lemma {:induction false} ClassifiedInv(inp: Input, st: State, fr: Frame)
    requires fr.i < |inp.data| && FrameOk(st, fr) && Settled(inp.data, st, fr)
    requires var c := inp.data[fr.i]; c == '"' || c == '\'' || IsOpener(c) || IsCloser(c) || Delimiter(c)
    requires IsCloser(inp.data[fr.i]) ==> fr.parens != [] && inp.data[fr.i] == fr.parens[|fr.parens| - 1]
    requires IsCloser(inp.data[fr.i]) && inp.data[fr.i] == '}' && |fr.parens| == 1 ==> fr.mode != LambdaMode
    ensures Ends(inp, fr, Classified(inp, st, fr))
    decreases Rest(inp.data, fr.j), 2, 0
  {
    var c := inp.data[fr.i];
    assert Delimiter(c) by {
      if !Delimiter(c) { PunctuationIsDelimiter(c); }
    }
    WordInv(inp, st, fr);
    var w := Word(inp, st, fr);
    if w.outcome.Ok? {
      assert OwnKind(w.st, fr) by {
        if Owns(fr.mode) { assert w.st.lambdas[fr.lambda] == st.lambdas[fr.lambda]; }
      }
      AfterInv(inp, st, fr, w.st, w.outcome.pos);
    }
  }

  /** A word leaves formed records, all before the offset it returns. */
  lemma {:induction false} WordInv(inp: Input, st: State, fr: Frame)
    requires fr.j <= fr.i < |inp.data| && Delimiter(inp.data[fr.i])
    requires st.line >= 1 && (fr.mode != Type ==> Records(inp.data, st.lambdas, fr.j))
    ensures var w := Word(inp, st, fr);
      w.st.line >= 1 && (w.outcome.Ok? && fr.mode != Type ==> Records(inp.data, w.st.lambdas, w.outcome.pos))
    decreases Rest(inp.data, fr.j), 1, 0
  {
    if fr.mode != Type {
      ParseWordInv(inp, st, fr.j, fr.i);
    }
  }

  /** `parse_word` leaves formed records, all before the offset it returns. */
  lemma {:induction false} ParseWordInv(inp: Input, st: State, j: nat, i: nat)
    requires j <= i < |inp.data| && Delimiter(inp.data[i])
    requires st.line >= 1 && Records(inp.data, st.lambdas, j)
    ensures var w := ParseWord(inp, st, j, i);
      w.st.line >= 1 && (w.outcome.Ok? ==> Records(inp.data, w.st.lambdas, w.outcome.pos))
    decreases Rest(inp.data, j), 0, 0
  {
    if j != i && KeywordAt(inp.data, j) {
      KeywordBeforeDelimiter(inp.data, j, i);
      ParseInv(inp, st, i, LambdaMode);
    }
  }

  /** A scan of a whole text that succeeds leaves formed, ordered records and ordered anchors. */
  lemma ScanInv(inp: Input)
    ensures var p := Parse(inp, State(1, [], []), 0, Normal);
      p.outcome.Ok? ==>
        && Records(inp.data, p.st.lambdas, p.outcome.pos)
        && Anchors(inp.data, p.st.positions, |inp.data|)
  {
    ParseInv(inp, State(1, [], []), 0, Normal);
  }

  /** The state an iteration hands on, or the one it returns with, is `st`. */
  predicate Untouched(st: State, r: Iteration)
  {
    match r
    case Next(_, st2) => st2 == st
    case Done(p) => p.st == st
  }

  /** An iteration of a signature scan neither counts lines nor records lambdas or anchors. */
  lemma SignatureStepKeeps(inp: Input, st: State, fr: Frame)
    requires fr.i < |inp.data| && FrameOk(st, fr) && fr.mode == Type
    ensures Untouched(st, Step(inp, st, fr))
  {
    var c := inp.data[fr.i];
    var fr1 :=
      if !fr.movename then fr
      else if c != '*' && c != '(' && !IsSpace(c) then fr.(movename := false)
      else if c != '(' then fr.(nameofs := fr.i + 1)
      else fr;
    assert Step(inp, st, fr) == Branch(inp, st, fr1);
    SignatureBranchKeeps(inp, st, fr1);
  }

  /** The branches of a signature iteration; a delimiter's word is not classified. */
  lemma SignatureBranchKeeps(inp: Input, st: State, fr: Frame)
    requires fr.i < |inp.data| && FrameOk(st, fr) && fr.mode == Type
    ensures Untouched(st, Branch(inp, st, fr))
  {
    var c := inp.data[fr.i];
    if (c == '"' || c == '\'' || IsOpener(c) || IsCloser(c) || Delimiter(c))
      && !(IsOpener(c) && fr.parens == [] && fr.expectbody && c == '{')
      && !(IsCloser(c) && (fr.parens == [] || c != fr.parens[|fr.parens| - 1]))
    {
      assert Branch(inp, st, fr) == Classified(inp, st, fr);
      assert Word(inp, st, fr) == Parsed(Ok(fr.i), st, 0);
      assert Classified(inp, st, fr) == After(inp, st, fr, st, fr.i);
      SignatureAfterKeeps(inp, st, fr);
    }
  }

  /** Literals, brackets and other delimiters of a signature move on with the same state. */
  lemma SignatureAfterKeeps(inp: Input, st: State, fr: Frame)
    requires fr.mode == Type && Resumable(inp, st, fr, st, fr.i)
    ensures Untouched(st, After(inp, st, fr, st, fr.i))
  {
  }

  /**
    A signature scan (`parse` with a `nameofs` pointer) never calls
    `parse_word`: it leaves the line counter, the records and the anchors
    as they were.
  */
  lemma {:induction false} SignatureLoopKeeps(inp: Input, st: State, fr: Frame)
    requires FrameOk(st, fr) && fr.mode == Type
    ensures Loop(inp, st, fr).st == st
    decreases Rest(inp.data, fr.j), Rest(inp.data, fr.i)
  {
    if fr.i < |inp.data| {
      SignatureStepKeeps(inp, st, fr);
      match Step(inp, st, fr)
      case Done(p) =>
      case Next(fr2, st2) =>
        SignatureLoopKeeps(inp, st2, fr2);
    }
  }

  /** `parse(source, data, e, PARSE_TYPE, &nameofs)` returns with the state it was given. */
  lemma SignatureScanKeeps(inp: Input, st: State, e: nat)
    requires e <= |inp.data|
    ensures Parse(inp, st, e, Type).st == st
  {
    SignatureLoopKeeps(inp, st, InitFrame(Type, 0, e, e));
  }
}
