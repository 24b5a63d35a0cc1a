/**
  The generator of lambda.c (lines 430-533) as methods writing to an output
  sink, each proved to write exactly the text the functions of module
  `GenerateSpec` describe.  A method's precondition that the function is not
  `None` excludes the inputs on which the C code has undefined behaviour.
*/
module Generator {
  import opened Wrappers
  import opened Scan
  import opened ParseSpec
  import opened GenerateSpec
  import Parser

  /** The `FILE *` the preprocessor writes to: the text written so far. */
  class Sink {
    var text: string

    constructor ()
      ensures text == []
    {
      text := [];
    }

    /** `fprintf` of an already formatted string. */
    method Write(s: string)
      modifies this
      ensures text == old(text) + s
    {
      text := text + s;
    }
  }

  /** `fwrite(source->data + pos, n, 1, out)`. */
  method WriteBytes(out: Sink, g: Gen, pos: int, n: int)
    requires Bytes(g, pos, n).Some?
    modifies out
    ensures out.text == old(out.text) + Bytes(g, pos, n).value
  {
    out.Write(g.data[pos..pos + n]);
  }

  /** `generate_marker`. */
  method GenerateMarker(out: Sink, file: string, line: nat, newline: bool)
    modifies out
    ensures out.text == old(out.text) + Marker(file, line, newline)
  {
    out.Write((if newline then "\n" else "") + "#line " + Decimal(line) + " \"" + file + "\"\n");
  }

  /** `generate_begin`. */
  method GenerateBegin(out: Sink, g: Gen, idx: nat)
    requires idx < |g.lambdas| && Begin(g, idx).Some?
    modifies out
    ensures out.text == old(out.text) + Begin(g, idx).value
  {
    var rec := g.lambdas[idx];
    ghost var t := old(out.text);
    ghost var m := Marker(g.file, rec.declLine, true);
    GenerateMarker(out, g.file, rec.declLine, true);
    out.Write("static ");
    Regroup(t, m, "static ");
    var ofs := rec.nameOffset;
    WriteBytes(out, g, rec.decl.begin, ofs);
    ghost var head := Bytes(g, rec.decl.begin, ofs).value;
    Regroup(t, m + "static ", head);
    out.Write(" lambda_" + Decimal(idx));
    Regroup(t, m + "static " + head, " lambda_" + Decimal(idx));
    assert m + "static " + head + (" lambda_" + Decimal(idx)) == m + "static " + head + " lambda_" + Decimal(idx);
    WriteBytes(out, g, rec.decl.begin + ofs, rec.decl.length - ofs);
    Regroup(t, m + "static " + head + " lambda_" + Decimal(idx), Bytes(g, rec.decl.begin + ofs, rec.decl.length - ofs).value);
  }

  /** `next_prototype_position`. */
  method NextPrototypePosition(g: Gen, lam: nat, proto: int) returns (r: int)
    requires lam <= |g.lambdas| && NextProto(g, lam, proto).Some?
    ensures NextProto(g, lam, proto) == Some(r)
  {
    if lam == |g.lambdas| {
      return |g.positions|;
    }
    var p := proto;
    while p != |g.positions|
      invariant NextProto(g, lam, p) == NextProto(g, lam, proto)
      invariant 0 <= p <= |g.positions|
      decreases |g.positions| - p
    {
      if g.positions[p].pos > g.lambdas[lam].start {
        return p - 1;
      }
      p := p + 1;
    }
    return |g.positions| - 1;
  }

  /** `generate_functions`. */
  method GenerateFunctions(out: Sink, g: Gen, lam: nat, proto: nat)
    requires lam <= |g.lambdas| && proto < |g.positions| && Functions(g, lam, proto).Some?
    modifies out
    ensures out.text == old(out.text) + Functions(g, lam, proto).value
    decreases |g.lambdas| - lam, 1, 0
  {
    var end := if proto + 1 == |g.positions| then None else Some(g.positions[proto + 1].pos);
    var last := lam;
    while last != |g.lambdas| && !(end.Some? && g.lambdas[last].start > end.value)
      invariant lam <= last <= |g.lambdas|
      invariant LastCovered(g, last, end) == LastCovered(g, lam, end)
      decreases |g.lambdas| - last
    {
      last := last + 1;
    }
    GenerateDefinitions(out, g, lam, last);
    out.Write("\n");
  }

  /** The `while (lam-- != first)` loop of `generate_functions`: definitions `last - 1` down to `first`. */
  method GenerateDefinitions(out: Sink, g: Gen, first: nat, last: nat)
    requires first <= last <= |g.lambdas| && Definitions(g, first, last).Some?
    modifies out
    ensures out.text == old(out.text) + Definitions(g, first, last).value
    decreases |g.lambdas| - first, 0, last - first
  {
    var k := last;
    while k != first
      invariant first <= k <= last
      invariant Definitions(g, k, last).Some? && out.text == old(out.text) + Definitions(g, k, last).value
      decreases k
    {
      k := k - 1;
      DefinitionsPeel(g, first, k, last);
      Regroup(old(out.text), Definitions(g, k + 1, last).value, Definition(g, k).value);
      GenerateDefinition(out, g, k);
    }
  }

  /** The step of the descending loop: definition `k` follows those above it. */
  lemma DefinitionsPeel(g: Gen, first: nat, k: nat, last: nat)
    requires first <= k < last <= |g.lambdas| && Definitions(g, first, last).Some?
    ensures Definition(g, k).Some? && Definitions(g, k + 1, last).Some? && Definitions(g, k, last).Some?
    ensures Definitions(g, k, last).value == Definitions(g, k + 1, last).value + Definition(g, k).value
  {
    DefinitionsSplit(g, first, k, last);
    DefinitionsSplit(g, k, k + 1, last);
    assert Definitions(g, k, k + 1).value == Definition(g, k).value + [];
  }

  /** One iteration of the loop of `generate_functions`: the head, then the body. */
  method GenerateDefinition(out: Sink, g: Gen, idx: nat)
    requires idx < |g.lambdas| && Definition(g, idx).Some?
    modifies out
    ensures out.text == old(out.text) + Definition(g, idx).value
    decreases |g.lambdas| - idx - 1, 5, 0
  {
    var rec := g.lambdas[idx];
    GenerateBegin(out, g, idx);
    if rec.isShort {
      out.Write("{");
    }
    GenerateCode(out, g, rec.body.begin, rec.body.length + 1, idx + 1, true);
    if rec.isShort {
      out.Write("}");
    }
  }

  /** The first half of an iteration of `generate_code`'s loop, when an anchor lies in the piece. */
  lemma CodeLoopUnfold(g: Gen, pos: nat, len: nat, lam: nat, proto: int)
    requires lam <= |g.lambdas| && len != 0 && proto != |g.positions| && CodeLoop(g, pos, len, lam, proto).Some?
    ensures 0 <= proto < |g.positions|
    ensures var point := g.positions[proto].pos;
      pos <= point <= pos + len ==>
        Bytes(g, pos, point - pos).Some? && Functions(g, lam, proto).Some? &&
        Replace(g, point, len - (point - pos), lam, proto).Some? &&
        CodeLoop(g, pos, len, lam, proto).value ==
          Bytes(g, pos, point - pos).value + Functions(g, lam, proto).value +
          Marker(g.file, g.positions[proto].line, true) + Replace(g, point, len - (point - pos), lam, proto).value
    ensures var point := g.positions[proto].pos;
      !(pos <= point <= pos + len) ==> CodeLoop(g, pos, len, lam, proto) == Replace(g, pos, len, lam, proto)
  {
  }

  /** The second half of an iteration, when the next lambda starts in the piece: its bounds. */
  lemma ReplaceBounds(g: Gen, pos: nat, len: nat, lam: nat, proto: int)
    requires lam < |g.lambdas| && g.lambdas[lam].start <= pos + len && Replace(g, pos, len, lam, proto).Some?
    ensures var rec := g.lambdas[lam];
      pos <= rec.start && rec.body.begin + rec.body.length + 1 - pos <= len &&
      Bytes(g, pos, rec.start - pos).Some? &&
      NextProto(g, SkipFrom(g, lam + 1, rec.body.begin + rec.body.length + 1), proto).Some?
  {
  }

  /** ... and the text it stands for, given where the piece continues. */
  lemma ReplaceValue(g: Gen, pos: nat, len: nat, lam: nat, proto: int, pos2: nat, len2: nat, lam2: nat, proto2: int)
    requires lam < |g.lambdas| && g.lambdas[lam].start <= pos + len && Replace(g, pos, len, lam, proto).Some?
    requires pos2 == g.lambdas[lam].body.begin + g.lambdas[lam].body.length + 1 && len2 == len - (pos2 - pos)
    requires lam2 == SkipFrom(g, lam + 1, pos2) && NextProto(g, lam2, proto) == Some(proto2)
    ensures Bytes(g, pos, g.lambdas[lam].start - pos).Some? && CodeLoop(g, pos2, len2, lam2, proto2).Some?
    ensures Replace(g, pos, len, lam, proto).value ==
      Bytes(g, pos, g.lambdas[lam].start - pos).value + "(&lambda_" + Decimal(lam) + ")" + CodeLoop(g, pos2, len2, lam2, proto2).value
  {
  }


  /**
    Lines 479-491 of `generate_code`: when anchor `proto` lies in the piece,
    the text up to it, the hoisted definitions and a marker are written and
    the piece is shortened to start at the anchor.
  */
  method InsertFunctions(out: Sink, g: Gen, pos: nat, len: nat, lam: nat, proto: int) returns (pos2: nat, len2: nat)
    requires lam <= |g.lambdas| && len != 0 && CodeLoop(g, pos, len, lam, proto).Some?
    modifies out
    ensures Replace(g, pos2, len2, lam, proto).Some?
    ensures out.text + Replace(g, pos2, len2, lam, proto).value == old(out.text) + CodeLoop(g, pos, len, lam, proto).value
    decreases |g.lambdas| - lam, 3, 0
  {
    pos2, len2 := pos, len;
    if proto != |g.positions| {
      CodeLoopUnfold(g, pos, len, lam, proto);
      var point := g.positions[proto].pos;
      if pos <= point && pos + len >= point {
        var length := point - pos;
        WriteBytes(out, g, pos, length);
        GenerateFunctions(out, g, lam, proto);
        GenerateMarker(out, g.file, g.positions[proto].line, true);
        len2 := len - length;
        pos2 := pos + length;
        Associate(old(out.text), Bytes(g, pos, length).value, Functions(g, lam, proto).value,
          Marker(g.file, g.positions[proto].line, true), Replace(g, pos2, len2, lam, proto).value);
      }
    }
  }

  /**
    Lines 493-509 of `generate_code`: the rest of the piece when no lambda
    starts in it (`finished`); otherwise the text before the next lambda and
    its replacement, the piece then continuing after the lambda's body with
    the lambdas that start there and the anchor that precedes them.
  */
  method ReplaceNext(out: Sink, g: Gen, pos: nat, len: nat, lam: nat, proto: int)
    returns (finished: bool, pos2: nat, len2: nat, lam2: nat, proto2: int)
    requires lam <= |g.lambdas| && Replace(g, pos, len, lam, proto).Some?
    modifies out
    ensures finished ==> out.text == old(out.text) + Replace(g, pos, len, lam, proto).value
    ensures !finished ==> lam < lam2 <= |g.lambdas| && CodeLoop(g, pos2, len2, lam2, proto2).Some?
    ensures !finished ==>
      out.text + CodeLoop(g, pos2, len2, lam2, proto2).value == old(out.text) + Replace(g, pos, len, lam, proto).value
    decreases |g.lambdas| - lam, 2, 0
  {
    if lam == |g.lambdas| || g.lambdas[lam].start > pos + len {
      WriteBytes(out, g, pos, len);
      return true, pos, len, lam, proto;
    }
    ReplaceBounds(g, pos, len, lam, proto);
    var rec := g.lambdas[lam];
    var length := rec.body.begin + rec.body.length + 1 - pos;
    WriteBytes(out, g, pos, rec.start - pos);
    var reference := "(&lambda_" + Decimal(lam) + ")";
    out.Write(reference);
    len2 := len - length;
    pos2 := pos + length;
    lam2 := SkipStarted(g, lam + 1, pos2);
    proto2 := NextPrototypePosition(g, lam2, proto);
    ReplaceValue(g, pos, len, lam, proto, pos2, len2, lam2, proto2);
    ghost var before := Bytes(g, pos, rec.start - pos).value;
    Regroup(old(out.text), before, reference);
    Regroup(old(out.text), before + reference, CodeLoop(g, pos2, len2, lam2, proto2).value);
    return false, pos2, len2, lam2, proto2;
  }

  /** The loop `for (++lam; ...; ++lam)` of `generate_code`: the first lambda from `lam` on starting at or after `pos`. */
  method SkipStarted(g: Gen, lam: nat, pos: nat) returns (r: nat)
    requires lam <= |g.lambdas|
    ensures r == SkipFrom(g, lam, pos)
  {
    r := lam;
    while r != |g.lambdas| && g.lambdas[r].start < pos
      invariant lam <= r <= |g.lambdas|
      invariant SkipFrom(g, r, pos) == SkipFrom(g, lam, pos)
      decreases |g.lambdas| - r
    {
      r := r + 1;
    }
  }

  /** `generate_code`. */
  method GenerateCode(out: Sink, g: Gen, pos: nat, len: nat, lam: nat, sourceOnly: bool)
    requires lam <= |g.lambdas| && Code(g, pos, len, lam, sourceOnly).Some?
    modifies out
    ensures out.text == old(out.text) + Code(g, pos, len, lam, sourceOnly).value
    decreases |g.lambdas| - lam, 4, 0
  {
    var proto: int;
    if sourceOnly {
      proto := |g.positions|;
    } else {
      proto := NextPrototypePosition(g, lam, 1);
    }
    var p: nat, n: nat, l: nat := pos, len, lam;
    while n != 0
      invariant lam <= l <= |g.lambdas| && CodeLoop(g, p, n, l, proto).Some?
      invariant out.text + CodeLoop(g, p, n, l, proto).value == old(out.text) + Code(g, pos, len, lam, sourceOnly).value
      decreases |g.lambdas| - l
    {
      p, n := InsertFunctions(out, g, p, n, l, proto);
      var finished;
      finished, p, n, l, proto := ReplaceNext(out, g, p, n, l, proto);
      if finished {
        return;
      }
    }
  }

  /** Regrouping of two pieces written one after the other. */
  lemma Regroup(t: string, a: string, b: string)
    ensures t + a + b == t + (a + b)
  {
  }

  /** Regrouping of the pieces written in one iteration. */
  lemma Associate(t: string, a: string, b: string, c: string, r: string)
    ensures t + a + b + c + r == t + (a + b + c + r)
  {
  }


  /**
    `generate`: the source is scanned into fresh vectors; on a scan error
    nothing is written, otherwise the first marker, the text, and a newline.
    The line counter is left where the scan of the whole text leaves it.
  */
  method Generate(out: Sink, src: Parser.Source)
    requires src.line == 1 && Generated(src.Scanned(), src.file).Some?
    modifies out, src
    ensures out.text == old(out.text) + Generated(src.Scanned(), src.file).value
    ensures src.line == ParseSpec.Parse(src.Scanned(), State(1, [], []), 0, Normal).st.line
  {
    var pd := new Parser.ParseData();
    var o, ofs := Parser.Parse(src, pd, 0, Normal);
    if !o.Ok? {
      return;
    }
    GenerateMarker(out, src.file, 1, false);
    var g := Gen(src.data, src.file, pd.lambdas, pd.positions);
    GenerateCode(out, g, 0, |src.data|, 0, false);
    out.Write("\n");
  }
}
