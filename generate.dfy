/**
  The generator of lambda.c (lines 430-533) as functions: the text written
  for a scanned source, or `None` where the C code has undefined behaviour
  (a read outside the source buffer or the anchor vector, or a length that
  wraps around below zero).  Output is a `string` standing for what is
  written to the `FILE *`.

  `generate_code` copies a piece of the source, replacing each lambda it
  meets by `(&lambda_N)` and, at an anchor, inserting the definitions of the
  lambdas that follow it (`generate_functions`), each definition's body being
  generated the same way.
*/
module GenerateSpec {
  import opened Wrappers
  import opened Scan
  import opened ParseSpec

  /** The digits of `%zu`. */
  function Decimal(n: nat): (s: string)
    ensures |s| >= 1
    decreases n
  {
    if n < 10 then [DigitChar(n)] else Decimal(n / 10) + [DigitChar(n % 10)]
  }

  function DigitChar(d: nat): char
    requires d < 10
  {
    ['0', '1', '2', '3', '4', '5', '6', '7', '8', '9'][d]
  }

  /** The value of a string of decimal digits. */
  function DecimalValue(s: string): nat
  {
    if s == [] then 0 else DecimalValue(s[..|s| - 1]) * 10 + DigitValue(s[|s| - 1])
  }

  function DigitValue(c: char): nat
  {
    if '0' <= c <= '9' then (c as int - '0' as int) as nat else 0
  }

  /** `%zu` is read back as the number it prints, using digits only. */
  lemma {:induction false} DecimalRoundTrip(n: nat)
    ensures DecimalValue(Decimal(n)) == n
    ensures forall k :: 0 <= k < |Decimal(n)| ==> '0' <= Decimal(n)[k] <= '9'
    decreases n
  {
    if n >= 10 {
      DecimalRoundTrip(n / 10);
      var s := Decimal(n);
      assert s[..|s| - 1] == Decimal(n / 10);
    }
  }

  /** `generate_marker`: a `#line` directive, after a newline when `newline` is set. */
  function Marker(file: string, line: nat, newline: bool): string
  {
    (if newline then "\n" else "") + "#line " + Decimal(line) + " \"" + file + "\"\n"
  }

  /** What the generator reads: the source, its name, and the scanner's two vectors. */
  datatype Gen = Gen(data: seq<char>, file: string, lambdas: seq<Lambda>, positions: seq<Position>)

  /** `source->data[pos .. pos + n]` as `fwrite` reads it; `None` past the end of the buffer. */
  function Bytes(g: Gen, pos: int, n: int): (r: Option<string>)
    ensures r.Some? <==> 0 <= pos && 0 <= n && pos + n <= |g.data|
    ensures r.Some? ==> r.value == g.data[pos..pos + n]
  {
    if 0 <= pos && 0 <= n && pos + n <= |g.data| then Some(g.data[pos..pos + n]) else None
  }

  /**
    `generate_begin`: the `#line` of the declaration, then `static `, the
    declaration with ` lambda_N` spliced in at the name offset.
  */
  function Begin(g: Gen, idx: nat): (r: Option<string>)
    requires idx < |g.lambdas|
  {
    var rec := g.lambdas[idx];
    var ofs := rec.nameOffset;
    var head := Bytes(g, rec.decl.begin, ofs);
    var tail := Bytes(g, rec.decl.begin + ofs, rec.decl.length - ofs);
    if head.None? || tail.None? then None
    else Some(Marker(g.file, rec.declLine, true) + "static " + head.value + " lambda_" + Decimal(idx) + tail.value)
  }

  /**
    `next_prototype_position`: from `proto`, the anchor before the first one
    past the start of lambda `lam`, or the last anchor.  `-1` stands for the
    `(size_t)-1` the C code returns when that is before the first anchor.
  */
  function NextProto(g: Gen, lam: nat, proto: int): (r: Option<int>)
    requires lam <= |g.lambdas|
    ensures r.Some? ==> -1 <= r.value <= |g.positions|
    decreases |g.positions| - proto
  {
    if lam == |g.lambdas| then Some(|g.positions|)
    else if proto == |g.positions| then Some(|g.positions| - 1)
    else if proto < 0 || proto > |g.positions| then None
    else if g.positions[proto].pos > g.lambdas[lam].start then Some(proto - 1)
    else NextProto(g, lam, proto + 1)
  }

  /** The first lambda from `lam` whose start is past `end` (`None` for no bound), or the count. */
  function LastCovered(g: Gen, lam: nat, end: Option<nat>): (r: nat)
    requires lam <= |g.lambdas|
    ensures lam <= r <= |g.lambdas|
    ensures forall k :: lam <= k < r ==> end.None? || g.lambdas[k].start <= end.value
    ensures r < |g.lambdas| ==> end.Some? && g.lambdas[r].start > end.value
    decreases |g.lambdas| - lam
  {
    if lam == |g.lambdas| || (end.Some? && g.lambdas[lam].start > end.value) then lam
    else LastCovered(g, lam + 1, end)
  }

  /** The first lambda from `lam` on that starts at or after `pos`, or the count. */
  function SkipFrom(g: Gen, lam: nat, pos: nat): (r: nat)
    requires lam <= |g.lambdas|
    ensures lam <= r <= |g.lambdas|
    ensures forall k :: lam <= k < r ==> g.lambdas[k].start < pos
    ensures r < |g.lambdas| ==> g.lambdas[r].start >= pos
    decreases |g.lambdas| - lam
  {
    if lam == |g.lambdas| || g.lambdas[lam].start >= pos then lam
    else SkipFrom(g, lam + 1, pos)
  }

  /** `generate_code`: the source piece `[pos, pos + len)`, lambdas from index `lam` on. */
  function Code(g: Gen, pos: nat, len: nat, lam: nat, sourceOnly: bool): Option<string>
    requires lam <= |g.lambdas|
    decreases |g.lambdas| - lam, 4, 0
  {
    if sourceOnly then CodeLoop(g, pos, len, lam, |g.positions|)
    else
      match NextProto(g, lam, 1)
      case None => None
      case Some(proto) => CodeLoop(g, pos, len, lam, proto)
  }

  /** The `while (len)` loop of `generate_code` with anchor index `proto`. */
  function CodeLoop(g: Gen, pos: nat, len: nat, lam: nat, proto: int): Option<string>
    requires lam <= |g.lambdas|
    decreases |g.lambdas| - lam, 3, 0
  {
    if len == 0 then Some([])
    else if proto != |g.positions| && !(0 <= proto < |g.positions|) then None
    else if proto != |g.positions| && pos <= g.positions[proto].pos <= pos + len then
      var point := g.positions[proto].pos;
      var before := Bytes(g, pos, point - pos);
      var defs := Functions(g, lam, proto as nat);
      if before.None? || defs.None? then None
      else
        var rest := Replace(g, point, len - (point - pos), lam, proto);
        if rest.None? then None
        else Some(before.value + defs.value + Marker(g.file, g.positions[proto].line, true) + rest.value)
    else Replace(g, pos, len, lam, proto)
  }

  /** The second half of the loop body: the next lambda, if it starts in the piece, is replaced. */
  function Replace(g: Gen, pos: nat, len: nat, lam: nat, proto: int): Option<string>
    requires lam <= |g.lambdas|
    decreases |g.lambdas| - lam, 2, 0
  {
    if lam == |g.lambdas| || g.lambdas[lam].start > pos + len then Bytes(g, pos, len)
    else
      var rec := g.lambdas[lam];
      var pos2 := rec.body.begin + rec.body.length + 1;
      var length := pos2 - pos;
      var before := Bytes(g, pos, rec.start - pos);
      if before.None? || length > len then None
      else
        var lam2 := SkipFrom(g, lam + 1, pos2);
        match NextProto(g, lam2, proto)
        case None => None
        case Some(proto2) =>
          var rest := CodeLoop(g, pos2, len - length, lam2, proto2);
          if rest.None? then None
          else Some(before.value + "(&lambda_" + Decimal(lam) + ")" + rest.value)
  }

  /**
    `generate_functions`: at anchor `proto`, the definitions of the lambdas
    from `lam` on that start no later than the next anchor, in descending
    index order, then a newline.
  */
  function Functions(g: Gen, lam: nat, proto: nat): Option<string>
    requires lam <= |g.lambdas| && proto < |g.positions|
    decreases |g.lambdas| - lam, 1, 0
  {
    var end := if proto + 1 == |g.positions| then None else Some(g.positions[proto + 1].pos);
    var last := LastCovered(g, lam, end);
    var defs := Definitions(g, lam, last);
    if defs.None? then None else Some(defs.value + "\n")
  }

  /** The definitions of lambdas `last - 1` down to `first`. */
  function Definitions(g: Gen, first: nat, last: nat): Option<string>
    requires first <= last <= |g.lambdas|
    decreases |g.lambdas| - first, 0, last - first
  {
    if last == first then Some([])
    else
      var d := Definition(g, last - 1);
      var rest := Definitions(g, first, last - 1);
      if d.None? || rest.None? then None else Some(d.value + rest.value)
  }

  /** One hoisted definition: its head, then its body, in braces when it was written after `=>`. */
  function Definition(g: Gen, idx: nat): Option<string>
    requires idx < |g.lambdas|
    decreases |g.lambdas| - idx - 1, 5, 0
  {
    var rec := g.lambdas[idx];
    var head := Begin(g, idx);
    var body := Code(g, rec.body.begin, rec.body.length + 1, idx + 1, true);
    if head.None? || body.None? then None
    else Some(head.value + (if rec.isShort then "{" else "") + body.value + (if rec.isShort then "}" else ""))
  }

  /** `generate`: nothing on a scan error; otherwise the marker, the whole text, and a newline. */
  function Generated(inp: Input, file: string): Option<string>
  {
    var p := Parse(inp, State(1, [], []), 0, Normal);
    match p.outcome
    case Err(_, _) => Some([])
    case Undefined => None
    case Ok(_) =>
      var g := Gen(inp.data, file, p.st.lambdas, p.st.positions);
      var code := Code(g, 0, |inp.data|, 0, false);
      if code.None? then None else Some(Marker(file, 1, false) + code.value + "\n")
  }

  /** A scan error makes `generate` return before writing anything. */
  lemma ErrorWritesNothing(inp: Input, file: string)
    requires Parse(inp, State(1, [], []), 0, Normal).outcome.Err?
    ensures Generated(inp, file) == Some([])
  {
  }

  /** A text without lambdas is copied unchanged between the first marker and a final newline. */
  lemma NoLambdaOutput(inp: Input, file: string)
    requires var p := Parse(inp, State(1, [], []), 0, Normal); p.outcome.Ok? && p.st.lambdas == []
    ensures Generated(inp, file) == Some("#line 1 \"" + file + "\"\n" + inp.data + "\n")
  {
    var p := Parse(inp, State(1, [], []), 0, Normal);
    var g := Gen(inp.data, file, p.st.lambdas, p.st.positions);
    assert NextProto(g, 0, 1) == Some(|g.positions|);
    if |inp.data| > 0 {
      assert inp.data[0..|inp.data|] == inp.data;
      assert CodeLoop(g, 0, |inp.data|, 0, |g.positions|) == Replace(g, 0, |inp.data|, 0, |g.positions|);
    }
    assert Code(g, 0, |inp.data|, 0, false) == Some(inp.data);
    assert Decimal(1) == "1";
    assert Marker(file, 1, false) == "#line 1 \"" + file + "\"\n";
    assert Generated(inp, file) == Some(Marker(file, 1, false) + inp.data + "\n");
  }

  /** Definitions of higher indices come first: the descending run splits at any index between. */
  lemma {:induction false} DefinitionsSplit(g: Gen, first: nat, mid: nat, last: nat)
    requires first <= mid <= last <= |g.lambdas|
    ensures var all := Definitions(g, first, last);
      var hi := Definitions(g, mid, last);
      var lo := Definitions(g, first, mid);
      all.Some? <==> hi.Some? && lo.Some?
    ensures Definitions(g, first, last).Some? ==>
      Definitions(g, first, last).value == Definitions(g, mid, last).value + Definitions(g, first, mid).value
    decreases last - mid
  {
    if mid < last {
      DefinitionsSplit(g, first, mid, last - 1);
      var d := Definition(g, last - 1);
      if d.Some? && Definitions(g, first, last - 1).Some? {
        assert Definitions(g, first, last).value
          == d.value + Definitions(g, mid, last - 1).value + Definitions(g, first, mid).value;
      }
    }
  }

  /** Starts in ascending order, as the scanner records them. */
  predicate Ascending(g: Gen)
  {
    forall a, b :: 0 <= a < b < |g.lambdas| ==> g.lambdas[a].start < g.lambdas[b].start
  }

  /** With ascending starts, an anchor receives exactly the lambdas from `lam` that start by `end`. */
  lemma CoveredExactly(g: Gen, lam: nat, end: Option<nat>)
    requires lam <= |g.lambdas| && Ascending(g)
    ensures var r := LastCovered(g, lam, end);
      forall k :: lam <= k < |g.lambdas| ==> (k < r <==> end.None? || g.lambdas[k].start <= end.value)
  {
    var r := LastCovered(g, lam, end);
    forall k | r < k < |g.lambdas|
      ensures g.lambdas[k].start > end.value
    {
      assert g.lambdas[r].start < g.lambdas[k].start;
    }
  }

  /** Anchors in ascending order of offset, as the scanner records them. */
  predicate AnchorsAscending(g: Gen)
  {
    forall a, b :: 0 <= a < b < |g.positions| ==> g.positions[a].pos < g.positions[b].pos
  }

  /**
    Started at an anchor no later than lambda `lam`, `next_prototype_position`
    finds the last anchor at or before the lambda's start.
  */
  lemma {:induction false} NextProtoLastBefore(g: Gen, lam: nat, proto: nat)
    requires lam < |g.lambdas| && proto <= |g.positions| && AnchorsAscending(g)
    requires forall k :: 0 <= k < proto ==> g.positions[k].pos <= g.lambdas[lam].start
    ensures var r := NextProto(g, lam, proto);
      && r.Some?
      && forall k :: 0 <= k < |g.positions| ==> (k <= r.value <==> g.positions[k].pos <= g.lambdas[lam].start)
    decreases |g.positions| - proto
  {
    if proto < |g.positions| && g.positions[proto].pos <= g.lambdas[lam].start {
      NextProtoLastBefore(g, lam, proto + 1);
    } else if proto < |g.positions| {
      forall k | proto < k < |g.positions|
        ensures g.positions[k].pos > g.lambdas[lam].start
      {
        assert g.positions[proto].pos < g.positions[k].pos;
      }
    }
  }
}
