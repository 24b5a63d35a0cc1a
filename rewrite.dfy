/**
  What `generate_code` does to a piece of the source that holds no anchor:
  every top-level lambda in it, from its keyword through the byte after its
  body, becomes `(&lambda_N)`, and the lambdas nested in one are dropped
  with it.  `TopLevel` picks the replaced lambdas and `Splice` replaces
  byte ranges; both are defined here without anchors or the generator's
  loop, and `CodeLoopSplices` proves the generator equal to them.
*/
module Rewrite {
  import opened Wrappers
  import opened Scan
  import opened GenerateSpec

  /** The bytes `[from, to)` of the text, to be replaced by a reference to lambda `index`. */
  datatype Cut = Cut(index: nat, from: nat, to: nat)

  /** The expression that stands for lambda `n` in the rewritten text. */
  function Reference(n: nat): string
  {
    "(&lambda_" + Decimal(n) + ")"
  }

  /** One past the last byte of a lambda: its body and the `}` (or `;`) after it. */
  function Past(rec: Lambda): nat
  {
    rec.body.begin + rec.body.length + 1
  }

  /** Cuts in text order, disjoint, inside `[pos, end]`. */
  predicate Fits(cuts: seq<Cut>, pos: nat, end: nat)
    decreases |cuts|
  {
    && pos <= end
    && (cuts != [] ==> pos <= cuts[0].from <= cuts[0].to <= end && Fits(cuts[1..], cuts[0].to, end))
  }

  /** The text `[pos, end)` with the bytes of each cut replaced by the reference to its lambda. */
  function Splice(data: seq<char>, pos: nat, end: nat, cuts: seq<Cut>): (r: string)
    requires end <= |data| && Fits(cuts, pos, end)
    ensures cuts == [] ==> r == data[pos..end]
    decreases |cuts|
  {
    if cuts == [] then data[pos..end]
    else data[pos..cuts[0].from] + Reference(cuts[0].index) + Splice(data, cuts[0].to, end, cuts[1..])
  }

  /**
    The lambdas from index `lam` on that a scan from `pos` replaces, up to
    the first one starting past `end`: a lambda starting before the point
    reached is nested in the one replaced last and is passed over.
  */
  function TopLevel(ls: seq<Lambda>, lam: nat, pos: nat, end: nat): (r: seq<Cut>)
    ensures forall c :: c in r ==> lam <= c.index < |ls| && c.from == ls[c.index].start && c.to == Past(ls[c.index])
    ensures forall c :: c in r ==> c.from <= end
    ensures r != [] ==> pos <= r[0].from
    decreases |ls| - lam
  {
    if lam >= |ls| || ls[lam].start > end then []
    else if ls[lam].start < pos then TopLevel(ls, lam + 1, pos, end)
    else [Cut(lam, ls[lam].start, Past(ls[lam]))] + TopLevel(ls, lam + 1, Past(ls[lam]), end)
  }

  /** Records in ascending order of their keywords, as the scanner leaves them. */
  predicate Ascending(ls: seq<Lambda>)
  {
    forall a, b :: 0 <= a < b < |ls| ==> ls[a].start < ls[b].start
  }

  /**
    Every lambda that starts in `[pos, end]` is replaced, or starts strictly
    inside the bytes of a replaced one.
  */
  lemma {:induction false} TopLevelCovers(ls: seq<Lambda>, lam: nat, pos: nat, end: nat, k: nat)
    requires Ascending(ls) && lam <= k < |ls| && pos <= ls[k].start <= end
    ensures var cuts := TopLevel(ls, lam, pos, end);
      || (exists c :: c in cuts && c.index == k)
      || (exists c :: c in cuts && c.from < ls[k].start < c.to)
    decreases |ls| - lam
  {
    var cuts := TopLevel(ls, lam, pos, end);
    assert ls[lam].start <= ls[k].start by {
      if lam < k { assert ls[lam].start < ls[k].start; }
    }
    if ls[lam].start < pos {
      assert lam < k;
      TopLevelCovers(ls, lam + 1, pos, end, k);
    } else if lam == k {
      assert cuts[0] == Cut(k, ls[k].start, Past(ls[k]));
      assert cuts[0] in cuts;
    } else {
      var c := Cut(lam, ls[lam].start, Past(ls[lam]));
      assert cuts == [c] + TopLevel(ls, lam + 1, Past(ls[lam]), end);
      assert c in cuts;
      if ls[k].start < Past(ls[lam]) {
        assert c.from < ls[k].start < c.to;
      } else {
        TopLevelCovers(ls, lam + 1, Past(ls[lam]), end, k);
        var rest := TopLevel(ls, lam + 1, Past(ls[lam]), end);
        assert forall d :: d in rest ==> d in cuts;
      }
    }
  }

  /** Passing over nested lambdas one by one picks the cuts that `SkipFrom` resumes with. */
  lemma {:induction false} TopLevelSkip(g: Gen, lam: nat, pos: nat, end: nat)
    requires lam <= |g.lambdas|
    ensures TopLevel(g.lambdas, lam, pos, end) == TopLevel(g.lambdas, SkipFrom(g, lam, pos), pos, end)
    decreases |g.lambdas| - lam
  {
    if lam < |g.lambdas| && g.lambdas[lam].start < pos {
      TopLevelSkip(g, lam + 1, pos, end);
    }
  }

  /** An anchor index the loop of `generate_code` can read, or the count standing for none. */
  predicate ProtoOk(g: Gen, proto: int)
  {
    0 <= proto <= |g.positions|
  }

  /** No anchor lies in `[pos, end]`: no definitions are inserted there. */
  predicate NoAnchorIn(g: Gen, pos: nat, end: nat)
  {
    forall k :: 0 <= k < |g.positions| ==> g.positions[k].pos < pos || g.positions[k].pos > end
  }

  /** The first anchor is at or before every lambda from `lam` on, as the outermost scan records it. */
  predicate AnchoredFrom(g: Gen, lam: nat)
  {
    |g.positions| >= 1 && forall k :: lam <= k < |g.lambdas| ==> g.positions[0].pos <= g.lambdas[k].start
  }

  /** Past a replaced lambda, `next_prototype_position` gives an index the loop can read. */
  lemma {:induction false} NextProtoOk(g: Gen, lam: nat, proto: int)
    requires lam <= |g.lambdas| && ProtoOk(g, proto) && AnchoredFrom(g, lam)
    ensures NextProto(g, lam, proto).Some? && ProtoOk(g, NextProto(g, lam, proto).value)
    decreases |g.positions| - proto
  {
    if lam < |g.lambdas| && proto < |g.positions| && g.positions[proto].pos <= g.lambdas[lam].start {
      NextProtoOk(g, lam, proto + 1);
    }
  }

  /** Each lambda from `lam` on ends past its keyword, as every record the scanner forms does. */
  predicate Extends(g: Gen, lam: nat)
  {
    forall k :: lam <= k < |g.lambdas| ==> g.lambdas[k].start < Past(g.lambdas[k])
  }

  /**
    What makes the piece `[pos, end)` with lambdas from `lam` on a plain
    rewrite: no anchor in it, the first anchor before the lambdas, no lambda
    from `lam` on starting before the piece, and every top-level lambda in
    it ending inside it.
  */
  predicate Spliceable(g: Gen, pos: nat, end: nat, lam: nat)
  {
    && lam <= |g.lambdas| && pos <= end <= |g.data|
    && NoAnchorIn(g, pos, end) && AnchoredFrom(g, lam) && Extends(g, lam)
    && (lam == |g.lambdas| || g.lambdas[lam].start >= pos)
    && Fits(TopLevel(g.lambdas, lam, pos, end), pos, end)
  }

  /**
    `generate_code` over a piece with no anchor in it writes exactly the
    piece with its top-level lambdas replaced, when each of them ends
    inside the piece.
  */
  lemma {:induction false} CodeLoopSplices(g: Gen, pos: nat, end: nat, lam: nat, proto: int)
    requires Spliceable(g, pos, end, lam) && ProtoOk(g, proto)
    ensures CodeLoop(g, pos, end - pos, lam, proto) == Some(Splice(g.data, pos, end, TopLevel(g.lambdas, lam, pos, end)))
    decreases |g.lambdas| - lam, 1
  {
    var cuts := TopLevel(g.lambdas, lam, pos, end);
    if pos == end {
      if cuts != [] {
        assert false;
      }
      assert g.data[pos..pos] == [];
    } else if lam == |g.lambdas| || g.lambdas[lam].start > end {
      LoopCopies(g, pos, end - pos, lam, proto);
    } else {
      CodeLoopCut(g, pos, end, lam, proto);
    }
  }

  /** A piece whose next lambda starts in it: that lambda is replaced and the loop goes on past it. */
  lemma {:induction false} CodeLoopCut(g: Gen, pos: nat, end: nat, lam: nat, proto: int)
    requires Spliceable(g, pos, end, lam) && ProtoOk(g, proto)
    requires pos < end && lam < |g.lambdas| && g.lambdas[lam].start <= end
    ensures CodeLoop(g, pos, end - pos, lam, proto) == Some(Splice(g.data, pos, end, TopLevel(g.lambdas, lam, pos, end)))
    decreases |g.lambdas| - lam, 0
  {
    var pos2 := Past(g.lambdas[lam]);
    var lam2 := SkipFrom(g, lam + 1, pos2);
    CutStep(g, pos, end, lam);
    NextProtoOk(g, lam2, proto);
    var proto2 := NextProto(g, lam2, proto).value;
    CodeLoopSplices(g, pos2, end, lam2, proto2);
    var rest := Splice(g.data, pos2, end, TopLevel(g.lambdas, lam2, pos2, end));
    ReplaceCut(g, pos, end - pos, lam, proto, proto2, rest);
    LoopReplaces(g, pos, end - pos, lam, proto);
  }

  /** With no anchor in the piece, an iteration of the loop goes straight to the lambda test. */
  lemma LoopReplaces(g: Gen, pos: nat, len: nat, lam: nat, proto: int)
    requires lam <= |g.lambdas| && len > 0 && ProtoOk(g, proto) && NoAnchorIn(g, pos, pos + len)
    ensures CodeLoop(g, pos, len, lam, proto) == Replace(g, pos, len, lam, proto)
  {
  }

  /** With no lambda left in the piece, the loop copies it. */
  lemma LoopCopies(g: Gen, pos: nat, len: nat, lam: nat, proto: int)
    requires lam <= |g.lambdas| && len > 0 && ProtoOk(g, proto) && NoAnchorIn(g, pos, pos + len) && pos + len <= |g.data|
    requires lam == |g.lambdas| || g.lambdas[lam].start > pos + len
    ensures CodeLoop(g, pos, len, lam, proto) == Some(g.data[pos..pos + len])
    ensures TopLevel(g.lambdas, lam, pos, pos + len) == []
  {
    LoopReplaces(g, pos, len, lam, proto);
  }

  /** What holds of a piece holds of its tail and of the later lambdas. */
  lemma Narrowed(g: Gen, lam: nat, lam2: nat, pos: nat, pos2: nat, end: nat)
    requires lam <= lam2 <= |g.lambdas| && pos <= pos2
    requires NoAnchorIn(g, pos, end) && AnchoredFrom(g, lam) && Extends(g, lam)
    ensures NoAnchorIn(g, pos2, end) && AnchoredFrom(g, lam2) && Extends(g, lam2)
  {
  }

  /** The first cut of a piece: the piece is the bytes before it, its reference, and the rest spliced alike. */
  lemma CutStep(g: Gen, pos: nat, end: nat, lam: nat)
    requires Spliceable(g, pos, end, lam) && lam < |g.lambdas| && g.lambdas[lam].start <= end
    ensures var rec := g.lambdas[lam]; var pos2 := Past(rec); var lam2 := SkipFrom(g, lam + 1, pos2);
      && pos <= rec.start <= pos2 <= end
      && Spliceable(g, pos2, end, lam2)
      && Splice(g.data, pos, end, TopLevel(g.lambdas, lam, pos, end))
         == g.data[pos..rec.start] + Reference(lam) + Splice(g.data, pos2, end, TopLevel(g.lambdas, lam2, pos2, end))
  {
    var rec := g.lambdas[lam];
    var pos2 := Past(rec);
    var cuts := TopLevel(g.lambdas, lam, pos, end);
    var tail := TopLevel(g.lambdas, lam + 1, pos2, end);
    assert cuts == [Cut(lam, rec.start, pos2)] + tail;
    assert cuts[1..] == tail;
    TopLevelSkip(g, lam + 1, pos2, end);
    Narrowed(g, lam, SkipFrom(g, lam + 1, pos2), pos, pos2, end);
  }

  /** One replaced lambda: the bytes before its keyword, its reference, then the rest of the piece. */
  lemma ReplaceCut(g: Gen, pos: nat, len: nat, lam: nat, proto: int, proto2: int, rest: string)
    requires lam < |g.lambdas| && pos + len <= |g.data|
    requires pos <= g.lambdas[lam].start <= Past(g.lambdas[lam]) <= pos + len
    requires NextProto(g, SkipFrom(g, lam + 1, Past(g.lambdas[lam])), proto) == Some(proto2)
    requires var pos2 := Past(g.lambdas[lam]);
      CodeLoop(g, pos2, len - (pos2 - pos), SkipFrom(g, lam + 1, pos2), proto2) == Some(rest)
    ensures Replace(g, pos, len, lam, proto) == Some(g.data[pos..g.lambdas[lam].start] + Reference(lam) + rest)
  {
    var before := g.data[pos..g.lambdas[lam].start];
    assert Replace(g, pos, len, lam, proto) == Some(before + "(&lambda_" + Decimal(lam) + ")" + rest);
    assert before + "(&lambda_" + Decimal(lam) + ")" + rest == before + Reference(lam) + rest;
  }

  /**
    The body of a hoisted definition (`source_only`) is its bytes with its
    top-level lambdas replaced.  Past a nested lambda the loop looks at the
    last anchor again, so the body must hold no anchor.
  */
  lemma BodySplices(g: Gen, idx: nat)
    requires idx < |g.lambdas| && AnchoredFrom(g, idx + 1) && Extends(g, idx + 1)
    requires var rec := g.lambdas[idx]; var end := Past(rec);
      && end <= |g.data| && NoAnchorIn(g, rec.body.begin, end)
      && (idx + 1 == |g.lambdas| || g.lambdas[idx + 1].start >= rec.body.begin)
      && Fits(TopLevel(g.lambdas, idx + 1, rec.body.begin, end), rec.body.begin, end)
    ensures var rec := g.lambdas[idx];
      Code(g, rec.body.begin, rec.body.length + 1, idx + 1, true)
        == Some(Splice(g.data, rec.body.begin, Past(rec), TopLevel(g.lambdas, idx + 1, rec.body.begin, Past(rec))))
  {
    var rec := g.lambdas[idx];
    CodeLoopSplices(g, rec.body.begin, Past(rec), idx + 1, |g.positions|);
  }
}
