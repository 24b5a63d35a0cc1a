/**
  The argument logic of the compiler wrapper lambda-cc (lambda-cc.c lines
  163-207 and 245-302): finding the source file and the `-o` output among
  the arguments, and building the shell command that pipes the source
  through lambda-pp into the compiler.  The arguments are those after the
  program name.  The compiler and the lambda-pp directory are given.
*/
module Driver {
  import opened Wrappers
  import opened LccStrings

  type Args = seq<string>

  /** The arguments are C strings: none holds a NUL. */
  predicate CStrings(args: Args)
  {
    forall i :: 0 <= i < |args| ==> NUL !in args[i]
  }

  // ---------------------------------------------------------------------
  // lcc_source_find
  // ---------------------------------------------------------------------

  /** The result of `lcc_source_find`. */
  datatype SourceFile = SourceFile(file: string, index: nat, cpp: bool)

  /** The suffixes of C and C++ sources, `.c` first. */
  const Extensions: seq<string> := [".c", ".cc", ".cx", ".cxx", ".cpp"]

  predicate EndsWith(s: string, suffix: string)
  {
    |suffix| <= |s| && s[|s| - |suffix|..] == suffix
  }

  predicate OccursAt(s: string, pat: string, k: nat)
  {
    k + |pat| <= |s| && s[k..k + |pat|] == pat
  }

  /** `strstr(s + from, pat)`: the first occurrence at or after `from`. */
  function Find(s: string, pat: string, from: nat): (r: Option<nat>)
    requires from <= |s|
    ensures r.Some? ==> from <= r.value && OccursAt(s, pat, r.value)
    ensures r.Some? ==> forall k :: from <= k < r.value ==> !OccursAt(s, pat, k)
    ensures r.None? ==> forall k :: from <= k ==> !OccursAt(s, pat, k)
    decreases |s| - from
  {
    if OccursAt(s, pat, from) then Some(from)
    else if from == |s| then None
    else Find(s, pat, from + 1)
  }

  /** A dot followed by dot-free characters, as every extension is. */
  predicate DotSuffix(ext: string)
  {
    |ext| >= 1 && ext[0] == '.' && forall k :: 1 <= k < |ext| ==> ext[k] != '.'
  }

  lemma ExtensionsDotted()
    ensures forall e :: 0 <= e < |Extensions| ==> DotSuffix(Extensions[e])
  {
    assert DotSuffix(".c") && DotSuffix(".cc") && DotSuffix(".cx") && DotSuffix(".cxx") && DotSuffix(".cpp");
  }

  /** Two occurrences of an extension are at least its length apart. */
  lemma NoOverlap(s: string, ext: string, f: nat, g: nat)
    requires DotSuffix(ext) && OccursAt(s, ext, f) && OccursAt(s, ext, g) && f < g
    ensures f + |ext| <= g
  {
    assert forall j :: f <= j < f + |ext| ==> s[j] == ext[j - f];
  }

  /** The first extension, from index `e` on, that `arg` ends with. */
  function MatchFrom(arg: string, e: nat): (r: Option<nat>)
    requires e <= |Extensions|
    ensures r.Some? ==> e <= r.value < |Extensions| && EndsWith(arg, Extensions[r.value])
    ensures r.Some? ==> forall x :: e <= x < r.value ==> !EndsWith(arg, Extensions[x])
    ensures r.None? ==> forall x :: e <= x < |Extensions| ==> !EndsWith(arg, Extensions[x])
    decreases |Extensions| - e
  {
    if e == |Extensions| then None
    else if EndsWith(arg, Extensions[e]) then Some(e)
    else MatchFrom(arg, e + 1)
  }

  /** The first argument from index `i` on that names a source file. */
  function SourceFrom(args: Args, i: nat): Option<SourceFile>
    requires i <= |args|
    decreases |args| - i
  {
    if i == |args| then None
    else match MatchFrom(args[i], 0)
      case Some(e) => Some(SourceFile(args[i], i, e >= 1))
      case None => SourceFrom(args, i + 1)
  }

  /** The source file lambda-cc compiles, if any argument names one. */
  function SourceOf(args: Args): Option<SourceFile>
  {
    SourceFrom(args, 0)
  }

  predicate IsSource(arg: string)
  {
    exists x :: 0 <= x < |Extensions| && EndsWith(arg, Extensions[x])
  }

  lemma {:induction false} SourceFromSpec(args: Args, i: nat)
    requires i <= |args|
    ensures var r := SourceFrom(args, i);
      (r.Some? <==> exists k :: i <= k < |args| && IsSource(args[k])) &&
      (r.Some? ==> (i <= r.value.index < |args| && r.value.file == args[r.value.index] &&
        IsSource(r.value.file) && forall k :: i <= k < r.value.index ==> !IsSource(args[k])))
    decreases |args| - i
  {
    if i < |args| {
      SourceFromSpec(args, i + 1);
      if MatchFrom(args[i], 0).Some? {
        assert IsSource(args[i]);
      } else {
        assert !IsSource(args[i]);
      }
    }
  }

  /** Distinct extensions are never suffixes of the same argument. */
  lemma OneExtension(arg: string, x: nat, y: nat)
    requires x < y < |Extensions| && EndsWith(arg, Extensions[x])
    ensures !EndsWith(arg, Extensions[y])
  {
    var a, b := Extensions[x], Extensions[y];
    if EndsWith(arg, b) {
      if |a| <= |b| {
        SuffixOfSuffix(arg, a, b);
      } else {
        SuffixOfSuffix(arg, b, a);
      }
      NoExtensionEndsAnother(x, y);
    }
  }

  /** Two suffixes of one string: the shorter ends the longer. */
  lemma SuffixOfSuffix(s: string, a: string, b: string)
    requires EndsWith(s, a) && EndsWith(s, b) && |a| <= |b|
    ensures EndsWith(b, a)
  {
    assert b[|b| - |a|..] == s[|s| - |a|..];
  }

  lemma NoExtensionEndsAnother(x: nat, y: nat)
    requires x < y < |Extensions|
    ensures !EndsWith(Extensions[y], Extensions[x]) && !EndsWith(Extensions[x], Extensions[y])
  {
    var a, b := Extensions[x], Extensions[y];
    assert a[0] == '.' && b[0] == '.';
  }

  /**
    `lcc_source_find` succeeds exactly when some argument ends with a C or
    C++ extension; it picks the first such argument, and marks it C++
    exactly when it does not end with `.c`.
  */
  lemma SourceOfSpec(args: Args)
    ensures var r := SourceOf(args);
      (r.Some? <==> exists k :: 0 <= k < |args| && IsSource(args[k])) &&
      (r.Some? ==> (r.value.index < |args| && r.value.file == args[r.value.index] &&
        IsSource(r.value.file) && (forall k :: 0 <= k < r.value.index ==> !IsSource(args[k])) &&
        (r.value.cpp <==> !EndsWith(r.value.file, ".c"))))
  {
    SourceFromSpec(args, 0);
    CppSuffix(args, 0);
  }

  /** The `cpp` flag of `SourceFrom(args, i)` reflects a suffix other than `.c`. */
  lemma {:induction false} CppSuffix(args: Args, i: nat)
    requires i <= |args|
    ensures var r := SourceFrom(args, i);
      r.Some? ==> r.value.index < |args| && (r.value.cpp <==> !EndsWith(r.value.file, ".c"))
    decreases |args| - i
  {
    if i < |args| {
      var m := MatchFrom(args[i], 0);
      if m.Some? {
        if m.value >= 1 {
          assert !EndsWith(args[i], Extensions[0]);
        }
      } else {
        CppSuffix(args, i + 1);
      }
    }
  }

  /**
    For one extension, the `strstr` search and the `while (find)` loop of
    `lcc_source_find`: whether `arg` ends with `ext`.
  */
  method ScanSuffix(arg: string, ext: string) returns (found: bool)
    requires DotSuffix(ext)
    ensures found == EndsWith(arg, ext)
  {
    var find := Find(arg, ext, 0);
    if EndsWith(arg, ext) {
      assert OccursAt(arg, ext, |arg| - |ext|);
    }
    while find.Some?
      invariant find.Some? ==> OccursAt(arg, ext, find.value)
      invariant EndsWith(arg, ext) ==> find.Some? && find.value <= |arg| - |ext|
      decreases if find.Some? then |arg| + 1 - find.value else 0
    {
      var f := find.value;
      if arg[f..] == ext {
        return true;
      }
      if EndsWith(arg, ext) {
        assert OccursAt(arg, ext, |arg| - |ext|);
        NoOverlap(arg, ext, f, |arg| - |ext|);
      }
      find := Find(arg, ext, f + |ext|);
    }
    return false;
  }

  /** `lcc_source_find`. */
  method SourceFind(args: Args) returns (r: Option<SourceFile>)
    ensures r == SourceOf(args)
  {
    ExtensionsDotted();
    for i := 0 to |args|
      invariant SourceFrom(args, i) == SourceOf(args)
    {
      var arg := args[i];
      for e := 0 to |Extensions|
        invariant MatchFrom(arg, e) == MatchFrom(arg, 0)
      {
        var found := ScanSuffix(arg, Extensions[e]);
        if found {
          return Some(SourceFile(arg, i, e >= 1));
        }
      }
    }
    return None;
  }

  // ---------------------------------------------------------------------
  // lcc_output_find
  // ---------------------------------------------------------------------

  /** The result of `lcc_output_find`: the `-o` and the name after it. */
  datatype OutputFile = OutputFile(output: string, index: nat)

  /** The first `-o` from index `i` on, when an argument follows it. */
  function OutputFrom(args: Args, i: nat): (r: Option<OutputFile>)
    requires i <= |args|
    ensures r.Some? ==> i <= r.value.index && r.value.index + 1 < |args|
    decreases |args| - i
  {
    if i == |args| then None
    else if args[i] == "-o" then
      if i + 1 >= |args| then None else Some(OutputFile(args[i + 1], i))
    else OutputFrom(args, i + 1)
  }

  function OutputOf(args: Args): Option<OutputFile>
  {
    OutputFrom(args, 0)
  }

  /**
    Only the first `-o` counts: the result names it and the argument after
    it, and there is none when no `-o` is given or the first is the last
    argument.
  */
  lemma {:induction false} OutputFromSpec(args: Args, i: nat)
    requires i <= |args|
    ensures var r := OutputFrom(args, i);
      (r.Some? ==> (i <= r.value.index && r.value.index + 1 < |args| && args[r.value.index] == "-o" &&
        r.value.output == args[r.value.index + 1] && forall k :: i <= k < r.value.index ==> args[k] != "-o")) &&
      (r.None? <==> forall k :: i <= k < |args| - 1 ==> args[k] != "-o")
    decreases |args| - i
  {
    if i < |args| && args[i] != "-o" {
      OutputFromSpec(args, i + 1);
    }
  }

  /** `lcc_output_find`. */
  method OutputFind(args: Args) returns (r: Option<OutputFile>)
    ensures r == OutputOf(args)
  {
    for i := 0 to |args|
      invariant OutputFrom(args, i) == OutputOf(args)
    {
      if args[i] != "-o" {
        continue;
      }
      if i + 1 >= |args| {
        return None;
      }
      return Some(OutputFile(args[i + 1], i));
    }
    return None;
  }

  // ---------------------------------------------------------------------
  // The command line of main
  // ---------------------------------------------------------------------

  /** The arguments joined by single spaces. */
  function SpaceJoin(xs: seq<string>): string
    decreases |xs|
  {
    if |xs| == 0 then "" else if |xs| == 1 then xs[0] else xs[0] + " " + SpaceJoin(xs[1..])
  }

  /** The arguments each followed by a space, as the `"%s "` appends write them. */
  function Spaced(xs: seq<string>): string
    decreases |xs|
  {
    if |xs| == 0 then "" else Spaced(xs[..|xs| - 1]) + xs[|xs| - 1] + " "
  }

  /** The arguments each preceded by a space, as the `" %s"` appends write them. */
  function Prefixed(xs: seq<string>): string
    decreases |xs|
  {
    if |xs| == 0 then "" else Prefixed(xs[..|xs| - 1]) + " " + xs[|xs| - 1]
  }

  /** Cutting the last character off the spaced arguments leaves them space-joined. */
  lemma {:induction false} TrimmedSpaced(xs: seq<string>)
    ensures DropLast(Spaced(xs)) == SpaceJoin(xs)
    decreases |xs|
  {
    if |xs| >= 1 {
      var init := xs[..|xs| - 1];
      TrimmedSpaced(init);
      if |xs| == 1 {
        assert Spaced(xs) == "" + xs[0] + " ";
      } else {
        SpaceJoinSnoc(init, xs[|xs| - 1]);
        assert Spaced(init) == DropLast(Spaced(init)) + " ";
        assert init + [xs[|xs| - 1]] == xs;
      }
    }
  }

  /** Joining one more argument at the end adds a space and the argument. */
  lemma {:induction false} SpaceJoinSnoc(xs: seq<string>, x: string)
    requires |xs| >= 1
    ensures SpaceJoin(xs + [x]) == SpaceJoin(xs) + " " + x
    decreases |xs|
  {
    if |xs| == 1 {
      assert (xs + [x])[1..] == [x];
    } else {
      SpaceJoinSnoc(xs[1..], x);
      assert (xs + [x])[1..] == xs[1..] + [x];
    }
  }

  /** The arguments before index `stop` except the source at `skip`. */
  function Before(args: Args, skip: nat, stop: nat): seq<string>
    requires stop <= |args|
    decreases stop
  {
    if stop == 0 then []
    else Before(args, skip, stop - 1) + (if stop - 1 == skip then [] else [args[stop - 1]])
  }

  /** `Before` keeps every argument below `stop` in order, only the one at `skip` dropped. */
  lemma {:induction false} BeforeSpec(args: Args, skip: nat, stop: nat)
    requires stop <= |args|
    ensures var b := Before(args, skip, stop);
      |b| == (if skip < stop then stop - 1 else stop) &&
      forall k :: 0 <= k < |b| ==> b[k] == args[if k < skip then k else k + 1]
    decreases stop
  {
    if stop > 0 {
      BeforeSpec(args, skip, stop - 1);
    }
  }

  /** The prefix `Spaced` holds when an argument is appended or skipped. */
  lemma SpacedStep(args: Args, skip: nat, i: nat)
    requires i < |args|
    ensures Spaced(Before(args, skip, i + 1)) ==
      Spaced(Before(args, skip, i)) + (if i == skip then "" else args[i] + " ")
  {
    var b := Before(args, skip, i);
    if i != skip {
      assert (b + [args[i]])[..|b|] == b;
    } else {
      assert b + [] == b;
    }
  }

  lemma PrefixedStep(xs: seq<string>, i: nat)
    requires i < |xs|
    ensures Prefixed(xs[..i + 1]) == Prefixed(xs[..i]) + " " + xs[i]
  {
    assert xs[..i + 1][..i] == xs[..i];
  }

  lemma SpacedTail(xs: seq<string>, from: nat, i: nat)
    requires from <= i < |xs|
    ensures Spaced(xs[from..i + 1]) == Spaced(xs[from..i]) + xs[i] + " "
  {
    assert xs[from..i + 1][..i - from] == xs[from..i];
  }

  /**
    The shell command of `main` without the host lookups: with no arguments
    the usage message (`None`); with no source file the compiler called on
    the arguments as given; otherwise lambda-pp on the source piped into the
    compiler, which reads the preprocessed text from standard input.
  */
  function Command(cc: string, lambdapp: string, args: Args): Option<string>
  {
    if |args| == 0 then None
    else match SourceOf(args)
      case None => Some(cc + Prefixed(args))
      case Some(src) =>
        var out := OutputOf(args);
        var stop := if out.None? then |args| else out.value.index;
        var output := if out.None? then "a.out" else out.value.output;
        var after := if out.None? then [] else args[stop + 2..];
        Some(Pipeline(lambdapp, src.file, cc, src.cpp, SpaceJoin(Before(args, src.index, stop)), output, SpaceJoin(after)))
  }

  /** The format `"%s/lambda-pp %s | %s -x%s %s - -o %s %s"` of the shell call. */
  function Pipeline(lambdapp: string, file: string, cc: string, cpp: bool, before: string, output: string, after: string): string
  {
    lambdapp + "/lambda-pp " + file + " | " + cc + " -x" + (if cpp then "c++" else "c") + " "
      + before + " - -o " + output + " " + after
  }

  /** Lines 249-255 of `main`: with no source file, the compiler and each argument after a space. */
  method LinkCommand(cc: string, args: Args) returns (cmd: string)
    requires NUL !in cc && CStrings(args)
    ensures cmd == cc + Prefixed(args)
  {
    var argsBefore := new LccString();
    argsBefore.Append(cc);
    for i := 0 to |args|
      invariant argsBefore.Valid() && fresh(argsBefore.buffer) && argsBefore.Contents() == cc + Prefixed(args[..i])
    {
      PrefixedStep(args, i);
      argsBefore.Append(" " + args[i]);
    }
    assert args[..|args|] == args;
    PrefixedNoNul(args);
    argsBefore.TextIsContents();
    cmd := argsBefore.Text();
  }

  /** Lines 270-280 of `main`: the arguments before `stop` but the source, space-joined. */
  method JoinBefore(args: Args, skip: nat, stop: nat) returns (text: string)
    requires stop <= |args| && CStrings(args)
    ensures text == SpaceJoin(Before(args, skip, stop)) && NUL !in text
  {
    var argsBefore := new LccString();
    for i := 0 to stop
      invariant argsBefore.Valid() && fresh(argsBefore.buffer) && argsBefore.Contents() == Spaced(Before(args, skip, i))
    {
      SpacedStep(args, skip, i);
      if i == skip {
        continue;
      }
      argsBefore.Append(args[i] + " ");
    }
    BeforeSpec(args, skip, stop);
    SpacedNoNul(Before(args, skip, stop));
    argsBefore.TrimLast();
    TrimmedSpaced(Before(args, skip, stop));
    text := argsBefore.Text();
  }

  /** Lines 283-293 of `main`: the arguments from `from` on, space-joined. */
  method JoinAfter(args: Args, from: nat) returns (text: string)
    requires CStrings(args)
    ensures text == SpaceJoin(if from <= |args| then args[from..] else []) && NUL !in text
  {
    var argsAfter := new LccString();
    var i := from;
    while i < |args|
      invariant from <= i && (from <= |args| ==> i <= |args|)
      invariant argsAfter.Valid() && fresh(argsAfter.buffer)
      invariant argsAfter.Contents() == if from <= |args| then Spaced(args[from..i]) else []
    {
      SpacedTail(args, from, i);
      argsAfter.Append(args[i] + " ");
      i := i + 1;
    }
    ghost var after := if from <= |args| then args[from..] else [];
    assert argsAfter.Contents() == Spaced(after) by {
      if from <= |args| {
        assert args[from..i] == after;
      }
    }
    SpacedNoNul(after);
    argsAfter.TrimLast();
    TrimmedSpaced(after);
    text := argsAfter.Text();
  }

  /** Lines 245-302 of `main`: the command, built in `lcc_string_t` buffers. */
  method BuildCommand(cc: string, lambdapp: string, args: Args) returns (cmd: Option<string>)
    requires NUL !in cc && NUL !in lambdapp && CStrings(args)
    ensures cmd == Command(cc, lambdapp, args)
  {
    if |args| == 0 {
      return None;
    }
    var source := SourceFind(args);
    if source.None? {
      var link := LinkCommand(cc, args);
      return Some(link);
    }
    var src := source.value;
    var output := OutputFind(args);
    NamesAreCStrings(args);
    var outName := "a.out";
    var stop := |args|;
    if output.Some? {
      outName := output.value.output;
      stop := output.value.index;
    }
    var before := JoinBefore(args, src.index, stop);
    var after := JoinAfter(args, stop + 2);
    assert after == SpaceJoin(if output.None? then [] else args[stop + 2..]);
    var line := PipeCommand(lambdapp, src.file, cc, src.cpp, before, outName, after);
    return Some(line);
  }

  /** The source and output names are arguments, so C strings. */
  lemma NamesAreCStrings(args: Args)
    requires CStrings(args)
    ensures SourceOf(args).Some? ==> NUL !in SourceOf(args).value.file
    ensures OutputOf(args).Some? ==> NUL !in OutputOf(args).value.output
  {
    SourceFromSpec(args, 0);
    OutputFromSpec(args, 0);
  }

  /** Lines 296-302 of `main`: the shell call formatted into a fresh buffer. */
  method PipeCommand(lambdapp: string, file: string, cc: string, cpp: bool, before: string, output: string, after: string)
    returns (cmd: string)
    requires NUL !in lambdapp && NUL !in file && NUL !in cc && NUL !in before && NUL !in output && NUL !in after
    ensures cmd == Pipeline(lambdapp, file, cc, cpp, before, output, after)
  {
    var shell := new LccString();
    var line := Pipeline(lambdapp, file, cc, cpp, before, output, after);
    assert NUL !in line;
    shell.Append(line);
    assert shell.Contents() == line;
    shell.TextIsContents();
    cmd := shell.Text();
  }

  /** Spaced C strings hold no NUL. */
  lemma {:induction false} SpacedNoNul(xs: seq<string>)
    requires CStrings(xs)
    ensures NUL !in Spaced(xs)
    decreases |xs|
  {
    if |xs| >= 1 {
      SpacedNoNul(xs[..|xs| - 1]);
    }
  }

  /** Prefixed C strings hold no NUL. */
  lemma {:induction false} PrefixedNoNul(xs: seq<string>)
    requires CStrings(xs)
    ensures NUL !in Prefixed(xs)
    decreases |xs|
  {
    if |xs| >= 1 {
      PrefixedNoNul(xs[..|xs| - 1]);
    }
  }

  const ExampleArgs: Args := ["-O2", "t.cc", "-o", "t", "-lm"]

  /**
    `lambda-cc -O2 t.cc -o t -lm`: lambda-pp on `t.cc`, the C++ compiler on
    standard input, the flags before `-o` in place and those after it last.
  */
  lemma CommandExample()
    ensures Command("cc", "/usr/bin", ExampleArgs) == Some("/usr/bin/lambda-pp t.cc | cc -xc++ -O2 - -o t -lm")
  {
    ExampleFound();
    assert Before(ExampleArgs, 1, 2) == ["-O2"];
    assert ExampleArgs[4..] == ["-lm"];
    assert SpaceJoin(["-O2"]) == "-O2" && SpaceJoin(["-lm"]) == "-lm";
    ExamplePipeline();
  }

  /** In the example, `t.cc` is the source, a C++ one, and `t` the output. */
  lemma ExampleFound()
    ensures SourceOf(ExampleArgs) == Some(SourceFile("t.cc", 1, true))
    ensures OutputOf(ExampleArgs) == Some(OutputFile("t", 2))
  {
    var args := ExampleArgs;
    assert !EndsWith(args[0], ".c") && !EndsWith(args[0], ".cc") && !EndsWith(args[0], ".cx");
    assert MatchFrom(args[0], 0) == None;
    assert EndsWith(args[1], ".cc") && !EndsWith(args[1], ".c");
    assert MatchFrom(args[1], 0) == Some(1);
  }

  lemma ExamplePipeline()
    ensures Pipeline("/usr/bin", "t.cc", "cc", true, "-O2", "t", "-lm") == "/usr/bin/lambda-pp t.cc | cc -xc++ -O2 - -o t -lm"
  {
    assert "/usr/bin" + "/lambda-pp " == "/usr/bin/lambda-pp ";
    assert "/usr/bin/lambda-pp " + "t.cc" + " | " == "/usr/bin/lambda-pp t.cc | ";
    assert "/usr/bin/lambda-pp t.cc | " + "cc" + " -x" == "/usr/bin/lambda-pp t.cc | cc -x";
    assert "/usr/bin/lambda-pp t.cc | cc -x" + "c++" + " " == "/usr/bin/lambda-pp t.cc | cc -xc++ ";
    assert "/usr/bin/lambda-pp t.cc | cc -xc++ " + "-O2" + " - -o " == "/usr/bin/lambda-pp t.cc | cc -xc++ -O2 - -o ";
    assert "/usr/bin/lambda-pp t.cc | cc -xc++ -O2 - -o " + "t" + " " + "-lm" == "/usr/bin/lambda-pp t.cc | cc -xc++ -O2 - -o t -lm";
  }
}
