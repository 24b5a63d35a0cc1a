/**
  The values the preprocessor's scanner works on (lambda.c, lines 36-87) and
  the byte-level helpers it calls: `parse_skip_string`, `parse_skip_white`
  and the searches hidden in `parse_word` (lines 204-240).

  The source text is a `seq<char>`.  The C code reads past the end of its
  buffer, or dereferences a failed `strchr`/`strstr`, on some inputs; the
  model gives those inputs the distinguished outcome `Undefined` instead of
  guessing at what the C program would do.
*/
module Scan {
  import opened CharClass
  import opened Wrappers

  /** `DefaultKeyword`; the start of a record is computed as `i - 6` whatever the keyword. */
  const Keyword: string := "lambda"
  const KeyLength: nat := 6

  /** `lambda_range_t`. */
  datatype Range = Range(begin: nat, length: nat)

  /** `lambda_position_t`: an anchor where hoisted definitions may be inserted. */
  datatype Position = Position(pos: nat, line: nat)

  /**
    `lambda_t`.  `nameOffset` is `ofs - decl.begin` computed in C's unsigned
    arithmetic; a negative value here stands for the wrapped-around one.
  */
  datatype Lambda = Lambda(
    start: nat,
    decl: Range,
    body: Range,
    nameOffset: int,
    declLine: nat,
    bodyLine: nat,
    endLine: nat,
    isShort: bool)

  /** The record `lambda_vector_create_lambda` zeroes with `memset`. */
  const ZeroLambda: Lambda := Lambda(0, Range(0, 0), Range(0, 0), 0, 0, 0, 0, false)

  /** `parse_type_t`. */
  datatype Mode = Normal | Type | LambdaMode | Expression

  /** The two messages of `parse_error` the scanner can raise. */
  datatype ErrorKind = TooManyClosing | Mismatching(expected: char, found: char)

  /**
    What a call of `parse` (or `parse_word`) returns: an offset, `ERROR` with
    the line `parse_error` reports, or an input on which the C code has
    undefined behaviour.
  */
  datatype Outcome = Ok(pos: nat) | Err(line: nat, kind: ErrorKind) | Undefined

  /** The source as the scanner sees it: the bytes and the `short_enabled` flag. */
  datatype Input = Input(data: seq<char>, shortEnabled: bool)

  /** The state the scanner changes: `source->line` and the two vectors of `parse_data_t`. */
  datatype State = State(line: nat, lambdas: seq<Lambda>, positions: seq<Position>)

  /** The number of newlines in a piece of text. */
  function Newlines(s: seq<char>): (n: nat)
    ensures n <= |s|
  {
    if s == [] then 0 else Newlines(s[..|s| - 1]) + (if s[|s| - 1] == '\n' then 1 else 0)
  }

  lemma NewlinesAppend(s: seq<char>, c: char)
    ensures Newlines(s + [c]) == Newlines(s) + (if c == '\n' then 1 else 0)
  {
    assert (s + [c])[..|s + [c]| - 1] == s;
  }

  /**
    `parse_skip_string`: from `i`, the offset just past the first byte equal
    to `check`, a backslash consuming the byte after it; `|data|` if there is
    none.
  */
  function StringEnd(data: seq<char>, i: nat, check: char): (r: nat)
    requires i <= |data|
    ensures i <= r <= |data|
    decreases |data| - i
  {
    if i == |data| then i
    else if data[i] == check then i + 1
    else if data[i] == '\\' then
      if i + 1 == |data| then i + 1 else StringEnd(data, i + 2, check)
    else StringEnd(data, i + 1, check)
  }

  /** The number of backslashes right before offset `k`, counting no further back than `i`. */
  function EscapeRun(data: seq<char>, i: nat, k: nat): (n: nat)
    requires i <= k <= |data|
    ensures n <= k - i
    decreases k
  {
    if k == i || data[k - 1] != '\\' then 0 else 1 + EscapeRun(data, i, k - 1)
  }

  /** A byte that is not a backslash at `i` adds nothing to any run after it. */
  lemma {:induction false} EscapeRunPlain(data: seq<char>, i: nat, k: nat)
    requires i < k <= |data| && data[i] != '\\'
    ensures EscapeRun(data, i, k) == EscapeRun(data, i + 1, k)
    decreases k
  {
    if k > i + 1 && data[k - 1] == '\\' { EscapeRunPlain(data, i, k - 1); }
  }

  /** A backslash at `i` and the byte it escapes leave the parity of any later run unchanged. */
  lemma {:induction false} EscapeRunPair(data: seq<char>, i: nat, k: nat)
    requires i + 2 <= k <= |data| && data[i] == '\\'
    ensures EscapeRun(data, i, k) % 2 == EscapeRun(data, i + 2, k) % 2
    decreases k
  {
    if k == i + 2 {
      assert EscapeRun(data, i, i + 1) == 1;
      assert EscapeRun(data, i, i + 2) == (if data[i + 1] == '\\' then 2 else 0);
    } else if data[k - 1] == '\\' {
      EscapeRunPair(data, i, k - 1);
    }
  }

  /**
    `parse_skip_string` stops just past a quote equal to `check`, or at the
    end of the text; a backslash makes the byte after it part of the literal.
    For a quote `check` (never a backslash at the call sites), the stop is the
    first `check` byte preceded by an even run of backslashes.
  */
  lemma {:induction false} StringEndStops(data: seq<char>, i: nat, check: char)
    requires i <= |data|
    ensures var r := StringEnd(data, i, check);
      && (r == |data| || (i < r && data[r - 1] == check))
      && (r < |data| ==> i < r && data[r - 1] == check)
      && (forall k :: i <= k < r - 1 && data[k] == check ==> i < k && data[k - 1] == '\\')
    ensures var r := StringEnd(data, i, check);
      check != '\\' ==>
        && (r < |data| ==> i < r && EscapeRun(data, i, r - 1) % 2 == 0)
        && (forall k :: i <= k < r && data[k] == check && EscapeRun(data, i, k) % 2 == 0 ==> k == r - 1)
    decreases |data| - i
  {
    if i < |data| && data[i] != check {
      var r := StringEnd(data, i, check);
      if data[i] == '\\' {
        if i + 1 < |data| {
          StringEndStops(data, i + 2, check);
          if check != '\\' {
            assert EscapeRun(data, i, i + 1) == 1;
            if r < |data| { EscapeRunPair(data, i, r - 1); }
            forall k | i + 2 <= k < r
              ensures EscapeRun(data, i, k) % 2 == EscapeRun(data, i + 2, k) % 2
            {
              EscapeRunPair(data, i, k);
            }
          }
        }
      } else {
        StringEndStops(data, i + 1, check);
        if check != '\\' {
          if r < |data| { EscapeRunPlain(data, i, r - 1); }
          forall k | i + 1 <= k < r
            ensures EscapeRun(data, i, k) == EscapeRun(data, i + 1, k)
          {
            EscapeRunPlain(data, i, k);
          }
        }
      }
    }
  }

  /** `parse_skip_white`: the first offset from `i` that is not `isspace`, or `|data|`. */
  function WhiteEnd(data: seq<char>, i: nat): (r: nat)
    requires i <= |data|
    ensures i <= r <= |data|
    decreases |data| - i
  {
    if i == |data| || !IsSpace(data[i]) then i else WhiteEnd(data, i + 1)
  }

  /** `WhiteEnd` passes only blanks and stops at the first byte that is not one. */
  lemma {:induction false} WhiteEndStops(data: seq<char>, i: nat)
    requires i <= |data|
    ensures var r := WhiteEnd(data, i);
      && (forall k :: i <= k < r ==> IsSpace(data[k]))
      && (r < |data| ==> !IsSpace(data[r]))
    decreases |data| - i
  {
    if i < |data| && IsSpace(data[i]) {
      WhiteEndStops(data, i + 1);
    }
  }

  /**
    `strncmp(data + j, keyword, keylength) == 0`: a prefix test, so any word
    that begins with `lambda` matches.
  */
  predicate KeywordAt(data: seq<char>, j: nat)
  {
    j + KeyLength <= |data| && data[j..j + KeyLength] == Keyword
  }

  /** The bytes that end a word: `parse_word` is only ever called at one of them. */
  predicate Delimiter(c: char)
  {
    c != '_' && !IsAlnum(c)
  }

  /**
    `strchr(data + k, '\n')`: the first newline from `k`; `None` when a NUL
    byte comes before every newline, or there is none.
  */
  function FindNewline(data: seq<char>, k: nat): (r: Option<nat>)
    ensures r.Some? ==> k <= r.value < |data| && data[r.value] == '\n'
    ensures r.Some? ==> forall m :: k <= m < r.value ==> data[m] != '\n' && data[m] != '\0'
    decreases |data| - k
  {
    if k >= |data| then None
    else if data[k] == '\n' then Some(k)
    else if data[k] == '\0' then None
    else FindNewline(data, k + 1)
  }

  // `strstr(data + k, "*/")`: the offset of the star of the first closing
  // marker from `k`; `None` when a NUL byte comes before every marker, or
  // there is none.
  function FindCommentEnd(data: seq<char>, k: nat): (r: Option<nat>)
    ensures r.Some? ==> k <= r.value && r.value + 1 < |data| && data[r.value] == '*' && data[r.value + 1] == '/'
    ensures r.Some? ==> forall m :: k <= m < r.value ==> data[m] != '\0' && !(data[m] == '*' && data[m + 1] == '/')
    decreases |data| - k
  {
    if k + 1 >= |data| then None
    else if data[k] == '*' && data[k + 1] == '/' then Some(k)
    else if data[k] == '\0' then None
    else FindCommentEnd(data, k + 1)
  }

  /** `strchr` misses only when a NUL comes before every newline. */
  lemma {:induction false} NewlineMissed(data: seq<char>, k: nat, m: nat)
    requires FindNewline(data, k).None? && k <= m < |data| && data[m] == '\n'
    ensures exists z :: k <= z < m && data[z] == '\0'
    decreases |data| - k
  {
    if data[k] != '\0' {
      NewlineMissed(data, k + 1, m);
    }
  }

  /** `strstr` misses only when a NUL comes before every closing marker. */
  lemma {:induction false} CommentEndMissed(data: seq<char>, k: nat, m: nat)
    requires FindCommentEnd(data, k).None? && k <= m && m + 1 < |data| && data[m] == '*' && data[m + 1] == '/'
    ensures exists z :: k <= z < m && data[z] == '\0'
    decreases |data| - k
  {
    if data[k] != '\0' {
      CommentEndMissed(data, k + 1, m);
    }
  }

  /**
    `strchr("([{", c)` is non-NULL: the three openers, and also the NUL byte,
    which `strchr` finds as the terminator of its first argument.
  */
  predicate IsOpener(c: char)
  {
    c == '(' || c == '[' || c == '{' || c == '\0'
  }

  predicate IsCloser(c: char)
  {
    c == ')' || c == ']' || c == '}'
  }

  /**
    `strchr("([{)]}", c)[3]`, the closer pushed for an opener.  For `)` it
    reads the literal's terminating NUL; for every other byte the C code
    reads outside the literal or through NULL, which is `None` here.
  */
  function Closer(c: char): (r: Option<char>)
    ensures c == '(' ==> r == Some(')')
    ensures c == '[' ==> r == Some(']')
    ensures c == '{' ==> r == Some('}')
  {
    if c == '(' then Some(')')
    else if c == '[' then Some(']')
    else if c == '{' then Some('}')
    else if c == ')' then Some('\0')
    else None
  }
}
