# lambdapp in Dafny

lambdapp is a C preprocessor. It adds anonymous functions to C.

- It scans a C source once and records every `lambda <type>(<args>) { body }`. It also records the short form `lambda <type>(<args>) => expr;`, and lambdas nested inside other lambdas.
- It records the "anchors": offsets at depth zero where hoisted definitions may go.
- It then writes the text out again. Each lambda becomes `(&lambda_N)`, and a `static <type> lambda_N(<args>) {body}` definition is inserted at the anchor before it. The inserted text is wrapped in `#line` markers.

A second program, the compiler wrapper `lambda-cc`, finds the C or C++ source among its arguments, finds the `-o` output, and builds the shell command that pipes the source through `lambda-pp` into the system compiler.

This project models both in Dafny.

- **Scanner.** `Scan` and `ParseSpec` define, as functions, what one call of `parse` does in each of its four modes (outermost, lambda, signature, `=>` body). Module `Parser` is the imperative scanner: methods over a `Source` object (the text and its line counter) and a `ParseData` object (the records and anchors). Each method is proved to compute exactly the corresponding `ParseSpec` or `Scan` function (`SkipString` computes `StringEnd`, `SkipWhite` computes `WhiteEnd`, `DispatchStep` computes `Dispatch`). `ParseInvariants` proves what a scan leaves behind: formed records in keyword order, and ordered anchors at non-blank bytes.
- **Generator.** `GenerateSpec` defines, as functions, the text the generator writes for a scanned source. Module `Generator` writes it into an output `Sink` with the same loops as the C code, and is proved to write exactly that text. `Rewrite` defines, without the generator's loop, which lambdas a piece of text replaces and how they are spliced in. It proves that `generate_code` over a piece with no anchor writes exactly that splice: each top-level lambda becomes `(&lambda_N)` and the lambdas nested in it are dropped.
- **Helpers and vectors.** `CharClass` holds the unsigned character-class macros. `Vectors` holds the growable vector `lambda_vector_t`.
- **Compiler wrapper.** `LccStrings` is the `lcc_string_t` buffer. `Driver` holds the argument searches of `lambda-cc` and the command it builds.
- **Examples.** `Scenario` and `Driver.CommandExample` work through concrete inputs.

Where the C code has undefined behaviour, the model has an explicit outcome instead: `Undefined` for the scanner and `None` for the generator. This covers a read past the end of the buffer, a `strchr`/`strstr` that finds nothing, a length that wraps below zero, and an anchor index outside the vector. A text whose scan or generation is undefined has no defined output, and the top-level methods require the defined case.

## Model

| member | source | states |
|---|---|---|
| CharClass.AlphaIsLetter | lambda.c:31 | the unsigned `isalpha` trick accepts exactly the ASCII letters |
| CharClass.DigitIsDecimal | lambda.c:32 | the wrap-around `isdigit` test accepts exactly the ASCII digits |
| Vectors.Vector.Init | lambda.c:92-97 | a new vector is empty with room for 32 elements |
| Vectors.Vector.Resize | lambda.c:103-112 | the capacity doubles exactly when every slot is in use; the contents are kept; afterwards there is a free slot |
| Vectors.Vector.Push | lambda.c:114-119 | one element is appended at index `elements`, the earlier ones are unchanged, and the capacity doubles only when the vector was full |
| Vectors.CreateLambda | lambda.c:121-127 | returns the old element count and appends a zeroed record |
| Vectors.Vector.Pop | lambda.c:376-377 | drops the newest element and keeps the others |
| Scan.StringEnd | lambda.c:204-214 | the result lies between the start and the length of the text |
| Scan.StringEndStops | lambda.c:204-214 | `parse_skip_string` stops just past a `check` byte, or at the end of the text; every `check` byte it passes on the way comes right after a backslash; for a quote `check`, the stop is exactly the first `check` byte preceded by an even run of backslashes (an unescaped quote) |
| Scan.WhiteEnd | lambda.c:216-223 | the result lies between the start and the length of the text |
| Scan.WhiteEndStops | lambda.c:216-223 | every byte skipped is blank, and the byte it stops at is not |
| Scan.NewlinesAppend | lambda.c:219-220 | one more byte adds one to the newline count exactly when it is `\n` |
| Scan.FindNewline | lambda.c:233 | a found offset is at or after the start and holds `\n`, and no newline or NUL comes before it: the first newline |
| Scan.NewlineMissed | lambda.c:233 | when nothing is found, a NUL comes before every newline after the start |
| Scan.FindCommentEnd | lambda.c:236 | a found offset is at or after the start and holds `*/`, and no `*/` or NUL comes before it: the first closing marker |
| Scan.CommentEndMissed | lambda.c:236 | when nothing is found, a NUL comes before every `*/` after the start |
| Scan.Closer | lambda.c:363 | `(`, `[` and `{` push `)`, `]` and `}` |
| Parser.SkipString | lambda.c:204-214 | the loop computes `StringEnd` |
| Parser.SkipWhite | lambda.c:216-223 | the loop computes `WhiteEnd` and adds to the line counter the newlines it passes |
| ParseSpec.KeywordBeforeDelimiter | lambda.c:227-228 | a keyword match starting a word lies wholly before the delimiter that ends the word |
| ParseSpec.ParseWord | lambda.c:225-240 | the offset never moves back, earlier records keep their heads, and the anchors are untouched |
| Parser.ParseWord | lambda.c:225-240 | the imperative `parse_word` computes `ParseSpec.ParseWord`, line counter and records included |
| ParseSpec.Parse | lambda.c:244-428 | the offset never moves back, earlier records keep their heads, only the outermost call adds anchors, and a signature call records nothing and ends within the text |
| ParseSpec.Opened | lambda.c:265-290 | the head of a lambda appends exactly one record, at the end, and the body loop starts past the keyword |
| ParseSpec.Loop | lambda.c:292-428 | the loop keeps the guarantees of `ParseSpec.Parse` for the frame it starts from |
| ParseSpec.Finish | lambda.c:420-427 | sealing a lambda returns the closer's offset and changes only that lambda's body length and end line |
| Parser.FinishLambda | lambda.c:420-427 | the record's body length becomes the closer's offset minus the body start, and its end line becomes the current line |
| Parser.OpenLambda | lambda.c:265-290 | the imperative head of a lambda computes `ParseSpec.Opened` |
| Parser.Parse | lambda.c:244-428 | the imperative `parse` computes `ParseSpec.Parse`: the same outcome, line counter, records, anchors and name offset |
| ParseInvariants.ParseInv | lambda.c:244-428 | every call leaves formed records in keyword order, and the outermost call also leaves ordered anchors at non-blank bytes |
| ParseInvariants.ScanInv | lambda.c:518-521 | a successful scan of a whole text leaves formed records with ascending starts and strictly ascending anchors at non-blank bytes |
| ParseInvariants.OpenedInv | lambda.c:265-290 | a lambda's record is formed: the signature starts at the first non-blank byte after the keyword, and the body starts at `{` or past `=>` |
| ParseInvariants.SignatureScanKeeps | lambda.c:305-409 | a signature scan (a call with `nameofs`) never runs `parse_word`: it returns with the line counter, the records and the anchors it was given |
| ParseInvariants.SignatureLoopKeeps | lambda.c:305-409 | every loop of a signature scan, from any well-formed frame, returns with the state it started from |
| ParseInvariants.BranchInv | lambda.c:341-409 | a sealed body ends just before its `}` (or `;`), and records stay ordered |
| GenerateSpec.Decimal | lambda.c:432 | `%zu` writes at least one digit |
| GenerateSpec.DecimalRoundTrip | lambda.c:432 | the digits `%zu` writes read back as the number, and are all decimal digits |
| GenerateSpec.Bytes | lambda.c:438-441 | `fwrite` of a piece is defined exactly when the piece lies in the buffer, and writes that piece |
| GenerateSpec.NextProto | lambda.c:444-452 | the result is an anchor index, one past the last, or the `(size_t)-1` wrap |
| GenerateSpec.NextProtoLastBefore | lambda.c:444-452 | with ascending anchors, `next_prototype_position` finds the last anchor at or before the lambda's start, exactly |
| GenerateSpec.LastCovered | lambda.c:456-461 | the lambdas passed start by the next anchor, and the one it stops at starts past it |
| GenerateSpec.CoveredExactly | lambda.c:456-461 | with ascending starts, an anchor receives exactly the lambdas from `lam` that start by the next anchor |
| GenerateSpec.DefinitionsSplit | lambda.c:462-470 | definitions are emitted in descending index order: the run splits at any index, higher indices first |
| GenerateSpec.SkipFrom | lambda.c:506-507 | the lambdas skipped start before the end of the replaced lambda, and the one it stops at does not |
| GenerateSpec.ErrorWritesNothing | lambda.c:518-521 | a scan error makes `generate` write nothing |
| GenerateSpec.NoLambdaOutput | lambda.c:524-529 | a text without lambdas is written as `#line 1 "<file>"`, the text unchanged, and a newline |
| Generator.Sink.Write | lambda.c:432 | writing appends to the output and changes nothing else |
| Generator.WriteBytes | lambda.c:438-441 | `fwrite` appends the piece of the buffer |
| Generator.GenerateMarker | lambda.c:431-433 | appends the `#line` directive |
| Generator.GenerateBegin | lambda.c:435-442 | appends `static `, the declaration head, ` lambda_N` and the rest of the declaration |
| Generator.NextPrototypePosition | lambda.c:444-452 | the loop computes `NextProto` |
| Generator.GenerateFunctions | lambda.c:455-472 | appends the definitions of the lambdas covered by the anchor, highest index first, and a newline |
| Rewrite.TopLevel | lambda.c:493-508 | the lambdas a piece replaces: each cut is a lambda's keyword through the byte after its body, starting no later than the end of the piece, the first not before its start |
| Rewrite.TopLevelCovers | lambda.c:504-508 | every lambda starting in the piece is replaced, or starts strictly inside a replaced lambda and is dropped with it |
| Rewrite.NextProtoOk | lambda.c:444-452 | past a replaced lambda, `next_prototype_position` yields an index the loop can read when the first anchor precedes the lambdas |
| Rewrite.CodeLoopSplices | lambda.c:477-510 | over a piece with no anchor, `generate_code` writes the piece with each top-level lambda replaced by `(&lambda_N)` and nested ones dropped |
| Rewrite.BodySplices | lambda.c:467 | a hoisted body holding no anchor is written as its bytes with its own top-level lambdas replaced |
| Generator.GenerateCode | lambda.c:475-511 | the loop appends exactly `Code`: pieces of text, hoisted definitions at anchors, and `(&lambda_N)` for each lambda |
| Generator.Generate | lambda.c:514-533 | `generate` appends exactly `Generated`: nothing on a scan error, otherwise the marker, the rewritten text and a newline; the line counter ends where the scan of the whole text leaves it |
| Scenario.ExampleFunctions | lambda.c:455-472 | for `f(lambda int(){1;});` the anchor receives `static int lambda_0(){1;}` after a `#line 1` marker |
| Scenario.ExampleReplace | lambda.c:498-508 | in the same text the lambda's bytes are replaced by `(&lambda_0)` |
| Scenario.ExampleCode | lambda.c:475-511 | the whole text comes out as the hoisted definition, a marker, and `f((&lambda_0));` |
| Scenario.ScanSignature | lambda.c:244-428 | in `f(lambda int(){1;});` the signature scan from offset 9 stops at the `{` at 14, leaves the state alone and puts the name offset at the `(` at 12 |
| Scenario.ScanBody | lambda.c:244-428 | the body scan from the `{` at 14 stops at the matching `}` and seals the lambda with body length 3 and end line 1 |
| Scenario.ScanLambda | lambda.c:244-428 | the lambda scan called after the keyword at 2 records one lambda with its start, signature 9..14, name offset 3 and body 14..17, and resumes at 17 |
| Scenario.ScanText | lambda.c:244-428 | the outermost scan of the whole text succeeds at 20 with that one lambda and one anchor at offset 0 on line 1 |
| Scenario.GeneratedOk | lambda.c:514-533 | a successful scan whose code is written comes out as the opening `#line` marker, that code and a newline |
| Scenario.ExampleGenerated | lambda.c:514-533 | the whole translation of the text in `a.c` is the marker, the hoisted `static int lambda_0(){1;}`, a marker and `f((&lambda_0));` |
| Scenario.ExampleTooManyClosing | lambda.c:366-370 | in `x`, newline, `)` the closer with nothing open makes the scan fail with "too many closing" on line 2, and `generate` writes nothing |
| Scenario.ExampleMismatching | lambda.c:371-375 | in `f(]` the `]` that meets the `)` expected for `(` makes the scan fail with a mismatch naming both |
| LccStrings.CString | lambda-cc.c:77-79 | the C string is the prefix before the first NUL and holds no NUL |
| LccStrings.Grown | lambda-cc.c:70-73 | the doubled allocation exceeds what is needed, and is no more than twice that when it grows |
| LccStrings.LccString.constructor | lambda-cc.c:46-53 | the buffer starts empty, with `used == 1` and 64 bytes allocated |
| LccStrings.LccString.Resize | lambda-cc.c:55-63 | the allocation doubles and the contents are kept |
| LccStrings.LccString.Append | lambda-cc.c:65-81 | the text becomes the old text followed by the new characters, `used` grows by their number, the allocation is doubled until they fit, and the buffer stays NUL-terminated |
| LccStrings.LccString.TrimLast | lambda-cc.c:277-278 | writing NUL at `used - 2` cuts the last character off the C string |
| LccStrings.LccString.TextIsContents | lambda-cc.c:77-79 | without a NUL among the contents, the C string is the contents |
| Driver.Find | lambda-cc.c:174 | `strstr` returns the first occurrence at or after the start, and none when there is none |
| Driver.MatchFrom | lambda-cc.c:172-190 | the first extension, from `e` on, that the argument ends with |
| Driver.SourceFromSpec | lambda-cc.c:163-194 | there is a source exactly when some argument ends with a C or C++ extension, and it is the first such argument |
| Driver.SourceOfSpec | lambda-cc.c:163-194 | `lcc_source_find` succeeds iff some argument ends with `.c`, `.cc`, `.cx`, `.cxx` or `.cpp`, picks the lowest such index, and sets `cpp` exactly when the argument does not end with `.c` |
| Driver.OneExtension | lambda-cc.c:172-190 | an argument ends with at most one extension, so the loops' order of extensions is immaterial beyond `.c` |
| Driver.ScanSuffix | lambda-cc.c:174-190 | the `strstr` loop finds an occurrence at the end of the argument exactly when the argument ends with the extension |
| Driver.SourceFind | lambda-cc.c:163-194 | the loops compute `SourceOf` |
| Driver.OutputFrom | lambda-cc.c:196-207 | a found `-o` is followed by another argument |
| Driver.OutputFromSpec | lambda-cc.c:196-207 | only the first `-o` counts: the result is that `-o` and the argument after it, and there is none when there is no `-o` or the first one is the last argument |
| Driver.OutputFind | lambda-cc.c:196-207 | the loop computes `OutputOf` |
| Driver.BeforeSpec | lambda-cc.c:270-275 | the arguments before `stop` in order, with only the source dropped |
| Driver.TrimmedSpaced | lambda-cc.c:276-293 | cutting the last character off the space-terminated arguments leaves them joined by single spaces |
| Driver.SpaceJoinSnoc | lambda-cc.c:270-293 | joining one more argument adds a space and the argument |
| Driver.LinkCommand | lambda-cc.c:245-258 | with no source file, the command is the compiler followed by `" " + arg` for each argument in order |
| Driver.JoinBefore | lambda-cc.c:270-278 | `args_before` is the arguments before `stop` except the source, joined by single spaces |
| Driver.JoinAfter | lambda-cc.c:282-293 | `args_after` is the arguments from the `-o` index + 2 on, joined by single spaces, and empty when there is no `-o` |
| Driver.PipeCommand | lambda-cc.c:296-302 | the shell command `<lambdapp>/lambda-pp <file> \| <cc> -x<lang> <before> - -o <output> <after>` |
| Driver.BuildCommand | lambda-cc.c:243-302 | the command of `main` is `Command`: none without arguments, the link command without a source, otherwise the pipeline with `a.out` as the default output |
| Driver.CommandExample | lambda-cc.c:243-302 | `-O2 t.cc -o t -lm` gives `<lambdapp>/lambda-pp t.cc \| cc -xc++ -O2 - -o t -lm` |
| Driver.ExampleFound | lambda-cc.c:163-207 | in that example `t.cc` is a C++ source at index 1 and `t` the output |

## Left out

- File I/O: `parse_open`, `parse_close` and the `main`, `isparam`, `usage` and `version` of lambda.c are not modelled. The source comes as a given text with the line counter at 1.
- Scan.KeywordAt: the keyword is fixed to `lambda` (its six letters are the `i - 6` of the record start). The configurable `source->keyword` of lambda.c is not modelled.
- Error messages: the formatted message of `parse_error` is not modelled. Only the error outcome, its line and its kind are kept.
- The C code never reports a scan error through lambda-pp's exit status: `generate` returns nothing, so `main` returns 0. This is how the code is written. The model keeps it and does not model `main`.
- Out of memory: every allocation is assumed to succeed, including `parse_oom`, `args_oom` and `shell_oom`.
- Vectors: the scanner's records and anchors are modelled by their contents, as sequence fields of `ParseData`. The growth policy of `lambda_vector_t` is proved separately in `Vectors`, so aliasing between the C vectors and their reallocation during a scan is not modelled.
- The stack of expected closers, `parens`, is a sequence in the scanner's frame, not a `Vectors.Vector`.
- Undefined behaviour: reads beyond the buffer, `strchr`/`strstr` misses, `(size_t)-1` anchor indices and wrapped lengths are mapped to `Undefined` or `None`. Nothing is said about what the C program would then do. A NUL byte inside the text also stops `strchr`/`strstr`, as in C.
- GenerateSpec.Replace: a lambda whose end lies past the piece being copied makes `len` wrap around in C. The model treats this as undefined (`None`) and does not follow the wrapped loop.
- ParseInvariants.ScanInv: the anchors are proved ordered and at non-blank bytes. They are not proved to be the first non-blank byte after a file start, a `;`, a depth-zero `}` or a directive line. They are also not proved to lie at bracket depth zero, or to carry line numbers of at least 1 that rise with their offsets.
- ParseInvariants.ParseInv: the same holds for each call. Anchor depth and anchor lines are not stated.
- ParseInvariants.OpenedInv: the signature's end is proved to be a `{`, a `=>` or the end of the text. It is not proved to be the first depth-zero `{` after a depth-zero `(`. The name offset is not proved to be the first depth-zero `(` or the `*`/blank run. Its motion is modelled in `ParseSpec.Dispatch`, `ParseSpec.Opening` and `ParseSpec.Closing`.
- Rewrite.CodeLoopSplices: the rewrite is proved for pieces with no anchor inside. The whole-text case, where hoisted definitions are inserted at anchors between the rewritten pieces, is covered by `Generator.GenerateCode` computing `Code` and by the `Scenario` example. `Rewrite.BodySplices` assumes no anchor lies in the body. That a real scan leaves no anchor inside a lambda body is not proved.
- ParseInvariants.ScanInv: nested lambdas: a lambda found inside another's body is proved to get a larger index and a later start. It is not proved to start inside that body.
- LccStrings.Grown: the allocation is stated to exceed the need, and to be at most twice the need when it grows. That it stays a power-of-two multiple of 64 is not stated.
- LccStrings: `used` and `allocated` are unbounded. The `size_t` overflow of the doubling is not modelled. `lcc_string_appendf` is modelled as appending an already formatted text, so `vsnprintf` is not modelled.
- Driver.JoinAfter: `args_after` does not skip the source argument. A source written after the output is therefore passed to the compiler a second time. This is how the code is written, and the model keeps it.
- Host lookups: `lcc_lambdapp_find` and `lcc_compiler_find` (environment variables and a directory scan), `lcc_usage`, `lcc_error` and the `system()` call are not modelled. The compiler and the lambda-pp directory are parameters of `Driver.Command`.
