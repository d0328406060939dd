# findr predicate language, modelled in Dafny

findr is a `find`-style file finder. An expression written on the command
line (`-name '*.rs' -and -size +4k`, `-not -type d -or -mmin -10`, and so on)
is parsed by a pest grammar into a tree of pairs. It is then compiled into an
abstract syntax tree (src/parser.rs) of the types in src/ast.rs. Finally it is
evaluated against each directory entry the walker visits (src/interpreter.rs).
This project models those three files:

- `wrappers.dfy`, module `Wrappers`: `Option` and `Result`.
- `numbers.dfy`, module `Numbers`: Rust's `u32` and `u64` and the standard
  library's parsing of them from text. This covers `str::parse::<u32>`,
  `str::parse::<u64>` and `u32::from_str_radix(_, 8)`, including the
  accepted leading `+` and the overflow rejection.
- `ast.rs` is modelled by `ast.dfy` (module `Ast`): the expression and test
  datatypes, the two `Display` letter tables, and the leaves of a tree.
- `parser.rs` is modelled by `parser.dfy` (module `Parser`),
  `parser_properties.dfy` (module `ParserProperties`) and
  `parser_dispatch.dfy` (module `ParserDispatch`, which node compiles to what). The grammar's output
  is an input datatype `Pair(rule, text, children)`.
  - The pure descent functions (`parse_expr`, `parse_term`, `parse_test`,
    …) are functions returning `Result<_, ParseError>`.
  - The seven loops of the source are methods with loop invariants, each
    proved equal to a recursive scan function:
    - `parse_and_expr` and `parse_or_expr`, which update `left`;
    - `parse_sizespec` and `parse_timespec`, which overwrite `sign`, `value`
      and `suffix`;
    - `parse_perm_rule`, which assigns `prefix` and `term`;
    - `parse_sym_perm_term` and `parse_sym_perm_term_stmt`, which push onto
      vectors.
  - The lemmas about those scan functions state the parser's promises:
    - left-associative folding;
    - a trailing operator is ignored;
    - the last occurrence of a child wins;
    - the first bad number is the error reported;
    - defaults when a child is absent;
    - statements and privileges keep their order.
  - The source's `unwrap()` calls on child pairs become well-formedness
    predicates (`ExprWf`, `TestWf`, `SizeChildrenWf`, …) required by the
    functions that would otherwise panic.
- `interpreter.rs` is modelled by `interpreter.dfy` (module `Interpreter`)
  and `interpreter_properties.dfy` (module `InterpreterProperties`).
  Evaluation is a pure recursive function of a `Host` value and an `Entry`.
  `Host` carries what the source reads from the outside:
  - `SystemTime::now()`, as integer nanoseconds;
  - `fs::metadata`;
  - the glob and regex engines, as functions that also report whether a
    pattern compiles;
  - the `USER` and `GROUP` variables;
  - `getuid`/`getgid`.

Where the code departs from what a reader of find(1) would expect, the model
follows the code:

- An expression with no `Program`/`Expr` pair, or an empty `Program`, is the
  error `UnexpectedRule { expected: "Program", found: "None" }`. It does not
  compile to `-true` (src/parser.rs:26-45).
- `-regex` and `-iregex` call `is_match` on the whole path with no `^…$`
  anchoring. `Host.regexMatches` is that unanchored search (src/interpreter.rs:130-150).
- A non-numeric `-user`/`-group` name matches only when it equals the
  `USER`/`GROUP` environment value and the file's id is the process's own. It
  does not resolve the file owner's name (src/interpreter.rs:317-387).

## Model

| member | source | states |
|---|---|---|
| Numbers.ParseUnsigned | src/parser.rs:272-284 | parsing succeeds exactly when the text after an optional `+` is a non-empty string of radix digits whose value is below the width's limit, and then the result is that value |
| Numbers.ParseU32 | src/parser.rs:275 | `parse::<u32>` succeeds exactly when the text after an optional `+` is non-empty, all decimal digits, and denotes a value below 2^32; the result is that value |
| Numbers.ParseU64 | src/parser.rs:331 | `parse::<u64>` succeeds exactly when the text after an optional `+` is non-empty, all decimal digits, and denotes a value below 2^64; the result is that value |
| Numbers.ParseOctalU32 | src/parser.rs:423 | `from_str_radix(_, 8)` succeeds exactly when the text after an optional `+` is non-empty, all octal digits, and denotes a value below 2^32; the result is its base-8 value |
| Numbers.ToDigits | src/parser.rs:272-284 | the canonical decimal/octal spelling is non-empty and unsigned |
| Numbers.ToDigitsValue | src/parser.rs:272-284 | the canonical spelling consists of digits and denotes the number it spells |
| Numbers.ParseToDigits | src/parser.rs:272-284 | parsing the canonical spelling of a value below the limit gives that value back |
| Numbers.ParseU32Decimal | src/parser.rs:275-282 | every `u32` written in decimal is read back as itself by `-uid`/`-gid` |
| Numbers.PlusPrefixAccepted | src/interpreter.rs:328 | a leading `+` is accepted and does not change the parsed value |
| Numbers.NonDigitRejected | src/parser.rs:421-426 | any non-digit of the radix after the optional `+` makes parsing fail |
| Numbers.OctalExamples | src/parser.rs:421-426 | "644" reads as 420, "755" as 493, "0644" as 420, and "8" is rejected in base 8 |
| Numbers.U32Overflow | src/parser.rs:272-278 | 4294967296 does not fit a `u32`, 4294967295 does |
| Ast.FileTypeLetter | src/ast.rs:92-104 | each file type displays as one letter among b, c, d, p, f, l, s |
| Ast.FileTypeLetterInjective | src/ast.rs:92-104 | two different file types never display alike |
| Ast.SizeSuffixLetter | src/ast.rs:134-145 | each size suffix displays as one character among b, c, w, k, M, G |
| Ast.SizeSuffixLetterInjective | src/ast.rs:134-145 | two different size suffixes never display alike |
| Ast.Leaves | src/ast.rs:5-14 | every finite expression has at least one `Test` leaf, and a leaf is its own only leaf |
| Ast.LeavesBound | src/ast.rs:5-14 | a tree has at least one leaf and at most one more leaf than operator nodes |
| Ast.PermFreeLeaves | src/ast.rs:5-14 | an expression is free of `-perm` exactly when none of its leaves is a `-perm` test |
| Ast.NoPermConcat | src/ast.rs:5-14 | a leaf sequence is `-perm`-free exactly when both halves are |
| Parser.ParseId | src/parser.rs:272-284 | `-uid`/`-gid` text compiles exactly when, after an optional `+`, it is a non-empty decimal string whose value is below 2^32; the id is that value, and otherwise the error is `InvalidNumber` carrying exactly the text |
| Parser.ParseToAst | src/parser.rs:26-45 | `parse_to_ast`: compiles the first `Expr` pair or the first expression inside a non-empty `Program`; its contract is stated by `ParserProperties.FirstProgramCompiled`, `ParserProperties.NoProgramIsError` and `ParserDispatch.ProgramOf` |
| Parser.ParseExpr | src/parser.rs:47-61 | `parse_expr`: dispatches on the node's rule; stated by `ParserDispatch.ExprDispatch` |
| Parser.ParseUnaryExpr | src/parser.rs:63-69 | `parse_unary_expr`: skips the `-not` token and negates the term; stated by `ParserProperties.NotWrapsOneTerm` and `ParserDispatch.NotOfTerm` |
| Parser.ParseBinaryExpr | src/parser.rs:71-81 | `parse_binary_expr`: sends an and-chain and an or-chain to their folds; stated by `ParserDispatch.BinaryExprDispatch` |
| Parser.ParseTerm | src/parser.rs:130-154 | `parse_term`: a test is a leaf, a parenthesised expression is compiled as it stands; stated by `ParserDispatch.TermDispatch` |
| Parser.ParseTest | src/parser.rs:156-296 | `parse_test`: one arm per keyword; stated by the keyword lemmas of `ParserDispatch` and `ParserProperties.IdTestsReadDecimal` |
| Parser.ParseFileType | src/parser.rs:298-313 | `parse_filetype`; stated by `ParserDispatch.FileTypeDecoded` |
| Parser.SignOf | src/parser.rs:322-329 | the sign arm of `parse_sizespec` and `parse_timespec`; stated by `ParserDispatch.SignDecoded` |
| Parser.ParseSizeSuffix | src/parser.rs:334-347 | the suffix arm of `parse_sizespec`; stated by `ParserDispatch.SizeSuffixDecoded` |
| Parser.ParsePermPrefix | src/parser.rs:406-416 | `parse_perm_prefix`; stated by `ParserDispatch.PermPrefixDecoded` |
| Parser.ParsePermTerm | src/parser.rs:418-436 | `parse_perm_term`; stated by `ParserProperties.NumericPermIsOctal` and `ParserDispatch.PermTermDispatch` |
| Parser.ParseSymPrincipal | src/parser.rs:484-496 | `parse_sym_principal`; stated by `ParserDispatch.PrincipalDecoded` |
| Parser.ParseSymPermOperator | src/parser.rs:498-509 | `parse_sym_perm_operator`; stated by `ParserDispatch.OperatorDecoded` |
| Parser.ParseSymPermPriv | src/parser.rs:511-521 | `parse_sym_perm_priv`; stated by `ParserDispatch.PrivilegeDecoded` |
| Parser.ParseAndExpr | src/parser.rs:83-107 | the `while let` loop over the children computes the left fold `AndChain` of the and-expression |
| Parser.ParseOrExpr | src/parser.rs:109-128 | the loop computes the left fold `OrChain` of the or-expression |
| Parser.ParseSizeSpec | src/parser.rs:315-354 | the loop that overwrites sign, value and suffix computes `SizeSpecOf`, the scan of the children |
| Parser.ParseTimeSpec | src/parser.rs:356-379 | the loop that overwrites sign and value computes `TimeSpecOf` |
| Parser.ParsePermRule | src/parser.rs:381-403 | the loop that assigns prefix and term computes `PermSpecOf` |
| Parser.ParseSymPermTerm | src/parser.rs:438-452 | the loop that pushes each compiled statement computes `StmtScan` from an empty list |
| Parser.ParseSymPermTermStmt | src/parser.rs:454-482 | the statement's principal, operator and pushed privileges are those of `StatementOf` |
| ParserProperties.AdjacentOperandsFoldLeft | src/parser.rs:83-107 | adjacent operands (implicit `-and`) fold to the left: t1 t2 t3 gives `And(And(t1, t2), t3)` |
| ParserProperties.AndOperatorStep | src/parser.rs:90-96 | an explicit `-and` followed by an operand adds one `And` node on the left and moves past both pairs |
| ParserProperties.ExplicitAndFoldsLeft | src/parser.rs:83-107 | operands joined by explicit `-and` fold to the left |
| ParserProperties.OrOperatorStep | src/parser.rs:109-128 | a `-or` followed by an operand adds one `Or` node on the left and moves past both pairs |
| ParserProperties.OrFoldsLeft | src/parser.rs:109-128 | operands joined by `-or` fold to the left |
| ParserProperties.ThreeAdjacentTermsAssociateLeft | src/parser.rs:83-107 | three adjacent terms compile to `And(And(a, b), c)` |
| ParserProperties.ThreeExplicitTermsAssociateLeft | src/parser.rs:83-107 | `a -and b -and c` compiles to `And(And(a, b), c)` |
| ParserProperties.ExplicitAndIsImplicitAnd | src/parser.rs:90-101 | an explicit `-and` operand and the same operand written adjacently build the same `And` node, or fail with the same error |
| ParserProperties.TrailingOperatorIgnored | src/parser.rs:92-95 | a trailing `-and` or `-or` with no operand after it leaves `left` unchanged |
| ParserProperties.NotWrapsOneTerm | src/parser.rs:63-69 | `-not` compiles exactly when the single following term does, and wraps exactly that term in `Not` |
| ParserProperties.NoProgramIsError | src/parser.rs:26-45 | with no `Expr` and no non-empty `Program` pair the result is `UnexpectedRule("Program", "None")` |
| ParserProperties.FirstProgramCompiled | src/parser.rs:26-40 | the first `Expr` pair, or the first expression inside a non-empty `Program`, is the one compiled; earlier pairs are skipped |
| ParserProperties.UidNotANumber | src/parser.rs:272-278 | `-uid abc` is `InvalidNumber("abc")` |
| ParserProperties.IdTestsReadDecimal | src/parser.rs:272-284 | the decimal spelling of any `u32` after `-uid`/`-gid` compiles to `Uid(n)`/`Gid(n)` |
| ParserProperties.NumericPermIsOctal | src/parser.rs:418-426 | a numeric permission is its base-8 value ("644" is 420), and otherwise `InvalidNumber` with its text |
| ParserProperties.SizeScanOkIff | src/parser.rs:315-354 | a size specification compiles exactly when every number fits a `u64` and every suffix is known |
| ParserProperties.SizeScanFirstError | src/parser.rs:330-333 | the first number that does not fit a `u64` gives `InvalidNumber` with exactly its text |
| ParserProperties.SizeScanLastWins | src/parser.rs:320-351 | the sign, the value and the suffix are each those of the last such child, or unchanged when there is none |
| ParserProperties.SizeSpecDefaults | src/parser.rs:316-318 | an absent sign, number or suffix leaves `Sign::None`, 0 and no suffix |
| ParserProperties.SizeSignDecoded | src/parser.rs:322-329 | a `+` child gives `Sign::Plus` and a `-` child `Sign::Minus` |
| ParserProperties.TimeScanOkIff | src/parser.rs:356-379 | a time specification compiles exactly when every number fits a `u64` |
| ParserProperties.TimeScanFirstError | src/parser.rs:370-373 | the first number that does not fit a `u64` gives `InvalidNumber` with exactly its text |
| ParserProperties.TimeScanLastWins | src/parser.rs:360-376 | the sign and the value are those of the last such child, or unchanged when there is none |
| ParserProperties.TimeSpecDefaults | src/parser.rs:357-358 | an absent sign or number leaves `Sign::None` and 0 |
| ParserProperties.PermScanLastWins | src/parser.rs:385-395 | the prefix and the term are those of the last such child, or unchanged when there is none |
| ParserProperties.PermRuleTermRequired | src/parser.rs:381-403 | no term gives `UnexpectedRule("PermTerm", "None")`; otherwise the rule compiles, and with no prefix the prefix is `None` |
| ParserProperties.StatementsInOrder | src/parser.rs:438-452 | the compiled statements are exactly the statement children, each compiled, in source order after what was already collected |
| ParserProperties.PrivilegesInOrder | src/parser.rs:469-475 | the compiled privileges are exactly the privilege children, each decoded, in source order |
| ParserDispatch.ExprDispatch | src/parser.rs:47-61 | an `Expr` node compiles its first child; a unary, binary or term node goes to its own function; any other rule is `UnexpectedRule("Expr", <rule name>)` |
| ParserDispatch.BinaryExprDispatch | src/parser.rs:71-81 | below a `BinaryExpr`, an `AndExpr` compiles to the and-fold, an `OrExpr` to the or-fold, anything else to `UnexpectedRule("AndExpr or OrExpr", <rule name>)` |
| ParserDispatch.TermDispatch | src/parser.rs:130-154 | a `Test` below a `Term` compiles to the leaf `Test(t)` or passes its error on, an `Expr` below it compiles as that expression, anything else is `UnexpectedRule("Test or Expr", <rule name>)` |
| ParserDispatch.ExprWrapper | src/parser.rs:47-50 | wrapping an expression in an `Expr` node changes neither its well-formedness nor what it compiles to |
| ParserDispatch.BinaryWrapper | src/parser.rs:71-81 | an `Expr` over a `BinaryExpr` over a chain compiles to that chain's fold |
| ParserDispatch.Parenthesised | src/parser.rs:139-142 | a parenthesised expression is a term that compiles to the expression itself, with no node added |
| ParserDispatch.OrOfTwo | src/parser.rs:109-128 | a term, `-or` and an expression compile to the `Or` of the two |
| ParserDispatch.AndOfAdjacent | src/parser.rs:83-107 | a term followed directly by an expression compiles to their `And` |
| ParserDispatch.ProgramOf | src/parser.rs:26-40 | a program whose `Program` node holds an expression compiles that expression |
| ParserDispatch.NotOfTerm | src/parser.rs:63-69 | `-not` before a term compiles to `Not` of what the term compiles to |
| ParserDispatch.ParenthesisedOrThenAdjacent | src/parser.rs:26-154 | for any term A and expressions B and C, the program `(A -or B) C` compiles to `And(Or(A, B), C)` |
| ParserDispatch.NegatedParenthesis | src/parser.rs:26-154 | for any expression E, the program `-not (E)` compiles to `Not(E)` |
| ParserDispatch.TextArgumentsVerbatim | src/parser.rs:159-271 | each of the twelve text-taking keywords compiles to the test of that keyword with the argument text verbatim |
| ParserDispatch.UnknownKeywordRejected | src/parser.rs:290-295 | a rule that is no test keyword gives `UnexpectedRule("Test variant", <rule name>)` |
| ParserDispatch.ConstantKeywordsCompile | src/parser.rs:189-205 | `-true`, `-false` and `-empty` compile to `True`, `False` and `Empty` |
| ParserDispatch.MinuteKeywordsCompile | src/parser.rs:206-235 | `-amin`, `-cmin` and `-mmin` compile to the test of that keyword carrying the compiled time spec, or fail with the spec's error |
| ParserDispatch.DayKeywordsCompile | src/parser.rs:212-241 | `-atime`, `-ctime` and `-mtime` compile to the test of that keyword carrying the compiled time spec, or fail with the spec's error |
| ParserDispatch.SpecKeywordsCompile | src/parser.rs:191-290 | `-type`, `-size` and `-perm` carry what `parse_filetype`, `parse_sizespec` and `parse_perm_rule` compile, or fail with their error |
| ParserDispatch.FileTypeDecoded | src/parser.rs:298-313 | each file type's rule reads back as that file type; any rule outside the seven is `UnexpectedRule("FileType", <rule name>)` |
| ParserDispatch.SizeSuffixDecoded | src/parser.rs:334-347 | each suffix's rule reads back as that suffix; any other rule is `UnexpectedRule("SizeSuffix", <rule name>)` |
| ParserDispatch.SignDecoded | src/parser.rs:322-329 | `Plus` reads as `+`, `Minus` as `-`, any other rule as no sign |
| ParserDispatch.PermPrefixDecoded | src/parser.rs:406-416 | `PermAllMode` and `PermAnyMode` read back as their prefix; any other rule is `UnexpectedRule("PermAllMode or PermAnyMode", <rule name>)` |
| ParserDispatch.PermTermDispatch | src/parser.rs:418-436 | a symbolic term is its statements in order or the first statement's error; any rule that is no term is `UnexpectedRule("NumPermTerm or SymPermTerm", <rule name>)` |
| ParserDispatch.PrincipalDecoded | src/parser.rs:484-496 | each principal's rule reads back as that principal; any other rule is `UnexpectedRule("SymPrincipal variant", <rule name>)` |
| ParserDispatch.OperatorDecoded | src/parser.rs:498-509 | each operator's rule reads back as that operator; any other rule is `UnexpectedRule("SymPermOperator variant", <rule name>)` |
| ParserDispatch.PrivilegeDecoded | src/parser.rs:511-521 | each privilege's rule reads back as that privilege; any other rule is `UnexpectedRule("SymPermPriv variant", <rule name>)` |
| Interpreter.Evaluate | src/interpreter.rs:18-25 | `evaluate`: the recursion over `Not`, `And`, `Or` and tests; stated by `InterpreterProperties.DoubleNegation`, `AndShortCircuit`, `OrShortCircuit` and `LeavesDecide` |
| Interpreter.EvaluateTest | src/interpreter.rs:27-55 | `evaluate_test`: one arm per test; stated by `InterpreterProperties.PatternTestTargets`, `TimeTestWindows`, `NewerFields` and the other test lemmas |
| Interpreter.MatchGlob | src/interpreter.rs:58-69 | `match_glob_pattern`; stated by `InterpreterProperties.InvalidGlobMatchesNothing`, `InameIsNameOfLowered` and `IpathIsPathOfLowered` |
| Interpreter.MatchRegex | src/interpreter.rs:130-138 | `match_regex`; stated by `InterpreterProperties.PatternTestTargets` |
| Interpreter.MatchType | src/interpreter.rs:152-200 | `match_type`; stated by `InterpreterProperties.OneTypePerEntry` |
| Interpreter.Compare | src/interpreter.rs:77-92 | the three-way comparison of `match_size` and `compare_time_spec`; stated by `InterpreterProperties.SizeSignTrichotomy` and `WindowOfElapsed` |
| Interpreter.CalculateSizeInBytes | src/interpreter.rs:428-439 | `calculate_size_in_bytes`; stated by `InterpreterProperties.MultiplierLadder`, `KilobytesAreBytes` and `SizeTargetMonotone` |
| Interpreter.MatchSize | src/interpreter.rs:202-216 | `match_size`; stated by `InterpreterProperties.SizeSignTrichotomy` and `SizeExamples` |
| Interpreter.MatchEmpty | src/interpreter.rs:218-226 | `match_empty`; stated by `InterpreterProperties.EmptyIsSizeZero` |
| Interpreter.Elapsed | src/interpreter.rs:77-92 | whole seconds, then whole units, since the file time; stated by `InterpreterProperties.ElapsedBounds` and `DaysFromMinutes` |
| Interpreter.CompareTimeSpec | src/interpreter.rs:77-92 | `compare_time_spec`; stated by `InterpreterProperties.WindowOfElapsed` and `FutureOrMissingTimeFails` |
| Interpreter.MatchTime | src/interpreter.rs:228-298 | `match_amin` … `match_mtime`; stated by `InterpreterProperties.MatchTimeWindow` and `TimeTestWindows` |
| Interpreter.CompareFileTimes | src/interpreter.rs:95-118 | `compare_file_times`; stated by `InterpreterProperties.NewerNeedsAllLookups`, `NewerFields` and `NewerAsymmetric` |
| Interpreter.MatchOwner | src/interpreter.rs:317-387 | `match_user` and `match_group`; stated by `InterpreterProperties.NumericOwnerIsId` and `NamedOwnerIsCurrent` |
| Interpreter.Lower | src/interpreter.rs:58-69 | lowercasing keeps the length, maps each of 'A'..'Z' to the letter at the same place in 'a'..'z', and changes no other character |
| Interpreter.Multiplier | src/interpreter.rs:428-439 | every size unit is a positive number of bytes |
| InterpreterProperties.ConstantTests | src/interpreter.rs:33-34 | `-true` always holds and `-false` never does |
| InterpreterProperties.DoubleNegation | src/interpreter.rs:20 | `Not(e)` evaluates to the negation of `e` and `Not(Not(e))` evaluates as `e` |
| InterpreterProperties.AndShortCircuit | src/interpreter.rs:21 | `-and` is false whenever its left operand is false, whatever the right one, and equals its right operand when the left one is true |
| InterpreterProperties.OrShortCircuit | src/interpreter.rs:22 | `-or` is true whenever its left operand is true, whatever the right one, and equals its right operand when the left one is false |
| InterpreterProperties.LeavesDecide | src/interpreter.rs:18-55 | two evaluations whose leaf tests agree agree on the whole expression: tests have no side effects |
| InterpreterProperties.MissingMetadataFails | src/interpreter.rs:152-425 | with unreadable metadata every test that needs it is false |
| InterpreterProperties.OtherTestsIgnoreMetadata | src/interpreter.rs:27-55 | the name, path, regex and constant tests do not depend on the metadata |
| InterpreterProperties.LowerIdempotent | src/interpreter.rs:62 | lowercasing twice is lowercasing once |
| InterpreterProperties.InvalidGlobMatchesNothing | src/interpreter.rs:58-69 | a glob that does not compile matches nothing in `-path`, `-ipath`, `-name` and `-iname` |
| InterpreterProperties.InameIsNameOfLowered | src/interpreter.rs:125-128 | `-iname p` is `-name p` on the lowercased file name with the pattern as written; names differing only in case match alike |
| InterpreterProperties.IpathIsPathOfLowered | src/interpreter.rs:120-123 | `-ipath p` is `-path p` on the lowercased path |
| InterpreterProperties.PatternTestTargets | src/interpreter.rs:120-138 | `-path p` holds exactly when p compiles as a glob and matches the whole path, `-name p` the same on the file name, `-regex p` exactly when p compiles as a regex and matches the path |
| InterpreterProperties.SizeExamples | src/interpreter.rs:202-216 | a 1024-byte file matches `-size 1k`, `+1c`, `-2k` and `2` (blocks) and does not match `2048c` |
| InterpreterProperties.WindowOfElapsed | src/interpreter.rs:77-92 | when the distance lies in the n-th unit window, comparing n with the spec is the window test: no sign is [N, N+1) units, `+` is N+1 units or more, `-` is below N units |
| InterpreterProperties.MatchTimeWindow | src/interpreter.rs:77-92 | a time test holds exactly when the metadata and the timestamp are readable, not in the future, and their distance from now lies in the spec's window |
| InterpreterProperties.TimeTestWindows | src/interpreter.rs:228-298 | `-amin`/`-atime` read the access time, `-cmin`/`-ctime` the creation time, `-mmin`/`-mtime` the modification time, in windows of 60 and 86400 seconds |
| InterpreterProperties.NewerFields | src/interpreter.rs:300-311 | `-anewer`, `-cnewer` and `-mnewer` compare the access, creation and modification times of the entry and of the reference file, the entry's strictly later |
| InterpreterProperties.IregexIsFlaggedRegex | src/interpreter.rs:140-150 | `-iregex p` holds exactly when `(?i)p` compiles and matches the path, which is `-regex (?i)p` |
| InterpreterProperties.OneTypePerEntry | src/interpreter.rs:152-200 | an entry matches at most one `-type`, matches its own type when readable, and matches none when unreadable |
| InterpreterProperties.MultiplierLadder | src/interpreter.rs:428-439 | c is 1 byte, w is 2, k is 1024 c, M is 1024 k, G is 1024 M, and b or no suffix is 512 |
| InterpreterProperties.KilobytesAreBytes | src/interpreter.rs:428-439 | `Nk` and `(1024·N)c` give the same target |
| InterpreterProperties.SizeTargetMonotone | src/interpreter.rs:428-439 | a larger count never gives a smaller target, and the target is a whole number of units |
| InterpreterProperties.SizeSignTrichotomy | src/interpreter.rs:202-216 | with readable metadata, `N` holds exactly when the length equals N units, `+N` when it exceeds it and `-N` when it is below it, so exactly one holds; without metadata none does |
| InterpreterProperties.EmptyIsSizeZero | src/interpreter.rs:218-226 | `-empty` holds exactly when the metadata is readable and the length is 0, which is `-size 0` in any unit |
| InterpreterProperties.ElapsedBounds | src/interpreter.rs:77-92 | the elapsed count is the largest n with n whole units at most the time difference |
| InterpreterProperties.DaysFromMinutes | src/interpreter.rs:228-298 | whole days elapsed are whole minutes elapsed divided by 1440 |
| InterpreterProperties.FutureOrMissingTimeFails | src/interpreter.rs:77-92 | a missing timestamp or one later than now never matches a time test |
| InterpreterProperties.TimeSignTrichotomy | src/interpreter.rs:77-92 | for a readable past timestamp at distance d, `+N` holds exactly when d is at least N+1 units and `-N` exactly when d is below N units; exactly one of `N`, `+N`, `-N` holds |
| InterpreterProperties.MminWindow | src/interpreter.rs:276-286 | `-mmin N` holds exactly for files modified between N and N+1 minutes ago |
| InterpreterProperties.NewerIsMnewer | src/interpreter.rs:308-315 | `-newer` is `-mnewer` |
| InterpreterProperties.NewerNeedsAllLookups | src/interpreter.rs:95-118 | a newer test holds exactly when all four lookups succeed and the entry's time is strictly later |
| InterpreterProperties.NewerAsymmetric | src/interpreter.rs:95-118 | of two files at most one is newer than the other, and no file is newer than itself |
| InterpreterProperties.IdTestsPickTheOwner | src/interpreter.rs:389-425 | `-uid n`/`-gid n` holds for the file's own id and for no other value |
| InterpreterProperties.NumericOwnerIsId | src/interpreter.rs:327-330 | a `-user`/`-group` name that reads as a `u32` is `-uid`/`-gid` of that number |
| InterpreterProperties.NamedOwnerIsCurrent | src/interpreter.rs:335-340 | any other name matches only when it equals `USER`/`GROUP` and the file's id is the process's own |
| InterpreterProperties.SignedUserNameIsUid | src/interpreter.rs:328 | `-user +N` is `-uid N`, since the number parser accepts a leading `+` |

## Left out

- src/main.rs (argument parsing, the directory walk, printing) is not part of this model. It is I/O only.
- The pest grammar and the text-to-pair step are not modelled. The pair tree is an input, and so precedence between `-and`, `-or` and `-not` is not modelled.
- Glob and regex matching are foreign engines. `Host.globCompiles`, `Host.globMatches`, `Host.regexCompiles` and `Host.regexMatches` are uninterpreted functions.
- Metadata, the clock, environment variables and the process ids are fields of `Host`. The `#[cfg(not(unix))]` branches are not modelled; the unix behaviour is.
- `Metadata.kind` is one of the seven `FileType`s. An entry of any other kind, which matches no `-type` in the source, is not modelled.
- Permission evaluation is left out because `evaluate_test` has no `-perm` arm (src/interpreter.rs:27-55). `Interpreter.Evaluate` requires a `-perm`-free expression.
- Interpreter.CalculateSizeInBytes: the target is an unbounded `nat`. The `u64` overflow of `value * multiplier` (a panic in debug builds, wrap-around in release) is not modelled.
- Interpreter.Lower: covers the ASCII letters only. Rust's `to_lowercase` also maps non-ASCII upper-case letters, and some of them to several characters.
- The `unwrap()` panics on missing child pairs are not modelled. The well-formedness predicates require every child an `unwrap()` could reach, without taking into account that an earlier error would stop the descent first.
- `ParseError`'s `Display` and `Error` implementations (src/parser.rs:12-23) only format messages and are not modelled.
- ParserProperties.ExplicitAndIsImplicitAnd: stated one operand at a time. Whole chains follow from `ExplicitAndFoldsLeft` and `AdjacentOperandsFoldLeft`.
- Time stamps are integer nanoseconds since the epoch. `SystemTime`'s platform resolution is not modelled.
- Interpreter.Evaluate: one `Host` and one `Entry` serve a whole evaluation. The source reads the clock, the entry's metadata and the reference file's metadata afresh for every test, so `-mmin 5 -or -not -mmin 5` always holds here but can fail in the source when a minute boundary falls between the two reads.
