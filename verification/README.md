# herbie-lint, modelled in Dafny

herbie-lint is a compiler lint for Rust. It looks for floating-point
expressions that are numerically unstable and suggests a more accurate
rewrite. Rewrites come from two places:

- a cache of rules, the `HerbieResults` table of an SQLite database;
- the external oracle `herbie-inout`, which is called on expressions that no
  cached rule matches.

This project models three parts of the repository and proves properties about
them:

- **src/lisp.rs.** This part covers:
  - the tree `LispExpr` and its printer `to_lisp`;
  - the pattern matcher `form_of`, which binds pattern holes consistently
    through one table;
  - the recursive-descent `Parser` for the small Lisp-like rule language.
- **src/conf.rs.** The settings `Conf::default()` and `From<UxConf> for Conf`.
- **src/lint.rs.** The decisions the lint pass makes:
  - `Herbie::init` loads the rules once, and its row filter decides which rows
    become rules;
  - `check_expr` decides whether to report the matching rules, call the
    oracle, or do nothing;
  - `try_with_herbie` decides how to talk to the oracle and how to read and
    store its answer.

Modules, one file each:

| module | file | what |
|---|---|---|
| `Wrappers` | wrappers.dfy | `Option`, `Result` |
| `Text` | text.dfy | characters, decimal numerals, `join`/`split`, `split(..).last()`, `str::lines` |
| `Lisp` | lisp.dfy | `LispExpr`, `to_lisp`, the holes of a pattern |
| `LispMatch` | lisp_match.dfy | `form_of` as a function, its soundness and completeness, and the `&mut HashMap` version as a class |
| `LispParse` | lisp_parse.dfy | the parser as mutually recursive functions of the parser state |
| `LispParser` | lisp_parser.dfy | the `Parser` and `Chars` classes with the loops of the source, each proved equal to its function |
| `LispParseFacts` | lisp_parse_facts.dfy | reading back printed trees: the print/parse round trip |
| `LispTests` | lisp_tests.dfy | the cases of tests/lisp.rs, proved over an abstract float parser |
| `Conf` | conf.dfy | the settings and their defaults |
| `LintRules` | lint_rules.dfy | the row filter of `init` |
| `LintOracle` | lint_oracle.dfy | `try_with_herbie` |
| `Lint` | lint.dfy | `Herbie`, `init`, `check_expr` |

Floats are kept abstract:

- In the Lisp modules a literal has a type parameter `F`, which is compared
  only with `==`.
- `num: string -> Option<F>` stands for `str::parse::<f64>`.
- `show: F -> string` stands for `format!("{}", f)`.
- The lint modules take `F := real`, so they compare error measures as
  exact numbers.

Where code and prose disagree, the model follows the code:

- **Oracle failures.** An error from the oracle becomes a lint whenever
  `use_herbie` is not `false`, not only when the oracle is mandatory. Only a
  failed spawn depends on the `Yes` setting (`OracleErrorLinted`,
  `SpawnFailure`).
- **Timeouts.** A timeout is a note, not a failure (`TimedOut`).
- **Missing or zero timeout.** A missing timeout means 120 seconds, and `0`
  means no bound (`ZeroIsNotMissing`).
- **Panic after a failed init.** The pass can panic. After a failed `init` the
  once-flag is already set but the settings are still missing, so the next
  `f64` expression reaches the `expect` (`FailedInitThenPanic`).
- **Put-back characters are not checked.** `parse` only checks the iterator.
  One character left on the put-back stack after a number or an identifier is
  ignored, so `"0.x"` is accepted (`TrailingCharAfterLiteral`).
- **Identifiers do not round-trip.** `to_lisp` writes an identifier as `$n`,
  and the parser rejects that form (`DollarNotReparseable`). The round trip is
  therefore proved for the `herbie<n>` spelling that tests/lisp.rs uses
  (`ParseSpelling`), and for `to_lisp` itself on trees without identifiers
  (`ToLispRoundTrip`). That spelling, `LispParseFacts.Spelling`, is a printer
  of this model, not of the source: it is `to_lisp` with every identifier
  written `herbie<n>`, the form the parser reads.

## Model

| member | source | states |
|---|---|---|
| `Lisp.BinOpText` | src/lisp.rs:139 | each operator prints as one character that is not a blank, a digit or a lower-case letter, so it cannot be mistaken for a number, a name or spacing |
| `Lisp.ToLisp` | src/lisp.rs:136-164 | the printer, defined node by node; `ToLispRoundTrip` proves that `parse` reads its text back for trees without identifiers, and `DollarNotReparseable` that it does not for identifiers |
| `Lisp.FunToLisp` | src/lisp.rs:141-153 | the buffer built by the loop over the parameters is exactly the `to_lisp` text of the call |
| `LispMatch.Match` | src/lisp.rs:43-91 | `form_of_impl` as a function of the table before the call; its meaning is carried by `MatchSound`, `MatchComplete` and `MatchesIffInstance` |
| `LispMatch.MatchAll` | src/lisp.rs:48-50 | the zip over two argument lists, stopping at the first failure; its meaning is carried by `MatchAllSound` and `MatchAllComplete` |
| `LispMatch.Matches` | src/lisp.rs:36-95 | `form_of` from an empty table; `MatchesIffInstance` proves it holds iff the expression is an instance of the pattern |
| `LispMatch.MatchSound` | src/lisp.rs:43-91 | `form_of_impl` only adds to the hole table; on success the expression is the pattern with the final table's bindings substituted |
| `LispMatch.MatchAllSound` | src/lisp.rs:48-50 | the same for argument lists matched pairwise, left to right |
| `LispMatch.MatchComplete` | src/lisp.rs:43-91 | if some assignment extending the table turns the pattern into the expression, the match succeeds and its table agrees with that assignment |
| `LispMatch.MatchAllComplete` | src/lisp.rs:48-50 | the same for argument lists |
| `LispMatch.MatchesIffInstance` | src/lisp.rs:36-95 | `form_of` holds exactly when the expression is an instance of the pattern under some assignment of its holes |
| `LispMatch.BinaryMatch` | src/lisp.rs:45-47 | binary forms match iff the operators agree and one assignment fits both operands |
| `LispMatch.UnaryMatch` | src/lisp.rs:86-88 | unary forms match iff the operators agree and the operands match |
| `LispMatch.FunMatch` | src/lisp.rs:48-50 | a call matches only a call with the same name and arity whose arguments match pairwise |
| `LispMatch.HoleMatchesLeaves` | src/lisp.rs:51-85 | a hole matches exactly an identifier or a literal, never a compound form |
| `LispMatch.LiteralMatch` | src/lisp.rs:67-85 | literal against literal is equality; a pattern literal never matches an identifier |
| `LispMatch.ShapeMismatch` | src/lisp.rs:89 | every other pairing of shapes fails |
| `LispMatch.RepeatedHole` | src/lisp.rs:51-66 | a hole used twice forces both places to hold the same leaf |
| `LispMatch.BindingKindSticks` | src/lisp.rs:52-79 | a hole first bound to an identifier rejects a literal later, and the other way round |
| `LispMatch.DistinctHolesShareIdent` | src/lisp.rs:61-64 | two different holes may bind the same identifier |
| `LispMatch.MatchesReflexive` | src/lisp.rs:36-95 | every tree matches itself |
| `LispMatch.FixtureSubst` | tests/compile-fail/test.rs:10-29 | substituting into the fixture pattern `(* (+ (/ h0 h1) h2) h1)` puts hole 1's binding in both of its places |
| `LispMatch.FixtureMatches` | tests/compile-fail/test.rs:10-29 | `(a/a + a) * a`, `(a/b + a) * b`, `(a/b + c) * b` and `(0./1. + 2.) * 1.` match the fixture rule; `(a/b + c) * a` does not |
| `LispMatch.Matcher.FormOfImpl` | src/lisp.rs:43-91 | the method that updates the table in place gives the verdict and the new table of the matching function |
| `LispMatch.FormOf` | src/lisp.rs:36-95 | `form_of` with a fresh table gives the verdict of `Matches` |
| `LispParse.PutBack` | src/lisp.rs:357-359 | a put-back character is one more character still to read |
| `LispParse.GetChar` | src/lisp.rs:339-355 | reading consumes, at the end of the input everything is consumed, and with skipping the character returned is not whitespace |
| `LispParse.Expect` | src/lisp.rs:235-242 | success consumes a character; failure is `Expected(c)` |
| `LispParse.FloatChars` | src/lisp.rs:246-258 | the run collected extends the buffer, and exactly its characters are consumed |
| `LispParse.ParseFloat` | src/lisp.rs:244-264 | success is a literal; failure is `Float`; a leading float character is always consumed |
| `LispParse.IdentDigits` | src/lisp.rs:268-284 | the identifier loop collects digits only |
| `LispParse.ParseU64Numeral` | src/lisp.rs:286-289 | the numeral of `n` reads back as the id `n` exactly when `n` is below 2^64 |
| `LispParse.ParseU64LeadingZero` | src/lisp.rs:286-289 | a leading zero does not change the id read, so `herbie007` is identifier 7 |
| `LispParse.ParseIdent` | src/lisp.rs:266-290 | success is an identifier that fits in `u64`; failure is `Ident` |
| `LispParse.FunName` | src/lisp.rs:294-307 | the name loop consumes exactly the letters it collects |
| `LispParse.ParseArgs` | src/lisp.rs:312-314 | the `while let` loop only appends arguments and never un-reads input |
| `LispParse.ParseFun` | src/lisp.rs:292-322 | a successful call consumes input and is a `Fun` |
| `LispParse.ParseOp` | src/lisp.rs:324-337 | a successful operator form consumes input |
| `LispParse.ParseImpl` | src/lisp.rs:201-233 | success consumes input, and the put-back stack never holds more than one character |
| `LispParser.Chars.Next` | src/lisp.rs:184 | `next()` yields the first unread character, or `None` at the end |
| `LispParser.Parser.PutBack` | src/lisp.rs:357-359 | pushes onto the stack |
| `LispParser.Parser.GetChar` | src/lisp.rs:339-355 | the two loops compute `LispParse.GetChar` on the parser and iterator state |
| `LispParser.Parser.Expect` | src/lisp.rs:235-242 | the method computes `LispParse.Expect` |
| `LispParser.Parser.ParseFloat` | src/lisp.rs:244-264 | the loop computes `LispParse.ParseFloat` |
| `LispParser.Parser.ParseIdent` | src/lisp.rs:266-290 | the loop computes `LispParse.ParseIdent` |
| `LispParser.Parser.ParseFun` | src/lisp.rs:292-322 | both loops compute `LispParse.ParseFun` |
| `LispParser.Parser.ParseOp` | src/lisp.rs:324-337 | the method computes `LispParse.ParseOp` |
| `LispParser.Parser.ParseImpl` | src/lisp.rs:201-233 | the method computes `LispParse.ParseImpl` |
| `LispParser.Parse` | src/lisp.rs:182-197 | `parse` on a fresh parser computes `LispParse.Parse` |
| `LispParse.Parse` | src/lisp.rs:182-197 | one expression from a fresh parser, then `EOE` if the iterator is not exhausted; its meaning is carried by `ParseSpelling`, `ToLispRoundTrip`, `TrailingCharAfterLiteral` and the `LispTests` cases |
| `LispParseFacts.OpLeftError` | src/lisp.rs:324-325 | an error reading the left operand is the result of `parse_op`, unchanged, with the state it left behind |
| `LispParseFacts.FunNameEmpty` | src/lisp.rs:309-321 | a call without a lower-case name fails with `Ident` |
| `LispParseFacts.ReadsBack` | src/lisp.rs:201-233 | `parse_impl` reads back the spelling of every readable tree, after any whitespace and before anything that cannot continue a number |
| `LispParseFacts.SpelledOfClosed` | src/lisp.rs:136-164 | on trees without identifiers the spelling is exactly `to_lisp` |
| `LispParseFacts.ParseSpelledThen` | src/lisp.rs:182-197 | `parse` on a spelled tree followed by text gives the tree, or `EOE` when the iterator still holds input |
| `LispParseFacts.ParseSpelling` | src/lisp.rs:182-233 | round trip: `parse` gives back every readable tree from its spelling |
| `LispParseFacts.ToLispRoundTrip` | src/lisp.rs:136-164 | round trip of `to_lisp`: a readable tree without identifiers parses back from its printed text |
| `LispParseFacts.DollarNotReparseable` | src/lisp.rs:160-162 | the `$n` that `to_lisp` writes for an identifier is rejected with `Unexpected('$')` |
| `LispParseFacts.TrailingCharAfterLiteral` | src/lisp.rs:186-196 | a number followed by one character that cannot continue it is accepted; that character is never checked |
| `LispTests.EmptyInput` | tests/lisp.rs:19 | `""` gives `EOE` |
| `LispTests.ZeroPoint` | tests/lisp.rs:21 | `"0."` gives the literal that `0.` parses to |
| `LispTests.ZeroDigit` | tests/lisp.rs:26 | `"0"` gives a literal |
| `LispTests.Identifier` | tests/lisp.rs:27 | `"herbie0"` gives `Ident(0)` |
| `LispTests.Sum` | tests/lisp.rs:28 | `"(+ herbie0 herbie1)"` gives the sum |
| `LispTests.Negation` | tests/lisp.rs:29 | `-` with one operand is negation |
| `LispTests.Difference` | tests/lisp.rs:30 | `-` with two operands is subtraction |
| `LispTests.CosOne` | tests/lisp.rs:31 | `"(cos 1)"` gives a call with one literal argument |
| `LispTests.CosIdentifier` | tests/lisp.rs:32 | `"(cos herbie0)"` gives a call on `Ident(0)` |
| `LispTests.TrailingText` | tests/lisp.rs:42 | text after a complete form gives `EOE` |
| `LispTests.LoneParenthesis` | tests/lisp.rs:43 | `"("` gives `EOE` |
| `LispTests.BadNumeral` | tests/lisp.rs:44 | `"0.eee"` gives `Float` when the float parser rejects the run |
| `LispTests.StrayOperators` | tests/lisp.rs:47-55 | `+` and `-` alone give `Unexpected`, and so do `(+)` and `(-)`, at the `)` |
| `LispTests.SingleOperand` | tests/lisp.rs:49 | an operator other than `-` with one operand gives `Arity` |
| `LispTests.OneOperand` | tests/lisp.rs:49 | `"(+ 0.)"` gives `Arity` |
| `LispTests.OperandsUnclosed` | tests/lisp.rs:50-52 | two operands followed by anything but `)` give `Expected(')')` |
| `LispTests.UnclosedSum` | tests/lisp.rs:50 | `"(+ 0. 0."` gives `Expected(')')` |
| `LispTests.ThreeOperands` | tests/lisp.rs:51 | `"(+ 0. 0. 0.)"` gives `Expected(')')` |
| `LispTests.ThreeOperandsUnclosed` | tests/lisp.rs:52 | `"(+ 0. 0. 0."` gives `Expected(')')` |
| `LispTests.ThreeOperandsDifference` | tests/lisp.rs:56 | `"(- 0. 0. 0.)"` gives `Expected(')')` |
| `LispTests.NameUnclosed` | tests/lisp.rs:60 | a name followed by blanks only gives `Expected(')')` |
| `LispTests.UnclosedCall` | tests/lisp.rs:60 | `"(cos"` gives `Expected(')')` |
| `LispTests.ArgumentsUnclosed` | tests/lisp.rs:62 | a call on three numbers without `)` gives `Expected(')')` |
| `LispTests.UnclosedCallWithArguments` | tests/lisp.rs:62 | `"(cos 1. 2. 3."` gives `Expected(')')` |
| `LispTests.NumberInName` | tests/lisp.rs:33 | a digit ends a function name; the number is read as an argument, and the next letter stands where `)` is expected |
| `LispTests.DigitInName` | tests/lisp.rs:33 | `"(log1p (cos herbie0))"` gives `Expected(')')` |
| `Conf.DefaultConf` | src/conf.rs:44-55 | the defaults are what an empty file converts to |
| `Conf.UseHerbieOf` | src/conf.rs:64-71 | absent is `Default`, `true` is `Yes`, `false` is `No`, each both ways |
| `Conf.TimeoutOf` | src/conf.rs:63 | absent is 120 seconds, `0` is no bound, anything else is kept; the result is never `Some(0)` |
| `Conf.FromUx` | src/conf.rs:57-75 | a file that spells out the path, the seed and the timeout is recovered from the settings it converts to (with `FromUxOnto`, files and reachable settings correspond one to one); no result has a bound of zero |
| `Conf.FromUxReachable` | src/conf.rs:63 | no conversion yields a bound of zero |
| `Conf.FromUxOnto` | src/conf.rs:57-75 | every setting with a non-zero bound, or no bound, comes from some file |
| `Conf.ZeroIsNotMissing` | src/conf.rs:14-19 | `timeout = 0` means no bound, while a missing `timeout` means two minutes |
| `Conf.ExplicitDefaults` | src/conf.rs:6-8 | writing the default values out gives the defaults |
| `LintRules.RowRule` | src/lint.rs:78-106 | only readable rows that change the form and lower the error can yield a rule, and such a row yields exactly its parsed pair |
| `LintRules.Rules` | src/lint.rs:78-106 | there are never more rules than rows |
| `LintRules.RulesAppend` | src/lint.rs:78-106 | collecting keeps the table order |
| `LintRules.RulesOne` | src/lint.rs:78-106 | one row yields its rule or nothing |
| `LintRules.RulesFromRows` | src/lint.rs:78-106 | every collected rule comes from some row |
| `LintRules.RowsToRules` | src/lint.rs:78-106 | every row that yields a rule has it collected |
| `LintRules.MissingErrorsDropped` | src/lint.rs:84-89 | a missing error column reads as `0.` (`unwrap_or`), so a row with both errors missing is dropped |
| `LintRules.IdentityDropped` | src/lint.rs:87-89 | a row that rewrites a form into itself is dropped |
| `LintRules.RowKept` | src/lint.rs:78-106 | a row is kept iff it is readable, it improves, and one parser reads `cmdin` and then, from where it stopped, `cmdout` |
| `LintOracle.Command` | src/lint.rs:191-199 | the oracle is started as `herbie-inout --seed <seed> -o rules:numerics` |
| `LintOracle.ParamNames` | src/lint.rs:220 | one name `herbie<i>` per id, none empty and none holding a blank, so joining them with blanks can be undone (`ParamsReadBack`) |
| `LintOracle.ParamNamesDistinct` | src/lint.rs:220 | different ids get different names, so no parameter of the lambda is bound twice |
| `LintOracle.Lambda` | src/lint.rs:220-222 | the text `(lambda (<params>) <cmdin>)` and a newline; `NoParams`, `ParamsReadBack` and `SentLambda` state what it holds and that it is what is sent |
| `LintOracle.ParamsReadBack` | src/lint.rs:220 | split at its blanks, the parameter list gives back the names |
| `LintOracle.NoParams` | src/lint.rs:220-222 | without ids the lambda has an empty parameter list |
| `LintOracle.WaitBoundAsWritten` | src/lint.rs:231 | `timeout*1000` in `u32` is the product modulo 2^32 |
| `LintOracle.WaitBoundMs` | src/lint.rs:231 | the intended bound is exactly `timeout` seconds in milliseconds |
| `LintOracle.WaitBoundAgrees` | src/lint.rs:231 | the two agree up to 4294967 seconds |
| `LintOracle.WaitBoundWraps` | src/lint.rs:231 | at 4294968 seconds the written bound is 704 milliseconds |
| `LintOracle.ReadLines` | src/lint.rs:284-291 | a failure to read is `Could not parse herbie-inout output` |
| `LintOracle.ReadLinesMeaning` | src/lint.rs:272-291 | through the three `next()` calls and the `parse_error` closure, the answer is read iff there are three lines and the first two end, after their last blank, in numbers; it is those numbers and the third line |
| `LintOracle.ReadAnswer` | src/lint.rs:270-291 | the answer is read line by line; a failure is `Could not parse herbie-inout output` |
| `LintOracle.ReadThreeLines` | src/lint.rs:270-291 | three newline-terminated lines are read as the two errors and the form |
| `LintOracle.ShortAnswer` | src/lint.rs:284-291 | fewer than three lines is an error |
| `LintOracle.Conclude` | src/lint.rs:258-306 | a save happens only with a lower error, for the input text and the database path, together with exactly one report; the result is that of the save |
| `LintOracle.Wait` | src/lint.rs:229-256 | a set timeout bounds the wait; without one, the wait cannot time out |
| `LintOracle.AfterSpawn` | src/lint.rs:229-306 | a timeout note appears iff the wait timed out; at most one diagnostic, the timeout note or a suggestion; whatever is saved lowers the error |
| `LintOracle.TryWithHerbie` | src/lint.rs:180-307 | diagnostics only after a spawn, starting with the "Calling Herbie" note and followed by at most a timeout note or one suggestion; only an improvement is saved; "Could not call Herbie" only when `use_herbie` is `true`, and nothing is sent then |
| `LintOracle.Shallow` | src/lint.rs:181-189 | an expression that cannot be converted, or has depth at most 2, leaves the oracle alone |
| `LintOracle.SpawnFailure` | src/lint.rs:201-212 | a failed spawn is an error iff `use_herbie` is `true`; nothing is sent, reported or saved |
| `LintOracle.SentLambda` | src/lint.rs:220-227 | the oracle is sent `(lambda (<params>) <cmdin>)` followed by a newline |
| `LintOracle.TimedOut` | src/lint.rs:236-239 | a timeout gives the two notes, no save and no error |
| `LintOracle.TimeoutNeedsBound` | src/lint.rs:229-256 | a timeout note needs a configured timeout |
| `LintOracle.OracleFailed` | src/lint.rs:229-256 | a failed wait or an unsuccessful exit is an error, with nothing saved |
| `LintOracle.NoImprovement` | src/lint.rs:294-296 | an answer that does not lower the error is dropped without error |
| `LintOracle.Improvement` | src/lint.rs:298-306 | an improving answer that parses is reported and saved as (input, output text, `""`, errin, errout); the result is the save's |
| `LintOracle.UnreadableCmdout` | src/lint.rs:298-302 | an improving answer that does not parse is `Could not understand herbie-inout cmdout`, with nothing reported |
| `Lint.InitErrorText` | src/lint.rs:47-54 | the two errors print with their own prefixes |
| `Lint.InitErrorTextInjective` | src/lint.rs:47-54 | the printed text determines the error |
| `Lint.InitStep` | src/lint.rs:65-111 | init runs once; after a failure only the flag has changed; after a success the settings and the collected rules are stored |
| `Lint.InitValid` | src/lint.rs:65-111 | init keeps the fields consistent |
| `Lint.InitOnce` | src/lint.rs:66-68 | a second init succeeds and changes nothing |
| `Lint.InitRulesFromRows` | src/lint.rs:78-106 | every loaded rule comes from a readable row that improves |
| `Lint.MatchReports` | src/lint.rs:163-169 | there are never more reports than rules |
| `Lint.AnyMatch` | src/lint.rs:163-169 | some stored rule matches the expression; `ReportsIffMatch` and `Herbie.MatchRules` tie it to the reports and to `got_match` |
| `Lint.EveryMatchReported` | src/lint.rs:163-169 | every matching rule is reported with its bindings |
| `Lint.OnlyMatchesReported` | src/lint.rs:163-169 | every report is a suggestion of a matching rule |
| `Lint.ReportsIffMatch` | src/lint.rs:163-169 | there is a report iff `got_match` |
| `Lint.OracleDiags` | src/lint.rs:172-176 | an oracle error becomes a lint after the oracle's own diagnostics |
| `Lint.AfterInit` | src/lint.rs:163-176 | the oracle is called iff settings are present, no rule matched and `use_herbie` is not `false`; otherwise the reports are all there is, followed by the panic when the settings are missing |
| `Lint.CheckStep` | src/lint.rs:125-177 | ignored or non-`f64` expressions change nothing; otherwise the state is that of init |
| `Lint.Untouched` | src/lint.rs:142-150 | an ignored item or a non-`f64` expression is left alone |
| `Lint.MatchedNoOracle` | src/lint.rs:172-176 | a matching rule keeps the oracle out |
| `Lint.DisabledNoOracle` | src/lint.rs:172 | with `use_herbie = false` the oracle is never called |
| `Lint.OracleErrorLinted` | src/lint.rs:172-176 | a lint appears iff the oracle failed, and it carries that error's text |
| `Lint.OracleNotesOnly` | src/lint.rs:180-307 | the oracle's own diagnostics are notes and suggestions only |
| `Lint.FailedInitThenPanic` | src/lint.rs:65-171 | after a failed init, the next `f64` expression panics at "Configuration should be read by now" |
| `Lint.FailedInitNoted` | src/lint.rs:152-161 | a failing init is reported as one lint "Could not initialize Herbie-Lint" with the error's text as its note, and nothing else happens |
| `Lint.Herbie.constructor` | src/lint.rs:57-63 | a new `Herbie` has no settings, no flag and no rules |
| `Lint.Herbie.Init` | src/lint.rs:65-111 | the method keeps the fields valid and computes `InitStep` |
| `Lint.Herbie.MatchRules` | src/lint.rs:163-169 | the loop gives `MatchReports`, and `got_match` holds iff some rule matches |
| `Lint.Herbie.CheckExpr` | src/lint.rs:125-177 | the method keeps the fields valid and computes `CheckStep` |

## Left out

- `LispExpr::from_expr`, `depth`, `to_rust`, `match_expr` and `Parser::new()`/`parse()`. lint.rs uses these through a newer lisp.rs API than the one shown. They are the abstract `LintOracle.Host` and `LintRules.ParserApi`. The `from_expr` in the shown lisp.rs works on rustc's `hir::Expr`, which is not part of this model.
- IEEE 754 floats. Literals are an abstract type, and error measures are `real`. NaN comparisons and the `{}` formatting of `f64` are not modelled. `num` and `show` are parameters.
- rustc itself: finding the enclosing item's attributes, the panic "how did I get there?", spans, and the lint and note machinery. Attributes and types are booleans, and diagnostics are values of `Diag`.
- SQLite. Opening, preparing and querying are one `Result` of rows. `row.get(1)` and `row.get(2)` are assumed to succeed, where the source panics on a column of the wrong type. The save is one `Result`.
- The child process. Spawning, the two waits, `stdout` and `read_to_string` are given answers (`Oracle`). The `expect`s on writing to stdin are not modelled. Nothing is said about stdin staying open during the wait.
- `read_conf`: file and TOML I/O, which `unwrap` on failure. `init` uses it through `try!` and a `conf::ConfError` that src/conf.rs does not define. Reading the settings is therefore a `Result<Conf, string>` input.
- `Debug for LispExpr` and `LispExprError`. Both are only used for printing or by `from_expr`.
- Text tests whose instances are costly to check literally, such as the nested forms of tests/lisp.rs lines 69-91. The general round trip `ParseSpelling` covers them.
- Some cases in tests/lisp.rs disagree with src/lisp.rs:
  - Lines 22-23 and 86-91 expect fresh numbering of identifiers.
  - Lines 59, 61 and 64-66 expect arity and name checks.
  - Line 33 expects digits in names.
  These belong to a newer parser. The modelled parser gives `DigitInName`, `UnclosedCallWithArguments` and the cases above instead.
- LintOracle.Wait: waits `WaitBoundMs(timeout)`, the intended bound, not the `u32` product of src/lint.rs:231 that wraps in a release build and panics in a debug build (see Findings). `TimedOut` and the other lemmas that name the wait state their requires with the same corrected bound.
- LintOracle.TryWithHerbie: inherits that corrected bound from `Wait`.
- `Text.Lines` strips a `'\r'` from every line, the unterminated last line included. This is `str::lines` as it behaved when the source was written; the current standard library keeps a `'\r'` that ends an unterminated last line.

## Findings

| source | as written | input that shows it | evidently intended | confidence | as-written member | corrected member |
|---|---|---|---|---|---|---|
| src/lint.rs:231 | `wait_timeout_ms(timeout*1000)` multiplies in `u32`; a release build wraps, and a debug build panics | `timeout = 4294968` waits 704 ms instead of about 49.7 days | a wait of `timeout` seconds | not executed | `LintOracle.WaitBoundAsWritten` | `LintOracle.WaitBoundMs` |
