/**
 * The decisions of `try_with_herbie` in src/lint.rs, which hands an
 * expression to the external `herbie-inout` oracle and reads its verdict.
 *
 * Everything the function does to the outside world is an input here: the
 * host's side of the tree API (`Host`), and what spawning, waiting for,
 * reading and saving the oracle's answer give back (`Oracle`). What the
 * function does in return is its `Effects`: the diagnostics it emits, the
 * command it starts and the text it writes to it, the row it saves, and
 * its result.
 */
module LintOracle {
  import opened Wrappers
  import opened Text
  import opened Lisp
  import opened Conf
  import opened LintRules

  /**
   * The host side of the tree API, which belongs to a newer `lisp.rs` than
   * the one modelled here: `LispExpr::from_expr` (the tree, the number of
   * ids, the bindings), `depth()`, `to_lisp("herbie")` and `match_expr`.
   */
  datatype Host<!X, B> = Host(
    fromExpr: X -> Option<(LispExpr<real>, nat, B)>,
    depth: LispExpr<real> -> nat,
    herbieText: LispExpr<real> -> string,
    matchExpr: (X, LispExpr<real>) -> Option<B>)

  /** An `ExitStatus`: whether it is a success, and how it prints. */
  datatype Status = Status(success: bool, text: string)

  /**
   * What the outside world answers: `spawn()`; `wait_timeout_ms(ms)`, where
   * `Ok(None)` is a timeout; `wait()`; `child.stdout` and `read_to_string`;
   * and `save`.
   */
  datatype Oracle = Oracle(
    spawn: Result<(), string>,
    waitBounded: nat -> Result<Option<Status>, string>,
    waitUnbounded: Result<Status, string>,
    stdout: Option<Result<string, string>>,
    save: Result<(), string>)

  /** The errors `try_with_herbie` returns, one per `Err` in its body. */
  datatype HerbieError =
    | CouldNotCall(reason: string)
    | BadStatus(status: string)
    | WaitFailed(reason: string)
    | NoStdout
    | ReadFailed(reason: string)
    | BadOutput
    | BadCmdout
    | SaveFailed(reason: string)

  /** The text of each error, as the lint prints it. */
  function Message(e: HerbieError): string
  {
    match e
    case CouldNotCall(m) => "Could not call Herbie: " + m
    case BadStatus(s) => "herbie-inout did not return successfully: status=" + s
    case WaitFailed(m) => "herbie-inout did not return successfully: " + m
    case NoStdout => "cannot capture herbie-inout output"
    case ReadFailed(m) => "cannot read output: " + m
    case BadOutput => "Could not parse herbie-inout output"
    case BadCmdout => "Could not understand herbie-inout cmdout"
    case SaveFailed(m) => "Could not save database, got SQL error " + m
  }

  /**
   * What the lint pass emits: the lint that `init` failed, with the error's
   * text as its note; a rewrite suggestion (`report`); a note without error;
   * a lint warning; and the panic of an `expect`.
   */
  datatype Diag<B> =
    | InitFailed(message: string, note: string)
    | Unstable(cmdout: LispExpr<real>, bindings: B)
    | Note(text: string)
    | Lint(text: string)
    | Panic(text: string)

  const CallingNote: string := "Calling Herbie on the following expression, it might take a while"
  const TimedOutNote: string := "Herbie timed out"

  /** The arguments of `save`: the database, the input text, the output text, the options, the two errors. */
  datatype SaveRecord = SaveRecord(dbPath: string, cmdin: string, cmdout: string, opts: string, errin: real, errout: real)

  /** What one call does: diagnostics, the command started, what is written to it, the row saved, the result. */
  datatype Effects<B> = Effects(
    diags: seq<Diag<B>>,
    spawned: Option<seq<string>>,
    sent: Option<string>,
    saved: Option<SaveRecord>,
    result: Result<(), HerbieError>)

  /** The command line: `herbie-inout --seed <seed> -o rules:numerics`. */
  function Command(conf: Conf): (args: seq<string>)
    ensures |args| == 5 && args[0] == "herbie-inout" && args[2] == conf.herbieSeed
  {
    ["herbie-inout", "--seed", conf.herbieSeed, "-o", "rules:numerics"]
  }

  // ---------------------------------------------------------------------------
  // The text sent to the oracle.

  /**
   * `(0..nb_ids).map(|id| format!("herbie{}", id))`: one name per id, none
   * of them empty or holding a blank, so that they can be joined with blanks.
   */
  function ParamNames(n: nat): (names: seq<string>)
    ensures |names| == n
    ensures forall i | 0 <= i < n :: names[i] == "herbie" + NatToDecimal(i)
    ensures forall i | 0 <= i < n :: names[i] != "" && ' ' !in names[i]
  {
    seq(n, i requires 0 <= i => "herbie" + NatToDecimal(i))
  }

  /** Different ids get different names: the lambda binds each parameter once. */
  lemma ParamNamesDistinct(n: nat, i: nat, j: nat)
    requires i < n && j < n && i != j
    ensures ParamNames(n)[i] != ParamNames(n)[j]
  {
    var names := ParamNames(n);
    var di, dj := NatToDecimal(i), NatToDecimal(j);
    assert names[i][6..] == di && names[j][6..] == dj;
    assert DecimalValue(di) != DecimalValue(dj);
  }

  /** `.join(" ")`. */
  function Params(n: nat): string
  {
    Join(' ', ParamNames(n))
  }

  /** `format!("(lambda ({}) {})\n", params, cmdin)`. */
  function Lambda(n: nat, cmdin: string): string
  {
    "(lambda (" + Params(n) + ") " + cmdin + ")\n"
  }

  /** The parameter list reads back, split at its blanks, as the names `herbie0` to `herbie{n-1}`. */
  lemma ParamsReadBack(n: nat)
    requires n >= 1
    ensures Split(Params(n), ' ') == ParamNames(n)
  {
    SplitJoin(ParamNames(n), ' ');
  }

  /** Without ids the parameter list is empty: `(lambda () <cmdin>)`. */
  lemma NoParams(cmdin: string)
    ensures Lambda(0, cmdin) == "(lambda () " + cmdin + ")\n"
  {
  }

  // ---------------------------------------------------------------------------
  // The wait bound.

  /** `timeout*1000` in `u32` as written: the product wraps around in a release build. */
  function WaitBoundAsWritten(t: U32): (ms: U32)
    ensures (t * 1000 - ms) % 0x1_0000_0000 == 0
  {
    (t * 1000) % 0x1_0000_0000
  }

  /** The bound evidently intended: `timeout` seconds, in milliseconds, without overflow. */
  function WaitBoundMs(t: U32): (ms: nat)
    ensures ms / 1000 == t && ms % 1000 == 0
  {
    t * 1000
  }

  /** For every timeout up to 4294967 seconds the two agree. */
  lemma WaitBoundAgrees(t: U32)
    requires t <= 4294967
    ensures WaitBoundAsWritten(t) == WaitBoundMs(t)
  {
  }

  /** From 4294968 seconds on the written bound wraps: about 49.7 days become 704 milliseconds. */
  lemma WaitBoundWraps()
    ensures WaitBoundAsWritten(4294968) == 704
    ensures WaitBoundMs(4294968) == 4294968000
  {
  }

  // ---------------------------------------------------------------------------
  // Reading the oracle's answer.

  /** The `i`th `output.next()`. */
  function Nth(lines: seq<string>, i: nat): (r: Option<string>)
    ensures r.Some? <==> i < |lines|
    ensures r.Some? ==> r.value == lines[i]
  {
    if i < |lines| then Some(lines[i]) else None
  }

  /** The `parse_error` closure: the number after the last blank of a line. */
  function ErrorOfLine(num: string -> Option<real>, line: Option<string>): (r: Option<real>)
    ensures line.None? ==> r.None?
    ensures line.Some? ==> r == LineError(num, line.value)
  {
    match line
    case None => None
    case Some(s) => LineError(num, s)
  }

  /** The number after the last blank of a line. */
  function LineError(num: string -> Option<real>, line: string): Option<real>
  {
    num(LastField(line, ' '))
  }

  /** The lines of the answer read as the error before, the error after, and the rewritten form. */
  function ReadLines(num: string -> Option<real>, lines: seq<string>): (r: Result<(real, real, string), HerbieError>)
    ensures r.Err? ==> r.error == BadOutput
  {
    var errin := ErrorOfLine(num, Nth(lines, 0));
    var errout := ErrorOfLine(num, Nth(lines, 1));
    var cmdout := Nth(lines, 2);
    if errin.Some? && errout.Some? && cmdout.Some? then Ok((errin.value, errout.value, cmdout.value))
    else Err(BadOutput)
  }

  /** The oracle's whole answer, read line by line. */
  function ReadAnswer(num: string -> Option<real>, output: string): (r: Result<(real, real, string), HerbieError>)
    ensures r.Err? ==> r.error == BadOutput
  {
    ReadLines(num, Lines(output))
  }

  /**
   * The lines are read exactly when there are three and the first two end in
   * numbers; the errors are those numbers and the form is the third line.
   */
  lemma ReadLinesMeaning(num: string -> Option<real>, lines: seq<string>)
    ensures ReadLines(num, lines).Ok? <==>
      (|lines| >= 3 && LineError(num, lines[0]).Some? && LineError(num, lines[1]).Some?)
    ensures ReadLines(num, lines).Ok? ==>
      ReadLines(num, lines).value == (LineError(num, lines[0]).value, LineError(num, lines[1]).value, lines[2])
  {
    if |lines| >= 3 {
      var ei, eo := LineError(num, lines[0]), LineError(num, lines[1]);
      assert Nth(lines, 0) == Some(lines[0]) && Nth(lines, 1) == Some(lines[1]) && Nth(lines, 2) == Some(lines[2]);
      assert ErrorOfLine(num, Nth(lines, 0)) == ei && ErrorOfLine(num, Nth(lines, 1)) == eo;
      assert ReadLines(num, lines) == if ei.Some? && eo.Some? then Ok((ei.value, eo.value, lines[2])) else Err(BadOutput);
    } else {
      assert Nth(lines, 2).None?;
      assert ReadLines(num, lines) == Err(BadOutput);
    }
  }

  /** Three newline-terminated lines are read as the two errors and the form. */
  lemma ReadThreeLines(num: string -> Option<real>, a: string, b: string, c: string)
    requires '\n' !in a && '\n' !in b && '\n' !in c
    requires '\r' !in a && '\r' !in b && '\r' !in c
    requires LineError(num, a).Some? && LineError(num, b).Some?
    ensures ReadAnswer(num, a + "\n" + b + "\n" + c + "\n") ==
      Ok((LineError(num, a).value, LineError(num, b).value, c))
  {
    ThreeLines(a, b, c);
    ReadLinesMeaning(num, [a, b, c]);
  }

  // ---------------------------------------------------------------------------
  // `try_with_herbie`.

  /** After the oracle exited successfully: read, compare, parse, report and save. */
  function Conclude<X, B, P>(host: Host<X, B>, api: ParserApi<P>, num: string -> Option<real>, conf: Conf,
                             cmdin: string, bindings: B, oracle: Oracle): (r: (seq<Diag<B>>, Option<SaveRecord>, Result<(), HerbieError>))
    ensures r.1.Some? ==> r.1.value.errin > r.1.value.errout && r.1.value.cmdin == cmdin && r.1.value.dbPath == conf.dbPath
    ensures r.1.Some? <==> |r.0| == 1
    ensures r.1.Some? ==> r.0[0].Unstable? && r.0[0].bindings == bindings && r.1.value.cmdout == host.herbieText(r.0[0].cmdout)
    ensures r.1.Some? ==> r.2 == (if oracle.save.Ok? then Ok(()) else Err(SaveFailed(oracle.save.error)))
    ensures r.1.None? ==> r.0 == []
    ensures Note(TimedOutNote) !in r.0
    ensures r.2.Err? ==> !r.2.error.CouldNotCall?
  {
    match oracle.stdout
    case None => ([], None, Err(NoStdout))
    case Some(Err(m)) => ([], None, Err(ReadFailed(m)))
    case Some(Ok(output)) =>
      match ReadAnswer(num, output)
      case Err(e) => ([], None, Err(e))
      case Ok((errin, errout, text)) =>
        if errin <= errout then ([], None, Ok(()))
        else
          match api.parse(api.start, text).0
          case None => ([], None, Err(BadCmdout))
          case Some(cmdout) =>
            var row := SaveRecord(conf.dbPath, cmdin, host.herbieText(cmdout), "", errin, errout);
            var res := match oracle.save case Ok(_) => Ok(()) case Err(m) => Err(SaveFailed(m));
            ([Unstable(cmdout, bindings)], Some(row), res)
  }

  /** The wait: bounded when a timeout is set, with the bound in milliseconds. */
  function Wait(conf: Conf, oracle: Oracle): (r: Result<Option<Status>, string>)
    ensures conf.timeout.Some? ==> r == oracle.waitBounded(WaitBoundMs(conf.timeout.value))
    ensures conf.timeout.None? ==> r.Ok? ==> r.value.Some?
  {
    match conf.timeout
    case Some(t) => oracle.waitBounded(WaitBoundMs(t))
    case None =>
      match oracle.waitUnbounded
      case Ok(status) => Ok(Some(status))
      case Err(m) => Err(m)
  }

  /**
   * Once the oracle runs: what follows the "Calling Herbie" note, the row
   * saved and the result, from what the wait gave back.
   */
  function AfterSpawn<X, B, P>(host: Host<X, B>, api: ParserApi<P>, num: string -> Option<real>, conf: Conf,
                               cmdin: string, bindings: B, oracle: Oracle, waited: Result<Option<Status>, string>)
    : (r: (seq<Diag<B>>, Option<SaveRecord>, Result<(), HerbieError>))
    ensures Note(TimedOutNote) in r.0 <==> waited == Ok(None)
    ensures |r.0| <= 1 && (|r.0| == 1 ==> r.0[0] == Note(TimedOutNote) || r.0[0].Unstable?)
    ensures r.1.Some? ==> r.1.value.errin > r.1.value.errout && r.1.value.cmdin == cmdin
    ensures r.2.Err? ==> !r.2.error.CouldNotCall?
  {
    match waited
    case Err(m) => ([], None, Err(WaitFailed(m)))
    case Ok(None) => ([Note(TimedOutNote)], None, Ok(()))
    case Ok(Some(status)) =>
      if !status.success then ([], None, Err(BadStatus(status.text)))
      else Conclude(host, api, num, conf, cmdin, bindings, oracle)
  }

  /** `try_with_herbie(cx, expr, conf)`. */
  function TryWithHerbie<X, B, P>(host: Host<X, B>, api: ParserApi<P>, num: string -> Option<real>,
                                  conf: Conf, x: X, oracle: Oracle): (r: Effects<B>)
    ensures r.diags != [] ==> r.spawned == Some(Command(conf)) && r.diags[0] == Note(CallingNote)
    ensures |r.diags| <= 2 && (|r.diags| == 2 ==> r.diags[1] == Note(TimedOutNote) || r.diags[1].Unstable?)
    ensures r.sent.Some? ==> r.spawned.Some?
    ensures r.saved.Some? ==> r.saved.value.errin > r.saved.value.errout
    ensures r.result.Err? && r.result.error.CouldNotCall? ==> conf.useHerbie == Yes && r.sent.None?
  {
    match host.fromExpr(x)
    case None => Effects([], None, None, None, Ok(()))
    case Some((e, n, bindings)) =>
      if host.depth(e) <= 2 then Effects([], None, None, None, Ok(()))
      else if oracle.spawn.Err? then
        Effects([], Some(Command(conf)), None, None, if conf.useHerbie == Yes then Err(CouldNotCall(oracle.spawn.error)) else Ok(()))
      else
        var cmdin := host.herbieText(e);
        var rest := AfterSpawn(host, api, num, conf, cmdin, bindings, oracle, Wait(conf, oracle));
        Effects([Note(CallingNote)] + rest.0, Some(Command(conf)), Some(Lambda(n, cmdin)), rest.1, rest.2)
  }

  // ---------------------------------------------------------------------------
  // Properties of `try_with_herbie`.

  /** An expression that cannot be converted, or is shallow, is left alone: the oracle is not involved. */
  lemma Shallow<X, B, P>(host: Host<X, B>, api: ParserApi<P>, num: string -> Option<real>, conf: Conf, x: X, oracle: Oracle)
    requires host.fromExpr(x).None? || host.depth(host.fromExpr(x).value.0) <= 2
    ensures TryWithHerbie(host, api, num, conf, x, oracle) == Effects([], None, None, None, Ok(()))
  {
  }

  /** A failed spawn is an error only when the oracle is required; nothing is emitted or sent. */
  lemma SpawnFailure<X, B, P>(host: Host<X, B>, api: ParserApi<P>, num: string -> Option<real>, conf: Conf, x: X, oracle: Oracle)
    requires host.fromExpr(x).Some? && host.depth(host.fromExpr(x).value.0) > 2
    requires oracle.spawn.Err?
    ensures var r := TryWithHerbie(host, api, num, conf, x, oracle);
      r.diags == [] && r.sent == None && r.saved == None &&
      (r.result.Err? <==> conf.useHerbie == Yes)
  {
  }

  /** Once spawned, the oracle is sent the lambda over `herbie0 … herbie{n-1}` and the input form. */
  lemma SentLambda<X, B, P>(host: Host<X, B>, api: ParserApi<P>, num: string -> Option<real>, conf: Conf, x: X, oracle: Oracle)
    requires host.fromExpr(x).Some? && host.depth(host.fromExpr(x).value.0) > 2
    requires oracle.spawn.Ok?
    ensures var (e, n, _) := host.fromExpr(x).value;
      TryWithHerbie(host, api, num, conf, x, oracle).sent == Some(Lambda(n, host.herbieText(e)))
  {
  }

  /** A timeout is a note, not an error, and nothing is read or saved. */
  lemma TimedOut<X, B, P>(host: Host<X, B>, api: ParserApi<P>, num: string -> Option<real>, conf: Conf, x: X, oracle: Oracle)
    requires host.fromExpr(x).Some? && host.depth(host.fromExpr(x).value.0) > 2
    requires oracle.spawn.Ok? && conf.timeout.Some?
    requires oracle.waitBounded(WaitBoundMs(conf.timeout.value)) == Ok(None)
    ensures var r := TryWithHerbie(host, api, num, conf, x, oracle);
      r.diags == [Note(CallingNote), Note(TimedOutNote)] && r.saved == None && r.result == Ok(())
  {
  }

  /** Without a timeout the wait cannot time out: a note about a timeout needs one. */
  lemma TimeoutNeedsBound<X, B, P>(host: Host<X, B>, api: ParserApi<P>, num: string -> Option<real>, conf: Conf, x: X, oracle: Oracle)
    requires Note(TimedOutNote) in TryWithHerbie(host, api, num, conf, x, oracle).diags
    ensures conf.timeout.Some?
  {
    var (e, n, bindings) := host.fromExpr(x).value;
    var rest := AfterSpawn(host, api, num, conf, host.herbieText(e), bindings, oracle, Wait(conf, oracle));
    assert Note(TimedOutNote) in [Note(CallingNote)] + rest.0;
    assert Note(TimedOutNote) in rest.0;
  }

  /** An exit that is not a success, or a failed wait, is an error with nothing saved. */
  lemma OracleFailed<X, B, P>(host: Host<X, B>, api: ParserApi<P>, num: string -> Option<real>, conf: Conf, x: X, oracle: Oracle)
    requires host.fromExpr(x).Some? && host.depth(host.fromExpr(x).value.0) > 2
    requires oracle.spawn.Ok?
    requires Wait(conf, oracle).Err? || (Wait(conf, oracle).value.Some? && !Wait(conf, oracle).value.value.success)
    ensures var r := TryWithHerbie(host, api, num, conf, x, oracle);
      r.result.Err? && r.saved == None && r.diags == [Note(CallingNote)]
  {
  }

  /** An answer that does not lower the error is dropped: no report, no save, no error. */
  lemma NoImprovement<X, B, P>(host: Host<X, B>, api: ParserApi<P>, num: string -> Option<real>, conf: Conf, x: X,
                               oracle: Oracle, output: string)
    requires host.fromExpr(x).Some? && host.depth(host.fromExpr(x).value.0) > 2
    requires oracle.spawn.Ok? && Wait(conf, oracle).Ok? && Wait(conf, oracle).value.Some? && Wait(conf, oracle).value.value.success
    requires oracle.stdout == Some(Ok(output)) && ReadAnswer(num, output).Ok?
    requires ReadAnswer(num, output).value.0 <= ReadAnswer(num, output).value.1
    ensures var r := TryWithHerbie(host, api, num, conf, x, oracle);
      r.diags == [Note(CallingNote)] && r.saved == None && r.result == Ok(())
  {
  }

  /**
   * An answer that lowers the error and parses is reported and saved: the
   * saved row holds the input text, the output's text, empty options and
   * the two errors; the result is that of the save.
   */
  lemma Improvement<X, B, P>(host: Host<X, B>, api: ParserApi<P>, num: string -> Option<real>, conf: Conf, x: X,
                             oracle: Oracle, output: string)
    requires host.fromExpr(x).Some? && host.depth(host.fromExpr(x).value.0) > 2
    requires oracle.spawn.Ok? && Wait(conf, oracle).Ok? && Wait(conf, oracle).value.Some? && Wait(conf, oracle).value.value.success
    requires oracle.stdout == Some(Ok(output)) && ReadAnswer(num, output).Ok?
    requires ReadAnswer(num, output).value.0 > ReadAnswer(num, output).value.1
    requires api.parse(api.start, ReadAnswer(num, output).value.2).0.Some?
    ensures var (e, _, bindings) := host.fromExpr(x).value;
      var (errin, errout, text) := ReadAnswer(num, output).value;
      var cmdout := api.parse(api.start, text).0.value;
      var r := TryWithHerbie(host, api, num, conf, x, oracle);
      r.diags == [Note(CallingNote), Unstable(cmdout, bindings)] &&
      r.saved == Some(SaveRecord(conf.dbPath, host.herbieText(e), host.herbieText(cmdout), "", errin, errout)) &&
      r.result == (if oracle.save.Ok? then Ok(()) else Err(SaveFailed(oracle.save.error)))
  {
  }

  /** An improving answer whose form does not parse is an error, with nothing reported. */
  lemma UnreadableCmdout<X, B, P>(host: Host<X, B>, api: ParserApi<P>, num: string -> Option<real>, conf: Conf, x: X,
                                  oracle: Oracle, output: string)
    requires host.fromExpr(x).Some? && host.depth(host.fromExpr(x).value.0) > 2
    requires oracle.spawn.Ok? && Wait(conf, oracle).Ok? && Wait(conf, oracle).value.Some? && Wait(conf, oracle).value.value.success
    requires oracle.stdout == Some(Ok(output)) && ReadAnswer(num, output).Ok?
    requires ReadAnswer(num, output).value.0 > ReadAnswer(num, output).value.1
    requires api.parse(api.start, ReadAnswer(num, output).value.2).0.None?
    ensures var r := TryWithHerbie(host, api, num, conf, x, oracle);
      r.diags == [Note(CallingNote)] && r.saved == None && r.result == Err(BadCmdout)
  {
  }

  /** An answer with fewer than three lines is an error, whatever the float parser says. */
  lemma ShortAnswer(num: string -> Option<real>, output: string)
    requires |Lines(output)| < 3
    ensures ReadAnswer(num, output) == Err(BadOutput)
  {
  }
}
