/**
 * The decisions of the lint pass in src/lint.rs: the `Herbie` object, its
 * one-time `init`, and `check_expr`, which reports every stored rewrite
 * whose pattern matches an `f64` expression and calls the oracle only when
 * none does.
 *
 * The compiler's side is abstract: whether the enclosing item carries
 * `#[herbie_ignore]`, whether the expression is an `f64`, and the tree API
 * of `LintOracle.Host`. Reading the configuration and querying the database
 * are inputs, one `Result` each.
 */
module Lint {
  import opened Wrappers
  import opened Lisp
  import opened Conf
  import opened LintRules
  import opened LintOracle

  /** `InitError`: the configuration could not be read, or the database could not be queried. */
  datatype InitError = ConfError(reason: string) | SqlError(reason: string)

  const ConfPrefix: string := "Configuration error: "
  const SqlPrefix: string := "Got SQL error: "

  /** `Display for InitError`. */
  function InitErrorText(e: InitError): (t: string)
    ensures e.ConfError? ==> |t| >= |ConfPrefix| && t[..|ConfPrefix|] == ConfPrefix
    ensures e.SqlError? ==> |t| >= |SqlPrefix| && t[..|SqlPrefix|] == SqlPrefix
  {
    match e
    case ConfError(m) => ConfPrefix + m
    case SqlError(m) => SqlPrefix + m
  }

  /** The text of an init error tells which error it was and why: the display is one-to-one. */
  lemma InitErrorTextInjective(a: InitError, b: InitError)
    requires InitErrorText(a) == InitErrorText(b)
    ensures a == b
  {
    var ta, tb := InitErrorText(a), InitErrorText(b);
    assert ta[0] == (if a.ConfError? then ConfPrefix[0] else SqlPrefix[0]);
    assert tb[0] == (if b.ConfError? then ConfPrefix[0] else SqlPrefix[0]);
    if a.ConfError? == b.ConfError? {
      if a.ConfError? {
        assert a.reason == ta[|ConfPrefix|..] == tb[|ConfPrefix|..] == b.reason;
      } else {
        assert a.reason == ta[|SqlPrefix|..] == tb[|SqlPrefix|..] == b.reason;
      }
    } else {
      assert false;
    }
  }

  /** The message of the lint that reports a failed `init`. */
  const InitFailedMessage: string := "Could not initialize Herbie-Lint"

  /** The `expect` after the loop of `check_expr`. */
  const ConfMissing: string := "Configuration should be read by now"

  /** The fields of `Herbie`. */
  datatype HerbieState = HerbieState(conf: Option<Conf>, initialized: bool, subs: seq<Rule>)

  /** `Herbie::new()`. */
  const NewState: HerbieState := HerbieState(None, false, [])

  /** What the fields always satisfy: settings and rules appear only after `init`, and rules only with settings. */
  predicate ValidState(st: HerbieState)
  {
    (!st.initialized ==> st.conf.None?) && (st.conf.None? ==> st.subs == [])
  }

  /**
   * `Herbie::init`, given what reading the configuration and querying the
   * database at its path give back. It runs once: the flag is set before
   * either step, so a failure is never retried.
   */
  function InitStep<P>(st: HerbieState, readConf: Result<Conf, string>,
                       db: string -> Result<seq<Result<Row, string>>, string>, api: ParserApi<P>)
    : (r: (Result<(), InitError>, HerbieState))
    ensures r.1.initialized
    ensures st.initialized ==> r == (Ok(()), st)
    ensures r.0.Err? ==> r.1 == st.(initialized := true) && !st.initialized
    ensures r.0.Err? ==> (r.0.error.ConfError? <==> readConf.Err?)
    ensures r.0.Ok? && !st.initialized ==> (readConf.Ok? && db(readConf.value.dbPath).Ok? &&
      r.1 == HerbieState(Some(readConf.value), true, Rules(api, db(readConf.value.dbPath).value)))
  {
    if st.initialized then (Ok(()), st)
    else
      var st1 := st.(initialized := true);
      match readConf
      case Err(m) => (Err(ConfError(m)), st1)
      case Ok(conf) =>
        match db(conf.dbPath)
        case Err(m) => (Err(SqlError(m)), st1)
        case Ok(rows) => (Ok(()), st1.(conf := Some(conf), subs := Rules(api, rows)))
  }

  /** `init` keeps the fields valid. */
  lemma InitValid<P>(st: HerbieState, readConf: Result<Conf, string>,
                     db: string -> Result<seq<Result<Row, string>>, string>, api: ParserApi<P>)
    requires ValidState(st)
    ensures ValidState(InitStep(st, readConf, db, api).1)
  {
  }

  /** A second `init` succeeds and changes nothing, whatever the first one did. */
  lemma InitOnce<P>(st: HerbieState, readConf: Result<Conf, string>,
                    db: string -> Result<seq<Result<Row, string>>, string>, api: ParserApi<P>,
                    readConf': Result<Conf, string>, db': string -> Result<seq<Result<Row, string>>, string>)
    ensures var st1 := InitStep(st, readConf, db, api).1;
      InitStep(st1, readConf', db', api) == (Ok(()), st1)
  {
  }

  /** Every rule `init` loads comes from a readable row that improves and parses. */
  lemma InitRulesFromRows<P>(readConf: Result<Conf, string>,
                             db: string -> Result<seq<Result<Row, string>>, string>, api: ParserApi<P>, k: nat)
    requires var (r, st) := InitStep(NewState, readConf, db, api); r.Ok? && k < |st.subs|
    ensures var rows := db(readConf.value.dbPath).value;
      exists i | 0 <= i < |rows| :: rows[i].Ok? && Improves(rows[i].value) &&
        RowRule(api, rows[i]) == Some(InitStep(NewState, readConf, db, api).1.subs[k])
  {
    var rows := db(readConf.value.dbPath).value;
    RulesFromRows(api, rows, k);
  }

  // ---------------------------------------------------------------------------
  // Matching the stored rules.

  /** What the loop of `check_expr` reports: one suggestion per matching rule, in rule order. */
  function MatchReports<X, B>(host: Host<X, B>, x: X, subs: seq<Rule>): (r: seq<Diag<B>>)
    ensures |r| <= |subs|
  {
    if subs == [] then []
    else
      var last := subs[|subs| - 1];
      MatchReports(host, x, subs[..|subs| - 1]) +
        match host.matchExpr(x, last.0) case None => [] case Some(b) => [Unstable(last.1, b)]
  }

  /** `got_match`: some stored pattern matches the expression. */
  predicate AnyMatch<X, B>(host: Host<X, B>, x: X, subs: seq<Rule>)
  {
    exists i | 0 <= i < |subs| :: host.matchExpr(x, subs[i].0).Some?
  }

  /** Every matching rule is reported, with its bindings. */
  lemma {:induction false} EveryMatchReported<X, B>(host: Host<X, B>, x: X, subs: seq<Rule>, i: nat)
    requires i < |subs| && host.matchExpr(x, subs[i].0).Some?
    ensures Unstable(subs[i].1, host.matchExpr(x, subs[i].0).value) in MatchReports(host, x, subs)
  {
    if i < |subs| - 1 {
      EveryMatchReported(host, x, subs[..|subs| - 1], i);
      assert subs[..|subs| - 1][i] == subs[i];
    }
  }

  /** Every report is a matching rule's suggestion. */
  lemma {:induction false} OnlyMatchesReported<X, B>(host: Host<X, B>, x: X, subs: seq<Rule>, d: Diag<B>)
    requires d in MatchReports(host, x, subs)
    ensures d.Unstable?
    ensures exists i | 0 <= i < |subs| :: host.matchExpr(x, subs[i].0) == Some(d.bindings) && d == Unstable(subs[i].1, d.bindings)
  {
    var init := subs[..|subs| - 1];
    var last := subs[|subs| - 1];
    if d in MatchReports(host, x, init) {
      OnlyMatchesReported(host, x, init, d);
      var i :| 0 <= i < |init| && host.matchExpr(x, init[i].0) == Some(d.bindings) && d == Unstable(init[i].1, d.bindings);
      assert init[i] == subs[i];
    } else {
      assert host.matchExpr(x, last.0) == Some(d.bindings) && d == Unstable(last.1, d.bindings);
    }
  }

  /** There is something to report exactly when some rule matches. */
  lemma {:induction false} ReportsIffMatch<X, B>(host: Host<X, B>, x: X, subs: seq<Rule>)
    ensures MatchReports(host, x, subs) != [] <==> AnyMatch(host, x, subs)
  {
    var r := MatchReports(host, x, subs);
    if r != [] {
      OnlyMatchesReported(host, x, subs, r[0]);
    }
    if AnyMatch(host, x, subs) {
      var i :| 0 <= i < |subs| && host.matchExpr(x, subs[i].0).Some?;
      EveryMatchReported(host, x, subs, i);
    }
  }

  // ---------------------------------------------------------------------------
  // `check_expr`.

  /** What one `check_expr` gives: its diagnostics, and the oracle call when there was one. */
  datatype CheckOutcome<B> = CheckOutcome(diags: seq<Diag<B>>, herbie: Option<Effects<B>>)

  /** The diagnostics of an oracle call: its own, then its error as a lint. */
  function OracleDiags<B>(eff: Effects<B>): (d: seq<Diag<B>>)
    ensures eff.result.Ok? ==> d == eff.diags
    ensures eff.result.Err? ==> d == eff.diags + [Lint(Message(eff.result.error))]
  {
    eff.diags + match eff.result case Ok(_) => [] case Err(e) => [Lint(Message(e))]
  }

  /** The part of `check_expr` after a successful `init`: the loop, the `expect`, and the oracle gate. */
  function AfterInit<X, B, P>(st: HerbieState, host: Host<X, B>, api: ParserApi<P>, num: string -> Option<real>,
                              x: X, oracle: Oracle): (r: CheckOutcome<B>)
    ensures r.herbie.Some? ==> st.conf.Some? && st.conf.value.useHerbie != No && !AnyMatch(host, x, st.subs)
    ensures st.conf.Some? && st.conf.value.useHerbie != No && !AnyMatch(host, x, st.subs) ==>
      r == (var eff := TryWithHerbie(host, api, num, st.conf.value, x, oracle); CheckOutcome(OracleDiags(eff), Some(eff)))
    ensures r.herbie.None? ==> r.diags == MatchReports(host, x, st.subs) + (if st.conf.None? then [Panic(ConfMissing)] else [])
  {
    var reports := MatchReports(host, x, st.subs);
    ReportsIffMatch(host, x, st.subs);
    if st.conf.None? then CheckOutcome(reports + [Panic(ConfMissing)], None)
    else if reports == [] && st.conf.value.useHerbie != No then
      var eff := TryWithHerbie(host, api, num, st.conf.value, x, oracle);
      CheckOutcome(OracleDiags(eff), Some(eff))
    else CheckOutcome(reports, None)
  }

  /**
   * `check_expr` on the expression `x`, whose item is `ignored` or not and
   * whose type is `f64` or not: the diagnostics and the fields afterwards.
   */
  function CheckStep<X, B, P>(st: HerbieState, host: Host<X, B>, api: ParserApi<P>, num: string -> Option<real>,
                              ignored: bool, isF64: bool, x: X, oracle: Oracle, readConf: Result<Conf, string>,
                              db: string -> Result<seq<Result<Row, string>>, string>)
    : (r: (CheckOutcome<B>, HerbieState))
    ensures ignored || !isF64 ==> r == (CheckOutcome([], None), st)
    ensures !ignored && isF64 ==> r.1 == InitStep(st, readConf, db, api).1
  {
    if ignored || !isF64 then (CheckOutcome([], None), st)
    else
      var (res, st1) := InitStep(st, readConf, db, api);
      match res
      case Err(e) => (CheckOutcome([InitFailed(InitFailedMessage, InitErrorText(e))], None), st1)
      case Ok(_) => (AfterInit(st1, host, api, num, x, oracle), st1)
  }

  /** An ignored item or a non-`f64` expression is left alone: nothing is read, reported or called. */
  lemma Untouched<X, B, P>(st: HerbieState, host: Host<X, B>, api: ParserApi<P>, num: string -> Option<real>,
                           ignored: bool, isF64: bool, x: X, oracle: Oracle, readConf: Result<Conf, string>,
                           db: string -> Result<seq<Result<Row, string>>, string>)
    requires ignored || !isF64
    ensures CheckStep(st, host, api, num, ignored, isF64, x, oracle, readConf, db) == (CheckOutcome([], None), st)
  {
  }

  /** A matching rule keeps the oracle out: the matches are all that is reported. */
  lemma MatchedNoOracle<X, B, P>(st: HerbieState, host: Host<X, B>, api: ParserApi<P>, num: string -> Option<real>,
                                 x: X, oracle: Oracle)
    requires st.conf.Some? && AnyMatch(host, x, st.subs)
    ensures AfterInit(st, host, api, num, x, oracle) == CheckOutcome(MatchReports(host, x, st.subs), None)
  {
  }

  /** With `use_herbie = false` the oracle is never called. */
  lemma DisabledNoOracle<X, B, P>(st: HerbieState, host: Host<X, B>, api: ParserApi<P>, num: string -> Option<real>,
                                  ignored: bool, isF64: bool, x: X, oracle: Oracle, readConf: Result<Conf, string>,
                                  db: string -> Result<seq<Result<Row, string>>, string>)
    requires var st1 := InitStep(st, readConf, db, api).1; st1.conf.Some? && st1.conf.value.useHerbie == No
    ensures CheckStep(st, host, api, num, ignored, isF64, x, oracle, readConf, db).0.herbie.None?
  {
  }

  /** An oracle error becomes one lint, after the oracle's own diagnostics; no error, no lint. */
  lemma OracleErrorLinted<X, B, P>(host: Host<X, B>, api: ParserApi<P>, num: string -> Option<real>,
                                   conf: Conf, x: X, oracle: Oracle, m: string)
    ensures var eff := TryWithHerbie(host, api, num, conf, x, oracle);
      Lint(m) in OracleDiags(eff) <==> eff.result.Err? && m == Message(eff.result.error)
  {
    var eff := TryWithHerbie(host, api, num, conf, x, oracle);
    OracleNotesOnly(host, api, num, conf, x, oracle);
    assert Lint(m) !in eff.diags;
  }

  /** The oracle's own diagnostics are notes and suggestions, never lints. */
  lemma OracleNotesOnly<X, B, P>(host: Host<X, B>, api: ParserApi<P>, num: string -> Option<real>,
                                 conf: Conf, x: X, oracle: Oracle)
    ensures forall d | d in TryWithHerbie(host, api, num, conf, x, oracle).diags :: d.Note? || d.Unstable?
  {
    var r := TryWithHerbie(host, api, num, conf, x, oracle);
    var ds := r.diags;
    assert ds == [] || ds == [ds[0]] || ds == [ds[0], ds[1]];
  }

  /**
   * After an `init` that failed, the next `f64` expression that is not
   * ignored makes `check_expr` panic at its `expect`: the flag says the
   * settings were read, but they were not.
   */
  lemma FailedInitThenPanic<X, B, P>(st: HerbieState, host: Host<X, B>, api: ParserApi<P>, num: string -> Option<real>,
                                     readConf: Result<Conf, string>, db: string -> Result<seq<Result<Row, string>>, string>,
                                     x: X, oracle: Oracle, readConf': Result<Conf, string>,
                                     db': string -> Result<seq<Result<Row, string>>, string>)
    requires ValidState(st)
    requires InitStep(st, readConf, db, api).0.Err?
    ensures var st1 := InitStep(st, readConf, db, api).1;
      CheckStep(st1, host, api, num, false, true, x, oracle, readConf', db').0 == CheckOutcome([Panic(ConfMissing)], None)
  {
    var st1 := InitStep(st, readConf, db, api).1;
    assert st1.conf.None? && st1.subs == [];
  }

  /**
   * The first failing `init` is reported once, as one lint "Could not
   * initialize Herbie-Lint" with the error's text as its note.
   */
  lemma FailedInitNoted<X, B, P>(st: HerbieState, host: Host<X, B>, api: ParserApi<P>, num: string -> Option<real>,
                                 readConf: Result<Conf, string>, db: string -> Result<seq<Result<Row, string>>, string>,
                                 x: X, oracle: Oracle)
    requires InitStep(st, readConf, db, api).0.Err?
    ensures CheckStep(st, host, api, num, false, true, x, oracle, readConf, db).0 ==
      CheckOutcome([InitFailed(InitFailedMessage, InitErrorText(InitStep(st, readConf, db, api).0.error))], None)
  {
  }

  // ---------------------------------------------------------------------------
  // The object.

  /** `Herbie`: the settings, the once-flag, and the stored rules. */
  class Herbie {
    var conf: Option<Conf>
    var initialized: bool
    var subs: seq<Rule>

    function State(): HerbieState
      reads this
    {
      HerbieState(conf, initialized, subs)
    }

    predicate Valid()
      reads this
    {
      ValidState(State())
    }

    /** `Herbie::new()`. */
    constructor ()
      ensures Valid() && State() == NewState
    {
      conf := None;
      initialized := false;
      subs := [];
    }

    /** `Herbie::init`. */
    method Init<P>(readConf: Result<Conf, string>, db: string -> Result<seq<Result<Row, string>>, string>, api: ParserApi<P>)
      returns (r: Result<(), InitError>)
      requires Valid()
      modifies this
      ensures Valid()
      ensures (r, State()) == InitStep(old(State()), readConf, db, api)
    {
      InitValid(State(), readConf, db, api);
      if initialized {
        return Ok(());
      }
      initialized := true;
      if readConf.Err? {
        return Err(ConfError(readConf.error));
      }
      var c := readConf.value;
      var rows := db(c.dbPath);
      if rows.Err? {
        return Err(SqlError(rows.error));
      }
      subs := Rules(api, rows.value);
      conf := Some(c);
      r := Ok(());
    }

    /** The loop of `check_expr`: every matching rule is reported, and `got_match` records whether one was. */
    method MatchRules<X, B>(host: Host<X, B>, x: X) returns (reports: seq<Diag<B>>, gotMatch: bool)
      ensures reports == MatchReports(host, x, subs)
      ensures gotMatch <==> AnyMatch(host, x, subs)
    {
      reports, gotMatch := [], false;
      var i := 0;
      while i < |subs|
        invariant 0 <= i <= |subs|
        invariant reports == MatchReports(host, x, subs[..i])
        invariant gotMatch <==> AnyMatch(host, x, subs[..i])
      {
        assert subs[..i + 1][..i] == subs[..i];
        match host.matchExpr(x, subs[i].0) {
          case Some(bindings) =>
            reports := reports + [Unstable(subs[i].1, bindings)];
            gotMatch := true;
          case None =>
        }
        i := i + 1;
      }
      assert subs[..i] == subs;
    }

    /** `check_expr`. */
    method CheckExpr<X, B, P>(host: Host<X, B>, api: ParserApi<P>, num: string -> Option<real>,
                              ignored: bool, isF64: bool, x: X, oracle: Oracle, readConf: Result<Conf, string>,
                              db: string -> Result<seq<Result<Row, string>>, string>)
      returns (out: CheckOutcome<B>)
      requires Valid()
      modifies this
      ensures Valid()
      ensures (out, State()) == CheckStep(old(State()), host, api, num, ignored, isF64, x, oracle, readConf, db)
    {
      if ignored || !isF64 {
        return CheckOutcome([], None);
      }
      var res := Init(readConf, db, api);
      if res.Err? {
        return CheckOutcome([InitFailed(InitFailedMessage, InitErrorText(res.error))], None);
      }
      var reports, gotMatch := MatchRules(host, x);
      if conf.None? {
        return CheckOutcome(reports + [Panic(ConfMissing)], None);
      }
      if !gotMatch && conf.value.useHerbie != No {
        var eff := TryWithHerbie(host, api, num, conf.value, x, oracle);
        return CheckOutcome(OracleDiags(eff), Some(eff));
      }
      out := CheckOutcome(reports, None);
    }
  }
}
