/**
 * How `Herbie::init` in src/lint.rs turns the rows of the `HerbieResults`
 * table into rewrite rules: the filter inside its `filter_map`.
 *
 * The parser `lint.rs` calls (`lisp::Parser::new()` and `parser.parse(s)`)
 * belongs to a newer `lisp.rs` than the one modelled in `LispParse`; it is
 * an abstract `ParserApi` here, whose state carries over from one `parse`
 * call to the next.
 */
module LintRules {
  import opened Wrappers
  import opened Lisp

  /** The row's columns as `init` reads them: 1 and 2 as text, 4 and 5 with `get_checked`. */
  datatype Row = Row(cmdin: string, cmdout: string, errin: Option<real>, errout: Option<real>)

  /** A stored rewrite: the pattern to look for and the tree to suggest instead. */
  type Rule = (LispExpr<real>, LispExpr<real>)

  /** `lisp::Parser::new()` and `parser.parse(s)`: a verdict and the parser afterwards. */
  datatype ParserApi<!P> = ParserApi(start: P, parse: (P, string) -> (Option<LispExpr<real>>, P))

  /** `unwrap_or(0.)`. */
  function OrZero(x: Option<real>): (r: real)
    ensures x.Some? ==> r == x.value
    ensures x.None? ==> r == 0.0
  {
    match x
    case None => 0.0
    case Some(v) => v
  }

  /** The test `cmdin == cmdout || errin <= errout`, negated: a real rewrite that lowers the error. */
  predicate Improves(row: Row)
  {
    row.cmdin != row.cmdout && OrZero(row.errin) > OrZero(row.errout)
  }

  /** Both forms read by one fresh parser, `cmdin` first. */
  function ParsePair<P>(api: ParserApi<P>, cmdin: string, cmdout: string): (r: Option<Rule>)
    ensures r.Some? <==> api.parse(api.start, cmdin).0.Some? && api.parse(api.parse(api.start, cmdin).1, cmdout).0.Some?
    ensures r.Some? ==> r.value.0 == api.parse(api.start, cmdin).0.value
    ensures r.Some? ==> r.value.1 == api.parse(api.parse(api.start, cmdin).1, cmdout).0.value
  {
    var parser := api.start;
    var (a, parser1) := api.parse(parser, cmdin);
    match a
    case None => None
    case Some(lhs) =>
      var (b, _) := api.parse(parser1, cmdout);
      match b
      case None => None
      case Some(rhs) => Some((lhs, rhs))
  }

  /** The closure given to `filter_map`: a row becomes a rule, or is skipped without a word. */
  function RowRule<P>(api: ParserApi<P>, row: Result<Row, string>): (r: Option<Rule>)
    ensures r.Some? ==> row.Ok? && Improves(row.value)
    ensures row.Ok? && Improves(row.value) ==> r == ParsePair(api, row.value.cmdin, row.value.cmdout)
  {
    match row
    case Err(_) => None
    case Ok(rw) =>
      if rw.cmdin == rw.cmdout || OrZero(rw.errin) <= OrZero(rw.errout) then None
      else ParsePair(api, rw.cmdin, rw.cmdout)
  }

  /** `filter_map(..).collect()`: the rules of the rows that yield one, in table order. */
  function Rules<P>(api: ParserApi<P>, rows: seq<Result<Row, string>>): (r: seq<Rule>)
    ensures |r| <= |rows|
  {
    if rows == [] then []
    else
      match RowRule(api, rows[0])
      case None => Rules(api, rows[1..])
      case Some(rule) => [rule] + Rules(api, rows[1..])
  }

  /** Collecting over two runs of rows collects over each in turn: the table order is kept. */
  lemma {:induction false} RulesAppend<P>(api: ParserApi<P>, a: seq<Result<Row, string>>, b: seq<Result<Row, string>>)
    ensures Rules(api, a + b) == Rules(api, a) + Rules(api, b)
  {
    if a == [] {
      assert a + b == b;
    } else {
      assert (a + b)[0] == a[0] && (a + b)[1..] == a[1..] + b;
      RulesAppend(api, a[1..], b);
    }
  }

  /** One row yields its rule, or nothing. */
  lemma RulesOne<P>(api: ParserApi<P>, row: Result<Row, string>)
    ensures Rules(api, [row]) == (if RowRule(api, row).Some? then [RowRule(api, row).value] else [])
  {
    assert [row][1..] == [];
  }

  /** Every collected rule is the rule of some row. */
  lemma {:induction false} RulesFromRows<P>(api: ParserApi<P>, rows: seq<Result<Row, string>>, k: nat)
    requires k < |Rules(api, rows)|
    ensures exists i | 0 <= i < |rows| :: RowRule(api, rows[i]) == Some(Rules(api, rows)[k])
  {
    if RowRule(api, rows[0]).Some? && k == 0 {
      assert RowRule(api, rows[0]) == Some(Rules(api, rows)[0]);
    } else {
      var k' := if RowRule(api, rows[0]).Some? then k - 1 else k;
      RulesFromRows(api, rows[1..], k');
      var i :| 0 <= i < |rows[1..]| && RowRule(api, rows[1..][i]) == Some(Rules(api, rows[1..])[k']);
      assert rows[1..][i] == rows[i + 1];
    }
  }

  /** Every row that yields a rule has it collected. */
  lemma {:induction false} RowsToRules<P>(api: ParserApi<P>, rows: seq<Result<Row, string>>, i: nat)
    requires i < |rows| && RowRule(api, rows[i]).Some?
    ensures RowRule(api, rows[i]).value in Rules(api, rows)
  {
    if i > 0 {
      RowsToRules(api, rows[1..], i - 1);
      assert rows[1..][i - 1] == rows[i];
    }
  }

  /** A row whose two error columns are both missing reads as `0 <= 0` and is dropped. */
  lemma MissingErrorsDropped<P>(api: ParserApi<P>, cmdin: string, cmdout: string)
    ensures RowRule(api, Ok(Row(cmdin, cmdout, None, None))).None?
  {
  }

  /** A row that rewrites a form into itself is dropped, whatever its errors. */
  lemma IdentityDropped<P>(api: ParserApi<P>, cmd: string, errin: Option<real>, errout: Option<real>)
    ensures RowRule(api, Ok(Row(cmd, cmd, errin, errout))).None?
  {
  }

  /** A row is kept exactly when it is readable, improves, and both of its forms parse. */
  lemma RowKept<P>(api: ParserApi<P>, row: Result<Row, string>)
    ensures RowRule(api, row).Some? <==>
      row.Ok? && Improves(row.value) && ParsePair(api, row.value.cmdin, row.value.cmdout).Some?
  {
  }
}
