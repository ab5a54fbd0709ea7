/**
 * The recursive-descent parser of src/lisp.rs as functions of the parser
 * state. Every reader returns what `Parser`'s method returns together with
 * the state it leaves behind, so that the imperative `Parser` class can be
 * proved against these definitions.
 *
 * `num` stands for `str::parse::<f64>`: it is a partial function from text
 * to literal values, and nothing is assumed about it.
 */
module LispParse {
  import opened Wrappers
  import opened Text
  import opened Lisp

  /**
   * `ParseError`. The source's `Ident` and `Float` are renamed `BadIdent`
   * and `BadFloat` here so as not to clash with the tree's constructors.
   */
  datatype ParseError = Arity | Expected(c: char) | BadIdent | BadFloat | Unexpected(c: char) | EOE

  /**
   * The parser's state: the put-back `stack: Vec<char>`, whose top is its
   * LAST element, and what the character iterator has not yet produced.
   */
  datatype State = State(stack: seq<char>, rest: seq<char>)

  type Parsed<F> = (Result<LispExpr<F>, ParseError>, State)

  /** How many characters are still to be read, put-back ones included. */
  function Remaining(st: State): nat
  {
    |st.stack| + |st.rest|
  }

  /** `put_back`: push onto the stack. */
  function PutBack(st: State, c: char): (r: State)
    ensures Remaining(r) == Remaining(st) + 1
  {
    State(st.stack + [c], st.rest)
  }

  /**
   * `get_char`: pop the stack, then pull from the iterator, dropping
   * whitespace when `skip` is set.
   */
  function GetChar(st: State, skip: bool): (r: (Option<char>, State))
    ensures Remaining(r.1) <= Remaining(st)
    ensures r.0.Some? ==> Remaining(r.1) < Remaining(st)
    ensures r.0.None? ==> Remaining(r.1) == 0
    ensures r.0.Some? && skip ==> !IsWhitespace(r.0.value)
    ensures |st.stack| <= 1 ==> r.1.stack == []
    decreases Remaining(st)
  {
    if |st.stack| > 0 then
      var c := st.stack[|st.stack| - 1];
      var st1 := State(st.stack[..|st.stack| - 1], st.rest);
      if skip && IsWhitespace(c) then GetChar(st1, skip) else (Some(c), st1)
    else if |st.rest| > 0 then
      var c := st.rest[0];
      var st1 := State([], st.rest[1..]);
      if skip && IsWhitespace(c) then GetChar(st1, skip) else (Some(c), st1)
    else
      (None, st)
  }

  /** `expect`: the next character must be `c`. */
  function Expect(st: State, c: char, skip: bool): (r: (Result<(), ParseError>, State))
    ensures Remaining(r.1) <= Remaining(st)
    ensures r.0.Ok? ==> Remaining(r.1) < Remaining(st)
    ensures r.0.Err? ==> r.0.error == Expected(c)
    ensures |st.stack| <= 1 ==> r.1.stack == []
  {
    var (d, st1) := GetChar(st, skip);
    (if d == Some(c) then Ok(()) else Err(Expected(c)), st1)
  }

  /**
   * The loop of `parse_float`: append characters to `buf` while they are
   * digits or one of `. e + -`; the first other character is put back.
   */
  function FloatChars(st: State, buf: string): (r: (string, State))
    ensures |buf| <= |r.0|
    ensures Remaining(r.1) + |r.0| == Remaining(st) + |buf|
    ensures |st.stack| <= 1 ==> |r.1.stack| <= 1
    decreases Remaining(st)
  {
    var (c, st1) := GetChar(st, false);
    match c
    case None => (buf, st1)
    case Some(d) =>
      if IsFloatChar(d) then
        FloatChars(st1, buf + [d])
      else (buf, PutBack(st1, d))
  }

  /** `parse_float`: the characters read must form a number. */
  function ParseFloat<F>(num: string -> Option<F>, st: State): (r: Parsed<F>)
    ensures Remaining(r.1) <= Remaining(st)
    ensures r.0.Ok? ==> r.0.value.Lit?
    ensures r.0.Err? ==> r.0.error == BadFloat
    ensures |st.stack| <= 1 ==> |r.1.stack| <= 1
    ensures |st.stack| > 0 && IsFloatChar(st.stack[|st.stack| - 1]) ==> Remaining(r.1) < Remaining(st)
  {
    var (buf, st1) := FloatChars(st, "");
    match num(buf)
    case Some(f) => (Ok(Lit(f)), st1)
    case None => (Err(BadFloat), st1)
  }

  /**
   * The loop of `parse_ident`: while nothing has been collected, lower-case
   * letters are skipped; decimal digits are collected; the first other
   * character is put back.
   */
  function IdentDigits(st: State, buf: string): (r: (string, State))
    requires AllDigits(buf)
    ensures AllDigits(r.0)
    ensures Remaining(r.1) + |r.0| <= Remaining(st) + |buf|
    ensures |st.stack| <= 1 ==> |r.1.stack| <= 1
    decreases Remaining(st)
  {
    var (c, st1) := GetChar(st, false);
    match c
    case None => (buf, st1)
    case Some(d) =>
      if buf == [] && IsLower(d) then IdentDigits(st1, buf)
      else if IsDigit(d) then IdentDigits(st1, buf + [d])
      else (buf, PutBack(st1, d))
  }

  /** The range of `u64`, the id type of the source. */
  const U64Bound: nat := 0x1_0000_0000_0000_0000

  /** `buf.parse::<u64>()` on a string of digits: empty and too large are errors. */
  function ParseU64(buf: string): (r: Option<nat>)
    requires AllDigits(buf)
    ensures r.Some? <==> |buf| > 0 && DecimalValue(buf) < U64Bound
    ensures r.Some? ==> r.value == DecimalValue(buf)
  {
    if |buf| > 0 && DecimalValue(buf) < U64Bound then Some(DecimalValue(buf)) else None
  }

  /** The numeral `format!("{}", n)` reads back as `n` exactly when `n` fits in `u64`. */
  lemma ParseU64Numeral(n: nat)
    ensures ParseU64(NatToDecimal(n)) == if n < U64Bound then Some(n) else None
  {
  }

  /** Leading zeros do not change the id: `herbie007` is identifier 7. */
  lemma ParseU64LeadingZero(buf: string)
    requires AllDigits(buf) && buf != []
    ensures AllDigits("0" + buf) && ParseU64("0" + buf) == ParseU64(buf)
  {
    DecimalValueLeadingZero(buf);
  }

  /** `parse_ident`, called after the leading `h` has been consumed. */
  function ParseIdent<F>(st: State): (r: Parsed<F>)
    ensures Remaining(r.1) <= Remaining(st)
    ensures r.0.Ok? ==> r.0.value.Ident? && r.0.value.id < U64Bound
    ensures r.0.Err? ==> r.0.error == BadIdent
    ensures |st.stack| <= 1 ==> |r.1.stack| <= 1
  {
    var (buf, st1) := IdentDigits(st, "");
    match ParseU64(buf)
    case Some(id) => (Ok(Ident(id)), st1)
    case None => (Err(BadIdent), st1)
  }

  /** The loop of `parse_fun`: collect lower-case letters; the first other character is put back. */
  function FunName(st: State, buf: string): (r: (string, State))
    ensures Remaining(r.1) + |r.0| == Remaining(st) + |buf|
    ensures |st.stack| <= 1 ==> |r.1.stack| <= 1
    decreases Remaining(st)
  {
    var (c, st1) := GetChar(st, false);
    match c
    case None => (buf, st1)
    case Some(d) =>
      if IsLower(d) then
        FunName(st1, buf + [d])
      else (buf, PutBack(st1, d))
  }

  /**
   * The argument loop of `parse_fun`: arguments are read one `parse_impl`
   * after another until the first that fails; whatever that failing call
   * consumed stays consumed.
   */
  function ParseArgs<F>(num: string -> Option<F>, st: State, params: seq<LispExpr<F>>): (r: (seq<LispExpr<F>>, State))
    ensures Remaining(r.1) <= Remaining(st)
    ensures |params| <= |r.0| && r.0[..|params|] == params
    ensures |st.stack| <= 1 ==> |r.1.stack| <= 1
    decreases Remaining(st), 3
  {
    var (p, st1) := ParseImpl(num, st);
    match p
    case Ok(e) => ParseArgs(num, st1, params + [e])
    case Err(_) => (params, st1)
  }

  /**
   * `parse_fun`: a non-empty lower-case name, then the arguments, then `)`.
   * Neither the name nor the number of arguments is checked.
   */
  function ParseFun<F>(num: string -> Option<F>, st: State): (r: Parsed<F>)
    ensures Remaining(r.1) <= Remaining(st)
    ensures r.0.Ok? ==> Remaining(r.1) < Remaining(st) && r.0.value.Fun?
    ensures |st.stack| <= 1 ==> |r.1.stack| <= 1
    decreases Remaining(st), 4
  {
    var (name, st1) := FunName(st, "");
    if name == [] then (Err(BadIdent), st1)
    else
      var (params, st2) := ParseArgs(num, st1, []);
      var (closed, st3) := Expect(st2, ')', true);
      match closed
      case Err(err) => (Err(err), st3)
      case Ok(_) => (Ok(Fun(name, params)), st3)
  }

  /**
   * `parse_op`: a left operand, then a right one; without a right operand
   * `-` is negation and the other operators are an `Arity` error; then `)`.
   */
  function ParseOp<F>(num: string -> Option<F>, st: State, op: BinOp): (r: Parsed<F>)
    ensures Remaining(r.1) <= Remaining(st)
    ensures r.0.Ok? ==> Remaining(r.1) < Remaining(st)
    ensures |st.stack| <= 1 ==> |r.1.stack| <= 1
    decreases Remaining(st), 2
  {
    var (lhs, st1) := ParseImpl(num, st);
    match lhs
    case Err(_) => (lhs, st1)
    case Ok(l) =>
      var (rhs, st2) := ParseImpl(num, st1);
      var res: Result<LispExpr<F>, ParseError> :=
        if rhs.Ok? then Ok(Binary(op, l, rhs.value))
        else if op == Sub then Ok(Unary(Neg, l))
        else Err(Arity);
      if res.Err? then (res, st2)
      else
        var (closed, st3) := Expect(st2, ')', true);
        match closed
        case Err(err) => (Err(err), st3)
        case Ok(_) => (res, st3)
  }

  /** `parse_impl`: dispatch on the first character that is not whitespace. */
  function ParseImpl<F>(num: string -> Option<F>, st: State): (r: Parsed<F>)
    ensures Remaining(r.1) <= Remaining(st)
    ensures r.0.Ok? ==> Remaining(r.1) < Remaining(st)
    ensures |st.stack| <= 1 ==> |r.1.stack| <= 1
    decreases Remaining(st), 1
  {
    var (c, st1) := GetChar(st, true);
    match c
    case None => (Err(EOE), st1)
    case Some(d) =>
      if d == '(' then
        var (c2, st2) := GetChar(st1, true);
        match c2
        case None => (Err(EOE), st2)
        case Some(d2) =>
          if d2 == '+' then ParseOp(num, st2, Add)
          else if d2 == '-' then ParseOp(num, st2, Sub)
          else if d2 == '*' then ParseOp(num, st2, Mul)
          else if d2 == '/' then ParseOp(num, st2, Div)
          else if IsDigit(d2) then
            var (f, st3) := ParseFloat(num, PutBack(st2, d2));
            var (closed, st4) := Expect(st3, ')', true);
            match closed
            case Err(err) => (Err(err), st4)
            case Ok(_) => (f, st4)
          else ParseFun(num, PutBack(st2, d2))
      else if IsDigit(d) then ParseFloat(num, PutBack(st1, d))
      else if d == 'h' then ParseIdent(st1)
      else (Err(Unexpected(d)), PutBack(st1, d))
  }

  /**
   * `parse`: one expression from a fresh parser; anything the iterator still
   * holds afterwards is an `EOE` error, but characters left on the put-back
   * stack are not looked at.
   */
  function Parse<F>(num: string -> Option<F>, s: string): Result<LispExpr<F>, ParseError>
  {
    var (r, st) := ParseImpl(num, State([], s));
    if r.Ok? && st.rest != [] then Err(EOE) else r
  }
}
