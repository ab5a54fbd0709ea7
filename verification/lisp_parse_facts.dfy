/**
 * What the parser of src/lisp.rs reads. The parser state is read as one
 * character stream: the put-back character, if any, followed by what the
 * iterator still holds. Each reader is characterised on that stream, and
 * from those the parser is shown to read back every printable tree, to stop
 * with the source's error for each malformed input, and to agree with the
 * test cases of tests/lisp.rs that concern this parser.
 */
module LispParseFacts {
  import opened Wrappers
  import opened Text
  import opened Lisp
  import opened LispParse

  // ---------------------------------------------------------------------------
  // The state as a stream of characters.

  /**
   * The parser never holds more than one put-back character: every
   * `put_back` follows a read that emptied the stack.
   */
  predicate Lookahead(st: State)
  {
    |st.stack| <= 1
  }

  /** The characters the parser will see, in order, when it holds at most one put-back character. */
  function Stream(st: State): string
    requires Lookahead(st)
  {
    if |st.stack| == 0 then st.rest else [st.stack[0]] + st.rest
  }

  /** The state after a leaf: the character that ended it is back on the stack. */
  function After(t: string): (st: State)
    ensures Lookahead(st) && Stream(st) == t
  {
    if t == [] then State([], []) else State([t[0]], t[1..])
  }

  lemma Uncons(t: string)
    requires t != []
    ensures [t[0]] + t[1..] == t
  {
  }

  lemma Lead(c: char, x: string)
    ensures ([c] + x)[0] == c && ([c] + x)[1..] == x
  {
  }

  lemma HeadTail(f: string, t: string)
    requires f != []
    ensures (f + t)[0] == f[0] && (f + t)[1..] == f[1..] + t
  {
  }

  lemma Snoc(buf: string, f: string)
    requires f != []
    ensures buf + [f[0]] + f[1..] == buf + f
  {
  }

  lemma Unit(x: string)
    ensures [] + x == x && x + [] == x
  {
  }

  /** `get_char(it, false)` returns the first character of the stream and leaves the rest in the iterator. */
  lemma ReadChar(st: State)
    requires Lookahead(st)
    ensures Stream(st) == [] ==> GetChar(st, false) == (None, State([], []))
    ensures Stream(st) != [] ==> GetChar(st, false) == (Some(Stream(st)[0]), State([], Stream(st)[1..]))
  {
    if |st.stack| == 1 {
      assert st.stack[..0] == [];
      Lead(st.stack[0], st.rest);
    }
  }

  /** With skipping, a first character that is not whitespace is read as is. */
  lemma ReadNonSpace(st: State)
    requires Lookahead(st)
    requires Stream(st) != [] && !IsWhitespace(Stream(st)[0])
    ensures GetChar(st, true) == (Some(Stream(st)[0]), State([], Stream(st)[1..]))
  {
    if |st.stack| == 1 {
      assert st.stack[..0] == [];
      Lead(st.stack[0], st.rest);
    }
  }

  /** With skipping, `get_char` returns the first character after the leading whitespace `w`. */
  lemma {:induction false} SkipChar(st: State, w: string, t: string)
    requires Lookahead(st)
    requires Stream(st) == w + t && AllWhitespace(w)
    requires t == [] || !IsWhitespace(t[0])
    ensures t == [] ==> GetChar(st, true) == (None, State([], []))
    ensures t != [] ==> GetChar(st, true) == (Some(t[0]), State([], t[1..]))
    decreases |w|
  {
    ReadChar(st);
    if w != [] {
      HeadTail(w, t);
      assert Stream(st)[0] == w[0] && IsWhitespace(w[0]);
      assert GetChar(st, true) == GetChar(State([], w[1..] + t), true);
      SkipChar(State([], w[1..] + t), w[1..], t);
    } else {
      Unit(t);
      assert Stream(st) == t;
    }
  }

  /** One blank, then a character that is not whitespace. */
  lemma SkipBlank(st: State, x: string)
    requires Lookahead(st) && Stream(st) == " " + x
    requires x != [] && !IsWhitespace(x[0])
    ensures GetChar(st, true) == (Some(x[0]), State([], x[1..]))
  {
    ReadChar(st);
    Lead(' ', x);
    ReadNonSpace(State([], x));
  }

  // ---------------------------------------------------------------------------
  // The leaf readers.

  /** `parse_float`'s loop takes the longest run of float characters and puts the next character back. */
  lemma {:induction false} FloatCharsReads(st: State, buf: string, f: string, t: string)
    requires Lookahead(st)
    requires Stream(st) == f + t && AllFloatChars(f)
    requires t == [] || !IsFloatChar(t[0])
    ensures FloatChars(st, buf) == (buf + f, After(t))
    decreases |f|
  {
    ReadChar(st);
    if f != [] {
      HeadTail(f, t);
      assert IsFloatChar(f[0]) && AllFloatChars(f[1..]);
      assert FloatChars(st, buf) == FloatChars(State([], f[1..] + t), buf + [f[0]]);
      FloatCharsReads(State([], f[1..] + t), buf + [f[0]], f[1..], t);
      Snoc(buf, f);
    } else if t != [] {
      assert buf + f == buf && [] + [t[0]] == [t[0]];
      assert Stream(st) == t;
      assert FloatChars(st, buf) == (buf, PutBack(State([], t[1..]), t[0]));
    } else {
      assert buf + f == buf;
      assert Stream(st) == [];
    }
  }

  /** The value `parse_float` produces from a run `f` of float characters. */
  lemma ParseFloatReads<F>(num: string -> Option<F>, st: State, f: string, t: string)
    requires Lookahead(st)
    requires Stream(st) == f + t && AllFloatChars(f)
    requires t == [] || !IsFloatChar(t[0])
    ensures ParseFloat(num, st) == (if num(f).Some? then Ok(Lit(num(f).value)) else Err(BadFloat), After(t))
  {
    FloatCharsReads(st, "", f, t);
    assert "" + f == f;
  }

  /** Once a digit has been collected, `parse_ident`'s loop takes the following digits and nothing else. */
  lemma {:induction false} CollectDigits(st: State, buf: string, d: string, t: string)
    requires Lookahead(st)
    requires AllDigits(buf) && buf != []
    requires Stream(st) == d + t && AllDigits(d)
    requires t == [] || !IsDigit(t[0])
    ensures IdentDigits(st, buf) == (buf + d, After(t))
    decreases |d|
  {
    ReadChar(st);
    if d != [] {
      HeadTail(d, t);
      assert IsDigit(d[0]) && AllDigits(d[1..]) && AllDigits(buf + [d[0]]);
      assert IdentDigits(st, buf) == IdentDigits(State([], d[1..] + t), buf + [d[0]]);
      CollectDigits(State([], d[1..] + t), buf + [d[0]], d[1..], t);
      Snoc(buf, d);
    } else if t != [] {
      assert buf + d == buf && [] + [t[0]] == [t[0]];
      assert Stream(st) == t;
      assert IdentDigits(st, buf) == (buf, PutBack(State([], t[1..]), t[0]));
    } else {
      assert buf + d == buf;
      assert Stream(st) == [];
    }
  }

  /** `parse_ident`'s loop: leading letters `l` are dropped, the digits `d` after them are kept. */
  lemma {:induction false} IdentDigitsReads(st: State, l: string, d: string, t: string)
    requires Lookahead(st)
    requires Stream(st) == l + (d + t) && AllLower(l) && AllDigits(d)
    requires t == [] || !IsDigit(t[0])
    requires d == [] ==> t == [] || !IsLower(t[0])
    ensures IdentDigits(st, "") == (d, After(t))
    decreases |l|
  {
    ReadChar(st);
    if l != [] {
      HeadTail(l, d + t);
      assert IsLower(l[0]) && AllLower(l[1..]);
      assert IdentDigits(st, "") == IdentDigits(State([], l[1..] + (d + t)), "");
      IdentDigitsReads(State([], l[1..] + (d + t)), l[1..], d, t);
    } else if d != [] {
      Unit(d + t);
      HeadTail(d, t);
      assert IsDigit(d[0]) && !IsLower(d[0]) && AllDigits(d[1..]);
      Unit([d[0]]);
      assert IdentDigits(st, "") == IdentDigits(State([], d[1..] + t), [d[0]]);
      CollectDigits(State([], d[1..] + t), [d[0]], d[1..], t);
      Snoc([], d);
      Unit(d);
    } else if t != [] {
      Unit(d + t);
      Unit(t);
      Unit([t[0]]);
      assert IdentDigits(st, "") == ("", PutBack(State([], t[1..]), t[0]));
    } else {
      Unit(d + t);
      Unit(t);
    }
  }

  /** The id `parse_ident` produces after the `h`: the digits after the letters, if they fit in `u64`. */
  lemma ParseIdentReads<F>(st: State, l: string, d: string, t: string)
    requires Lookahead(st)
    requires Stream(st) == l + (d + t) && AllLower(l) && AllDigits(d)
    requires t == [] || !IsDigit(t[0])
    requires d == [] ==> t == [] || !IsLower(t[0])
    ensures ParseIdent<F>(st) ==
      (if d != [] && DecimalValue(d) < U64Bound then Ok(Ident(DecimalValue(d))) else Err(BadIdent), After(t))
  {
    IdentDigitsReads(st, l, d, t);
  }

  /** `parse_fun`'s first loop takes the longest run of lower-case letters. */
  lemma {:induction false} FunNameReads(st: State, buf: string, l: string, u: string)
    requires Lookahead(st)
    requires Stream(st) == l + u && AllLower(l)
    requires u == [] || !IsLower(u[0])
    ensures FunName(st, buf) == (buf + l, After(u))
    decreases |l|
  {
    ReadChar(st);
    if l != [] {
      HeadTail(l, u);
      assert IsLower(l[0]) && AllLower(l[1..]);
      assert FunName(st, buf) == FunName(State([], l[1..] + u), buf + [l[0]]);
      FunNameReads(State([], l[1..] + u), buf + [l[0]], l[1..], u);
      Snoc(buf, l);
    } else if u != [] {
      assert buf + l == buf && [] + [u[0]] == [u[0]];
      assert Stream(st) == u;
      assert FunName(st, buf) == (buf, PutBack(State([], u[1..]), u[0]));
    } else {
      assert buf + l == buf;
      assert Stream(st) == [];
    }
  }

  /** `parse_fun` without a lower-case letter first fails with `Ident`, and puts the character back. */
  lemma FunNameEmpty<F>(num: string -> Option<F>, st: State, u: string)
    requires Lookahead(st)
    requires Stream(st) == u && (u == [] || !IsLower(u[0]))
    ensures ParseFun(num, st) == (Err(BadIdent), After(u))
  {
    Unit(u);
    FunNameReads(st, "", [], u);
  }

  /** `expect(c)` on the next character `d`, which is not whitespace. */
  lemma ExpectReads(st: State, c: char, d: char, u: string)
    requires Lookahead(st)
    requires Stream(st) == [d] + u && !IsWhitespace(d)
    ensures Expect(st, c, true) == (if d == c then Ok(()) else Err(Expected(c)), State([], u))
  {
    Lead(d, u);
    ReadNonSpace(st);
  }

  /** `expect(c)` at the end of the input, or before whitespace only. */
  lemma ExpectAtEnd(st: State, c: char, w: string)
    requires Lookahead(st)
    requires Stream(st) == w && AllWhitespace(w)
    ensures Expect(st, c, true) == (Err(Expected(c)), State([], []))
  {
    Unit(w);
    SkipChar(st, w, []);
  }

  // ---------------------------------------------------------------------------
  // One step of each composite reader, on abstract states.

  /** After `(`, the operator's character selects `parse_op`, and a lower-case letter `parse_fun`. */
  lemma OpenStep<F>(num: string -> Option<F>, st: State, s1: State, d2: char, s2: State)
    requires GetChar(st, true) == (Some('('), s1) && GetChar(s1, true) == (Some(d2), s2)
    ensures d2 == '+' ==> ParseImpl(num, st) == ParseOp(num, s2, Add)
    ensures d2 == '-' ==> ParseImpl(num, st) == ParseOp(num, s2, Sub)
    ensures d2 == '*' ==> ParseImpl(num, st) == ParseOp(num, s2, Mul)
    ensures d2 == '/' ==> ParseImpl(num, st) == ParseOp(num, s2, Div)
    ensures IsLower(d2) ==> ParseImpl(num, st) == ParseFun(num, PutBack(s2, d2))
  {
  }

  /** After `(` and a digit: the float, then `)`, whose error takes precedence. */
  lemma OpenFloatStep<F>(num: string -> Option<F>, st: State, s1: State, d2: char, s2: State)
    requires GetChar(st, true) == (Some('('), s1) && GetChar(s1, true) == (Some(d2), s2)
    requires IsDigit(d2)
    ensures var (v, s3) := ParseFloat(num, PutBack(s2, d2));
      var (closed, s4) := Expect(s3, ')', true);
      ParseImpl(num, st) == (if closed.Err? then Err(closed.error) else v, s4)
  {
  }

  /** `parse_op` with two operands and the closing `)`. */
  lemma OpStep<F>(num: string -> Option<F>, st0: State, op: BinOp, l: LispExpr<F>, r: LispExpr<F>, st1: State, st2: State, t: string)
    requires ParseImpl(num, st0) == (Ok(l), st1)
    requires ParseImpl(num, st1) == (Ok(r), st2)
    requires Expect(st2, ')', true) == (Ok(()), State([], t))
    ensures ParseOp(num, st0, op) == (Ok(Binary(op, l, r)), State([], t))
  {
  }

  /** An error reading the left operand is `parse_op`'s result, unchanged, with the state it left. */
  lemma OpLeftError<F>(num: string -> Option<F>, st: State, op: BinOp)
    requires ParseImpl(num, st).0.Err?
    ensures ParseOp(num, st, op) == ParseImpl(num, st)
  {
  }

  /** `parse_op` for `-` with one operand and the closing `)`. */
  lemma NegStep<F>(num: string -> Option<F>, st0: State, x: LispExpr<F>, st1: State, st2: State, t: string)
    requires ParseImpl(num, st0) == (Ok(x), st1)
    requires ParseImpl(num, st1).0.Err? && ParseImpl(num, st1).1 == st2
    requires Expect(st2, ')', true) == (Ok(()), State([], t))
    ensures ParseOp(num, st0, Sub) == (Ok(Unary(Neg, x)), State([], t))
  {
  }

  /** `parse_op` without a second operand: negation for `-`, an `Arity` error for the other operators. */
  lemma OpMissingStep<F>(num: string -> Option<F>, st0: State, op: BinOp, l: LispExpr<F>, st1: State)
    requires ParseImpl(num, st0) == (Ok(l), st1)
    requires ParseImpl(num, st1).0.Err?
    ensures op != Sub ==> ParseOp(num, st0, op) == (Err(Arity), ParseImpl(num, st1).1)
    ensures op == Sub ==>
      var (closed, st3) := Expect(ParseImpl(num, st1).1, ')', true);
      ParseOp(num, st0, op) == (if closed.Err? then Err(closed.error) else Ok(Unary(Neg, l)), st3)
  {
  }

  /** `parse_op` with two operands not followed by `)`. */
  lemma OpUnclosedStep<F>(num: string -> Option<F>, st0: State, op: BinOp, l: LispExpr<F>, r: LispExpr<F>, st1: State, st2: State)
    requires ParseImpl(num, st0) == (Ok(l), st1)
    requires ParseImpl(num, st1) == (Ok(r), st2)
    requires Expect(st2, ')', true).0.Err?
    ensures ParseOp(num, st0, op).0 == Err(Expected(')'))
  {
  }

  /** `parse_fun` whose arguments are not followed by `)`. */
  lemma FunUnclosedStep<F>(num: string -> Option<F>, sf: State, name: string, s1: State, ps: seq<LispExpr<F>>, s2: State)
    requires FunName(sf, "") == (name, s1) && name != []
    requires ParseArgs(num, s1, []) == (ps, s2)
    requires Expect(s2, ')', true).0.Err?
    ensures ParseFun(num, sf).0 == Err(Expected(')'))
  {
  }

  /** `parse_fun` with a name, its arguments and the closing `)`. */
  lemma FunStep<F>(num: string -> Option<F>, sf: State, name: string, s1: State, ps: seq<LispExpr<F>>, s2: State, t: string)
    requires FunName(sf, "") == (name, s1) && name != []
    requires ParseArgs(num, s1, []) == (ps, s2)
    requires Expect(s2, ')', true) == (Ok(()), State([], t))
    ensures ParseFun(num, sf) == (Ok(Fun(name, ps)), State([], t))
  {
  }

  /** One more argument. */
  lemma ArgsStep<F>(num: string -> Option<F>, st: State, acc: seq<LispExpr<F>>, e: LispExpr<F>, st1: State)
    requires ParseImpl(num, st) == (Ok(e), st1)
    ensures ParseArgs(num, st, acc) == ParseArgs(num, st1, acc + [e])
  {
  }

  /** The first failing parse ends the arguments. */
  lemma ArgsStop<F>(num: string -> Option<F>, st: State, acc: seq<LispExpr<F>>, err: ParseError, st1: State)
    requires ParseImpl(num, st) == (Err(err), st1)
    ensures ParseArgs(num, st, acc) == (acc, st1)
  {
  }

  // ---------------------------------------------------------------------------
  // Dispatch in `parse_impl`.

  /** A first character other than `(`, a digit or `h` is `Unexpected`, and is put back. */
  lemma UnexpectedLead<F>(num: string -> Option<F>, st: State, c: char, u: string)
    requires Lookahead(st)
    requires Stream(st) == [c] + u
    requires !IsWhitespace(c) && c != '(' && !IsDigit(c) && c != 'h'
    ensures ParseImpl(num, st) == (Err(Unexpected(c)), State([c], u))
  {
    Lead(c, u);
    Unit([c]);
    ReadNonSpace(st);
  }

  /** A digit first: `parse_float` takes the longest run of float characters, which must form a number. */
  lemma FloatLead<F>(num: string -> Option<F>, st: State, w: string, f: string, t: string)
    requires Lookahead(st)
    requires Stream(st) == w + (f + t) && AllWhitespace(w)
    requires f != [] && IsDigit(f[0]) && AllFloatChars(f)
    requires t == [] || !IsFloatChar(t[0])
    ensures ParseImpl(num, st) == (if num(f).Some? then Ok(Lit(num(f).value)) else Err(BadFloat), After(t))
  {
    HeadTail(f, t);
    SkipChar(st, w, f + t);
    var sf := State([f[0]], f[1..] + t);
    assert ParseImpl(num, st) == ParseFloat(num, sf);
    Uncons(f);
    Assoc([f[0]], f[1..], t);
    ParseFloatReads(num, sf, f, t);
  }

  /** Input that ends, apart from whitespace, gives `EOE`, also right after a `(`. */
  lemma EndOfExpression<F>(num: string -> Option<F>, st: State, w: string, w2: string)
    requires Lookahead(st)
    requires AllWhitespace(w) && AllWhitespace(w2)
    requires Stream(st) == w || Stream(st) == w + ("(" + w2)
    ensures ParseImpl(num, st) == (Err(EOE), State([], []))
  {
    if Stream(st) == w {
      Unit(w);
      SkipChar(st, w, []);
    } else {
      SkipChar(st, w, "(" + w2);
      Lead('(', w2);
      Unit(w2);
      SkipChar(State([], w2), w2, []);
    }
  }

  /**
   * `(` followed by a digit: a float, then `)`. A missing `)` is reported
   * even when the number is malformed.
   */
  lemma ParenthesisedFloat<F>(num: string -> Option<F>, st: State, w: string, w2: string, f: string, t: string)
    requires Lookahead(st)
    requires Stream(st) == w + ("(" + (w2 + (f + t))) && AllWhitespace(w) && AllWhitespace(w2)
    requires f != [] && IsDigit(f[0]) && AllFloatChars(f)
    requires t == [] || !IsFloatChar(t[0])
    ensures num(f).Some? && t != [] && t[0] == ')' ==> ParseImpl(num, st) == (Ok(Lit(num(f).value)), State([], t[1..]))
    ensures num(f).None? && t != [] && t[0] == ')' ==> ParseImpl(num, st) == (Err(BadFloat), State([], t[1..]))
    ensures !(t != [] && t[0] == ')') && (t == [] || !IsWhitespace(t[0])) ==> ParseImpl(num, st).0 == Err(Expected(')'))
  {
    SkipChar(st, w, "(" + (w2 + (f + t)));
    Lead('(', w2 + (f + t));
    var s1 := State([], w2 + (f + t));
    HeadTail(f, t);
    SkipChar(s1, w2, f + t);
    var s2 := State([], f[1..] + t);
    OpenFloatStep(num, st, s1, f[0], s2);
    var sf := PutBack(s2, f[0]);
    Unit([f[0]]);
    Uncons(f);
    assert Stream(sf) == f + t;
    ParseFloatReads(num, sf, f, t);
    if t != [] {
      if !IsWhitespace(t[0]) {
        Uncons(t);
        ExpectReads(After(t), ')', t[0], t[1..]);
      }
    } else {
      ExpectAtEnd(After(t), ')', []);
    }
  }

  // ---------------------------------------------------------------------------
  // Reading back printed trees.

  /**
   * The text of a tree followed by `t`, as the test cases of tests/lisp.rs
   * write trees: that of `to_lisp`, except that `Ident(n)` is written
   * `herbie<n>`, a form this parser reads back.
   */
  function Spelled<F>(show: F -> string, e: LispExpr<F>, t: string): string
    decreases e
  {
    match e
    case Binary(op, l, r) => "(" + (BinOpText(op) + (" " + Spelled(show, l, " " + Spelled(show, r, ")" + t))))
    case Fun(name, params) => "(" + (name + ParamsSpelled(show, params, ")" + t))
    case Lit(f) => show(f) + t
    case Unary(op, x) => "(" + (UnOpText(op) + (" " + Spelled(show, x, ")" + t)))
    case Ident(id) => "herbie" + (NatToDecimal(id) + t)
  }

  /** The arguments of a function application, each after a blank, followed by `t`. */
  function ParamsSpelled<F>(show: F -> string, params: seq<LispExpr<F>>, t: string): (s: string)
    ensures params == [] ==> s == t
    ensures params != [] ==> s != [] && s[0] == ' '
    decreases params
  {
    if params == [] then t else " " + Spelled(show, params[0], ParamsSpelled(show, params[1..], t))
  }

  /** The text of a tree on its own. */
  function Spelling<F>(show: F -> string, e: LispExpr<F>): string
  {
    Spelled(show, e, "")
  }

  lemma Assoc(a: string, b: string, c: string)
    ensures (a + b) + c == a + (b + c)
  {
  }

  /** On trees without identifiers the spelling is exactly `to_lisp`. */
  lemma {:induction false} SpelledOfClosed<F>(show: F -> string, e: LispExpr<F>, t: string)
    requires Closed(e)
    ensures Spelled(show, e, t) == ToLisp(show, e) + t
    decreases e, 1
  {
    match e
    case Binary(op, l, r) =>
      BinarySpelledOfClosed(show, op, l, r, t);
    case Fun(name, ps) =>
      ParamsSpelledOfClosed(show, ps, ")" + t);
      var p := ParamsText(show, ps);
      calc {
        ToLisp(show, e) + t;
        ("(" + name + p + ")") + t;
        { Assoc("(" + name + p, ")", t); Assoc("(" + name, p, ")" + t); Assoc("(", name, p + (")" + t)); }
        "(" + (name + (p + (")" + t)));
      }
    case Ident(_) =>
    case Lit(_) =>
    case Unary(op, x) =>
      SpelledOfClosed(show, x, ")" + t);
      var o, sx := UnOpText(op), ToLisp(show, x);
      calc {
        ToLisp(show, e) + t;
        ("(" + o + " " + sx + ")") + t;
        { Assoc("(" + o + " " + sx, ")", t); Assoc("(" + o + " ", sx, ")" + t);
          Assoc("(" + o, " ", sx + (")" + t)); Assoc("(", o, " " + (sx + (")" + t))); }
        "(" + (o + (" " + (sx + (")" + t))));
      }
  }

  lemma {:induction false} BinarySpelledOfClosed<F>(show: F -> string, op: BinOp, l: LispExpr<F>, r: LispExpr<F>, t: string)
    requires Closed(Binary(op, l, r))
    ensures Spelled(show, Binary(op, l, r), t) == ToLisp(show, Binary(op, l, r)) + t
    decreases Binary(op, l, r), 0
  {
    var o, sl, sr := BinOpText(op), ToLisp(show, l), ToLisp(show, r);
    SpelledOfClosed(show, r, ")" + t);
    SpelledOfClosed(show, l, " " + (sr + (")" + t)));
    calc {
      ToLisp(show, Binary(op, l, r)) + t;
      ("(" + o + " " + sl + " " + sr + ")") + t;
      { Assoc("(" + o + " " + sl + " " + sr, ")", t);
        Assoc("(" + o + " " + sl + " ", sr, ")" + t);
        Assoc("(" + o + " " + sl, " ", sr + (")" + t));
        Assoc("(" + o + " ", sl, " " + (sr + (")" + t)));
        Assoc("(" + o, " ", sl + (" " + (sr + (")" + t))));
        Assoc("(", o, " " + (sl + (" " + (sr + (")" + t))))); }
      "(" + (o + (" " + (sl + (" " + (sr + (")" + t))))));
    }
  }

  lemma {:induction false} ParamsSpelledOfClosed<F>(show: F -> string, ps: seq<LispExpr<F>>, t: string)
    requires HolesAll(ps) == {}
    ensures ParamsSpelled(show, ps, t) == ParamsText(show, ps) + t
    decreases ps
  {
    if ps == [] {
      Unit(t);
    } else {
      var rest := ParamsText(show, ps[1..]);
      ParamsSpelledOfClosed(show, ps[1..], t);
      SpelledOfClosed(show, ps[0], rest + t);
      Assoc(" " + ToLisp(show, ps[0]), rest, t);
      Assoc(" ", ToLisp(show, ps[0]), rest + t);
    }
  }

  /** The spelling of a tree followed by `t` is its spelling on its own, then `t`. */
  lemma {:induction false} SpelledSplit<F>(show: F -> string, e: LispExpr<F>, t: string)
    ensures Spelled(show, e, t) == Spelling(show, e) + t
    decreases e, 1
  {
    match e
    case Binary(op, l, r) =>
      var o := BinOpText(op);
      SpelledSplit(show, r, ")" + t);
      SpelledSplit(show, r, ")" + "");
      var sr := Spelling(show, r);
      Unit(")");
      SpelledSplit(show, l, " " + (sr + (")" + t)));
      SpelledSplit(show, l, " " + (sr + ")"));
      var sl := Spelling(show, l);
      calc {
        Spelling(show, e) + t;
        ("(" + (o + (" " + (sl + (" " + (sr + ")")))))) + t;
        { Assoc(" " + sr, ")", t); Assoc(" ", sr + ")", t); Assoc(" ", sr, ")");
          Assoc(sl, " " + (sr + ")"), t); Assoc(" ", sl + (" " + (sr + ")")), t);
          Assoc(o, " " + (sl + (" " + (sr + ")"))), t); Assoc("(", o + (" " + (sl + (" " + (sr + ")")))), t); }
        "(" + (o + (" " + (sl + (" " + (sr + (")" + t))))));
      }
    case Fun(name, ps) =>
      ParamsSplit(show, ps, ")" + t);
      ParamsSplit(show, ps, ")" + "");
      Unit(")");
      var p := ParamsSpelled(show, ps, "");
      Assoc(p, ")", t);
      Assoc(name, p + ")", t);
      Assoc("(", name + (p + ")"), t);
    case Ident(id) =>
      Unit(NatToDecimal(id));
      Assoc(NatToDecimal(id), [], t);
      Assoc("herbie", NatToDecimal(id), t);
    case Lit(f) =>
      Unit(show(f));
    case Unary(op, x) =>
      var o := UnOpText(op);
      SpelledSplit(show, x, ")" + t);
      SpelledSplit(show, x, ")" + "");
      Unit(")");
      var sx := Spelling(show, x);
      Assoc(sx, ")", t);
      Assoc(" ", sx + ")", t);
      Assoc(o, " " + (sx + ")"), t);
      Assoc("(", o + (" " + (sx + ")")), t);
  }

  /** The spelling of an operator form, as `to_lisp` writes one. */
  lemma BinarySpelling<F>(show: F -> string, op: BinOp, l: LispExpr<F>, r: LispExpr<F>)
    ensures Spelling(show, Binary(op, l, r)) ==
      "(" + BinOpText(op) + " " + Spelling(show, l) + " " + Spelling(show, r) + ")"
  {
    var o := BinOpText(op);
    SpelledSplit(show, r, ")" + "");
    var sr := Spelling(show, r);
    Unit(")");
    SpelledSplit(show, l, " " + (sr + ")"));
    var sl := Spelling(show, l);
    calc {
      "(" + o + " " + sl + " " + sr + ")";
      { Assoc("(" + o + " " + sl + " ", sr, ")");
        Assoc("(" + o + " " + sl, " ", sr + ")");
        Assoc("(" + o + " ", sl, " " + (sr + ")"));
        Assoc("(" + o, " ", sl + (" " + (sr + ")")));
        Assoc("(", o, " " + (sl + (" " + (sr + ")")))); }
      "(" + (o + (" " + (sl + (" " + (sr + ")")))));
    }
  }

  /** The spelling of an identifier. */
  lemma IdentSpelling<F>(show: F -> string, id: nat)
    ensures Spelling(show, Ident(id)) == "herbie" + NatToDecimal(id)
  {
    Unit(NatToDecimal(id));
  }

  lemma {:induction false} ParamsSplit<F>(show: F -> string, ps: seq<LispExpr<F>>, t: string)
    ensures ParamsSpelled(show, ps, t) == ParamsSpelled(show, ps, "") + t
    decreases ps
  {
    if ps == [] {
      Unit(t);
    } else {
      ParamsSplit(show, ps[1..], t);
      var rest := ParamsSpelled(show, ps[1..], "");
      SpelledSplit(show, ps[0], rest + t);
      SpelledSplit(show, ps[0], rest);
      var s0 := Spelling(show, ps[0]);
      Assoc(s0, rest, t);
      Assoc(" ", s0 + rest, t);
    }
  }

  /**
   * The trees the parser can read back: function names are non-empty and
   * lower-case, ids fit in `u64`, and every literal prints as a run of float
   * characters starting with a digit that parses back to the same value.
   */
  ghost predicate Printable<F>(num: string -> Option<F>, show: F -> string, e: LispExpr<F>)
  {
    match e
    case Binary(_, l, r) => Printable(num, show, l) && Printable(num, show, r)
    case Fun(name, ps) => |name| > 0 && AllLower(name) && PrintableAll(num, show, ps)
    case Ident(id) => id < U64Bound
    case Lit(v) =>
      var s := show(v);
      |s| > 0 && IsDigit(s[0]) && AllFloatChars(s) && num(s) == Some(v)
    case Unary(_, x) => Printable(num, show, x)
  }

  ghost predicate PrintableAll<F>(num: string -> Option<F>, show: F -> string, ps: seq<LispExpr<F>>)
  {
    ps == [] || (Printable(num, show, ps[0]) && PrintableAll(num, show, ps[1..]))
  }

  /** Where `parse_impl` leaves the parser after a tree followed by `t`: a leaf puts back the character after it. */
  function Resting<F>(e: LispExpr<F>, t: string): (st: State)
    ensures Lookahead(st) && Stream(st) == t
  {
    if e.Lit? || e.Ident? then After(t) else State([], t)
  }

  /**
   * `parse_impl` reads back the spelling of a printable tree, after any
   * whitespace and before anything that cannot continue a number.
   */
  lemma {:induction false} ReadsBack<F>(num: string -> Option<F>, show: F -> string, e: LispExpr<F>, st: State, w: string, t: string)
    requires Printable(num, show, e) && Lookahead(st)
    requires Stream(st) == w + Spelled(show, e, t) && AllWhitespace(w)
    requires t == [] || !IsFloatChar(t[0])
    ensures ParseImpl(num, st) == (Ok(e), Resting(e, t))
    decreases e, 2
  {
    match e
    case Lit(v) =>
      var s := show(v);
      HeadTail(s, t);
      SkipChar(st, w, s + t);
      LitReadsBack(num, show, e, st, t);
    case Ident(id) =>
      var x := NatToDecimal(id) + t;
      assert "herbie" + x == ['h'] + ("erbie" + x);
      Lead('h', "erbie" + x);
      SkipChar(st, w, "herbie" + x);
      IdentReadsBack(num, e, st, t);
    case Binary(_, _, _) =>
      BinaryReadsBack(num, show, e, st, w, t);
    case Unary(_, _) =>
      UnaryReadsBack(num, show, e, st, w, t);
    case Fun(_, _) =>
      FunReadsBack(num, show, e, st, w, t);
  }

  /** A parenthesised form: `get_char` skips the whitespace and returns its `(`. */
  lemma OpenParen(st: State, w: string, x: string)
    requires Lookahead(st) && Stream(st) == w + ("(" + x) && AllWhitespace(w)
    ensures GetChar(st, true) == (Some('('), State([], x))
  {
    Lead('(', x);
    SkipChar(st, w, "(" + x);
  }

  lemma LitReadsBack<F>(num: string -> Option<F>, show: F -> string, e: LispExpr<F>, st: State, t: string)
    requires e.Lit? && Printable(num, show, e) && Lookahead(st)
    requires var s := show(e.value); GetChar(st, true) == (Some(s[0]), State([], s[1..] + t))
    requires t == [] || !IsFloatChar(t[0])
    ensures ParseImpl(num, st) == (Ok(e), After(t))
  {
    var s := show(e.value);
    var sf := State([s[0]], s[1..] + t);
    assert ParseImpl(num, st) == ParseFloat(num, sf);
    Uncons(s);
    Assoc([s[0]], s[1..], t);
    ParseFloatReads(num, sf, s, t);
  }

  lemma IdentReadsBack<F>(num: string -> Option<F>, e: LispExpr<F>, st: State, t: string)
    requires e.Ident? && e.id < U64Bound && Lookahead(st)
    requires GetChar(st, true) == (Some('h'), State([], "erbie" + (NatToDecimal(e.id) + t)))
    requires t == [] || !IsFloatChar(t[0])
    ensures ParseImpl(num, st) == (Ok(e), After(t))
  {
    var d := NatToDecimal(e.id);
    var st1 := State([], "erbie" + (d + t));
    assert ParseImpl(num, st) == ParseIdent(st1);
    ParseIdentReads<F>(st1, "erbie", d, t);
  }

  lemma BinaryReadsBack<F>(num: string -> Option<F>, show: F -> string, e: LispExpr<F>, st: State, w: string, t: string)
    requires e.Binary? && Printable(num, show, e) && Lookahead(st)
    requires Stream(st) == w + Spelled(show, e, t) && AllWhitespace(w)
    requires t == [] || !IsFloatChar(t[0])
    ensures ParseImpl(num, st) == (Ok(e), State([], t))
    decreases e, 1
  {
    OpenParen(st, w, BinOpText(e.op) + (" " + Spelled(show, e.lhs, " " + Spelled(show, e.rhs, ")" + t))));
    var o := BinOpText(e.op);
    var x := " " + Spelled(show, e.lhs, " " + Spelled(show, e.rhs, ")" + t));
    var s1 := State([], o + x);
    OpChar(e.op, x);
    ReadNonSpace(s1);
    BinaryOpenStep(num, st, s1, e.op, State([], x));
    OpReadsBack(num, show, e.op, e.lhs, e.rhs, t);
  }

  lemma OpChar(op: BinOp, x: string)
    ensures (BinOpText(op) + x)[0] == BinOpText(op)[0] && (BinOpText(op) + x)[1..] == x
  {
    Lead(BinOpText(op)[0], x);
    assert BinOpText(op) == [BinOpText(op)[0]];
  }

  /** After `(`, an operator's character selects `parse_op` with that operator. */
  lemma BinaryOpenStep<F>(num: string -> Option<F>, st: State, s1: State, op: BinOp, s2: State)
    requires GetChar(st, true) == (Some('('), s1) && GetChar(s1, true) == (Some(BinOpText(op)[0]), s2)
    ensures ParseImpl(num, st) == ParseOp(num, s2, op)
  {
    OpenStep(num, st, s1, BinOpText(op)[0], s2);
    match op
    case Add =>
    case Sub =>
    case Mul =>
    case Div =>
  }

  /** `parse_op` on ` l r)` followed by `t`. */
  lemma OpReadsBack<F>(num: string -> Option<F>, show: F -> string, op: BinOp, l: LispExpr<F>, r: LispExpr<F>, t: string)
    requires Printable(num, show, l) && Printable(num, show, r)
    ensures ParseOp(num, State([], " " + Spelled(show, l, " " + Spelled(show, r, ")" + t))), op) ==
      (Ok(Binary(op, l, r)), State([], t))
    decreases Binary(op, l, r), 0
  {
    var t2 := ")" + t;
    var t1 := " " + Spelled(show, r, t2);
    var st0 := State([], " " + Spelled(show, l, t1));
    ReadsBack(num, show, l, st0, " ", t1);
    var st1 := Resting(l, t1);
    ReadsBack(num, show, r, st1, " ", t2);
    OpClose(num, op, l, r, st0, st1, Resting(r, t2), t);
  }

  lemma OpClose<F>(num: string -> Option<F>, op: BinOp, l: LispExpr<F>, r: LispExpr<F>, st0: State, st1: State, st2: State, t: string)
    requires ParseImpl(num, st0) == (Ok(l), st1)
    requires ParseImpl(num, st1) == (Ok(r), st2)
    requires Lookahead(st2) && Stream(st2) == ")" + t
    ensures ParseOp(num, st0, op) == (Ok(Binary(op, l, r)), State([], t))
  {
    ExpectReads(st2, ')', ')', t);
    OpStep(num, st0, op, l, r, st1, st2, t);
  }

  lemma UnaryReadsBack<F>(num: string -> Option<F>, show: F -> string, e: LispExpr<F>, st: State, w: string, t: string)
    requires e.Unary? && Printable(num, show, e) && Lookahead(st)
    requires Stream(st) == w + Spelled(show, e, t) && AllWhitespace(w)
    requires t == [] || !IsFloatChar(t[0])
    ensures ParseImpl(num, st) == (Ok(e), State([], t))
    decreases e, 1
  {
    OpenParen(st, w, UnOpText(e.uop) + (" " + Spelled(show, e.operand, ")" + t)));
    var t2 := ")" + t;
    var x := " " + Spelled(show, e.operand, t2);
    assert UnOpText(e.uop) == ['-'] by {
      match e.uop
      case Neg =>
    }
    var s1 := State([], ['-'] + x);
    Lead('-', x);
    ReadNonSpace(s1);
    var st0 := State([], x);
    OpenStep(num, st, s1, '-', st0);
    ReadsBack(num, show, e.operand, st0, " ", t2);
    var st1 := Resting(e.operand, t2);
    UnexpectedLead(num, st1, ')', t);
    ExpectReads(State([')'], t), ')', ')', t);
    NegStep(num, st0, e.operand, st1, State([')'], t), t);
    match e.uop
    case Neg =>
  }

  lemma FunReadsBack<F>(num: string -> Option<F>, show: F -> string, e: LispExpr<F>, st: State, w: string, t: string)
    requires e.Fun? && Printable(num, show, e) && Lookahead(st)
    requires Stream(st) == w + Spelled(show, e, t) && AllWhitespace(w)
    requires t == [] || !IsFloatChar(t[0])
    ensures ParseImpl(num, st) == (Ok(e), State([], t))
    decreases e, 1
  {
    OpenParen(st, w, e.name + ParamsSpelled(show, e.params, ")" + t));
    var u := ParamsSpelled(show, e.params, ")" + t);
    FunOpen(num, e.name, u, st);
    FunBody(num, show, e.name, e.params, State([e.name[0]], e.name[1..] + u), t);
  }

  /** After `(`, a lower-case name is read by `parse_fun`'s first loop. */
  lemma FunOpen<F>(num: string -> Option<F>, name: string, u: string, st: State)
    requires name != [] && AllLower(name) && (u == [] || !IsLower(u[0]))
    requires GetChar(st, true) == (Some('('), State([], name + u))
    ensures ParseImpl(num, st) == ParseFun(num, State([name[0]], name[1..] + u))
    ensures FunName(State([name[0]], name[1..] + u), "") == (name, After(u))
  {
    var s1 := State([], name + u);
    HeadTail(name, u);
    ReadNonSpace(s1);
    var s2 := State([], name[1..] + u);
    OpenStep(num, st, s1, name[0], s2);
    var sf := PutBack(s2, name[0]);
    Unit([name[0]]);
    Uncons(name);
    Assoc([name[0]], name[1..], u);
    assert Stream(sf) == name + u;
    FunNameReads(sf, "", name, u);
    Unit(name);
  }

  /** `parse_fun` after the name: the arguments, then `)`. */
  lemma FunBody<F>(num: string -> Option<F>, show: F -> string, name: string, ps: seq<LispExpr<F>>, sf: State, t: string)
    requires name != [] && PrintableAll(num, show, ps)
    requires FunName(sf, "") == (name, After(ParamsSpelled(show, ps, ")" + t)))
    ensures ParseFun(num, sf) == (Ok(Fun(name, ps)), State([], t))
    decreases Fun(name, ps), 0
  {
    var u := ParamsSpelled(show, ps, ")" + t);
    ArgsReadBack(num, show, ps, After(u), [], t);
    SeqUnit(ps);
    ExpectReads(State([')'], t), ')', ')', t);
    FunStep(num, sf, name, After(u), ps, State([')'], t), t);
  }

  lemma SeqUnit<T>(xs: seq<T>)
    ensures [] + xs == xs && xs + [] == xs
  {
  }

  lemma SeqSnoc<T>(acc: seq<T>, xs: seq<T>)
    requires xs != []
    ensures acc + [xs[0]] + xs[1..] == acc + xs
  {
  }

  /** `parse_fun`'s `while let` loop reads back every argument and stops at the closing `)`, which it puts back. */
  lemma {:induction false} ArgsReadBack<F>(num: string -> Option<F>, show: F -> string, ps: seq<LispExpr<F>>, st: State,
                                           acc: seq<LispExpr<F>>, t: string)
    requires PrintableAll(num, show, ps)
    requires Lookahead(st) && Stream(st) == ParamsSpelled(show, ps, ")" + t)
    ensures ParseArgs(num, st, acc) == (acc + ps, State([')'], t))
    decreases ps, 1
  {
    if ps == [] {
      UnexpectedLead(num, st, ')', t);
      ArgsStop(num, st, acc, Unexpected(')'), State([')'], t));
      SeqUnit(acc);
    } else {
      var u := ParamsSpelled(show, ps[1..], ")" + t);
      ReadsBack(num, show, ps[0], st, " ", u);
      ArgsStep(num, st, acc, ps[0], Resting(ps[0], u));
      ArgsReadBack(num, show, ps[1..], Resting(ps[0], u), acc + [ps[0]], t);
      SeqSnoc(acc, ps);
    }
  }

  /**
   * `parse` on a spelled tree followed by `t`: the tree when nothing
   * follows; `EOE` when the iterator still holds something, which is when
   * two or more characters follow, or one follows a parenthesised form; a
   * single character after a leaf stays on the put-back stack and is not
   * looked at.
   */
  lemma ParseSpelledThen<F>(num: string -> Option<F>, show: F -> string, e: LispExpr<F>, t: string)
    requires Printable(num, show, e)
    requires t == [] || !IsFloatChar(t[0])
    ensures Parse(num, Spelled(show, e, t)) ==
      if |t| >= 2 || (|t| == 1 && !(e.Lit? || e.Ident?)) then Err(EOE) else Ok(e)
  {
    var s := Spelled(show, e, t);
    Unit(s);
    ReadsBack(num, show, e, State([], s), [], t);
  }

  /** Round trip: the parser reads back the spelling of every printable tree. */
  lemma ParseSpelling<F>(num: string -> Option<F>, show: F -> string, e: LispExpr<F>)
    requires Printable(num, show, e)
    ensures Parse(num, Spelling(show, e)) == Ok(e)
  {
    ParseSpelledThen(num, show, e, []);
  }

  /** Round trip of `to_lisp`: a printable tree without identifiers parses back from its printed text. */
  lemma ToLispRoundTrip<F>(num: string -> Option<F>, show: F -> string, e: LispExpr<F>)
    requires Closed(e) && Printable(num, show, e)
    ensures Parse(num, ToLisp(show, e)) == Ok(e)
  {
    SpelledOfClosed(show, e, []);
    Unit(ToLisp(show, e));
    ParseSpelling(num, show, e);
  }

  /** `to_lisp` writes an identifier as `$id`, which `parse` rejects at the `$`. */
  lemma DollarNotReparseable<F>(num: string -> Option<F>, show: F -> string, id: nat)
    ensures Parse(num, ToLisp(show, Ident(id))) == Err(Unexpected('$'))
  {
    UnexpectedLead(num, State([], ToLisp(show, Ident(id))), '$', NatToDecimal(id));
  }

  /** `"0.x"`: one character after a literal is put back and never checked, so it is accepted. */
  lemma TrailingCharAfterLiteral<F>(num: string -> Option<F>, f: string, x: char, v: F)
    requires f != [] && IsDigit(f[0]) && AllFloatChars(f) && num(f) == Some(v)
    requires !IsFloatChar(x)
    ensures Parse(num, f + [x]) == Ok(Lit(v))
  {
    var show := (_: F) => f;
    assert Spelled(show, Lit(v), [x]) == f + [x];
    ParseSpelledThen(num, show, Lit(v), [x]);
  }
}
