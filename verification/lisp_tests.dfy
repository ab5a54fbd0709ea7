/**
 * The cases of tests/lisp.rs that exercise this parser, stated for any
 * float parser `num` that reads the numerals involved. Each accepted input
 * is the spelling of its tree and follows from the round trip; each
 * rejected input follows from the readers and steps of `LispParseFacts`.
 */
module LispTests {
  import opened Wrappers
  import opened Text
  import opened Lisp
  import opened LispParse
  import opened LispParseFacts

  /** A printer that writes every literal as the numeral `s`. */
  function Numeral<F>(s: string): F -> string
  {
    (_: F) => s
  }

  /** `parse("")` is `EOE`. */
  lemma EmptyInput<F>(num: string -> Option<F>)
    ensures Parse(num, "") == Err(EOE)
  {
    EndOfExpression(num, State([], ""), "", "");
  }

  /** `parse("0.")` is the literal the float parser reads from `0.`. */
  lemma ZeroPoint<F>(num: string -> Option<F>, z: F)
    requires num("0.") == Some(z)
    ensures Parse(num, "0.") == Ok(Lit(z))
  {
    var show := Numeral<F>("0.");
    assert Spelling(show, Lit(z)) == "0.";
    ParseSpelling(num, show, Lit(z));
  }

  /** `parse("0")`. */
  lemma ZeroDigit<F>(num: string -> Option<F>, z: F)
    requires num("0") == Some(z)
    ensures Parse(num, "0") == Ok(Lit(z))
  {
    var show := Numeral<F>("0");
    assert Spelling(show, Lit(z)) == "0";
    ParseSpelling(num, show, Lit(z));
  }

  /** `parse("herbie0")`. */
  lemma Identifier<F>(num: string -> Option<F>)
    ensures Parse(num, "herbie0") == Ok(Ident(0))
  {
    var show := Numeral<F>("");
    assert NatToDecimal(0) == "0";
    assert Spelling(show, Ident(0)) == "herbie0";
    ParseSpelling(num, show, Ident(0));
  }

  /** `parse("(+ herbie0 herbie1)")`. */
  lemma Sum<F>(num: string -> Option<F>)
    ensures Parse(num, "(+ herbie0 herbie1)") == Ok(Binary(Add, Ident(0), Ident(1)))
  {
    var show := Numeral<F>("");
    IdentText(show, 0, "0");
    IdentText(show, 1, "1");
    SumText(show, Ident(0), Ident(1));
    ParseSpelling(num, show, Binary(Add, Ident(0), Ident(1)));
  }

  lemma SumText<F>(show: F -> string, l: LispExpr<F>, r: LispExpr<F>)
    requires Spelling(show, l) == "herbie" + "0" && Spelling(show, r) == "herbie" + "1"
    ensures Spelling(show, Binary(Add, l, r)) == "(+ herbie0 herbie1)"
  {
    BinarySpelling(show, Add, l, r);
  }

  /** `parse("(- herbie0)")`: `-` with one operand is negation. */
  lemma Negation<F>(num: string -> Option<F>)
    ensures Parse(num, "(- herbie0)") == Ok(Unary(Neg, Ident(0)))
  {
    var show := Numeral<F>("");
    assert NatToDecimal(0) == "0";
    assert Spelling(show, Unary(Neg, Ident(0))) == "(- herbie0)";
    ParseSpelling(num, show, Unary(Neg, Ident(0)));
  }

  /** `parse("(- herbie0 herbie1)")`: with two operands `-` is subtraction. */
  lemma Difference<F>(num: string -> Option<F>)
    ensures Parse(num, "(- herbie0 herbie1)") == Ok(Binary(Sub, Ident(0), Ident(1)))
  {
    var show := Numeral<F>("");
    IdentText(show, 0, "0");
    IdentText(show, 1, "1");
    DifferenceText(show, Ident(0), Ident(1));
    ParseSpelling(num, show, Binary(Sub, Ident(0), Ident(1)));
  }

  lemma DifferenceText<F>(show: F -> string, l: LispExpr<F>, r: LispExpr<F>)
    requires Spelling(show, l) == "herbie" + "0" && Spelling(show, r) == "herbie" + "1"
    ensures Spelling(show, Binary(Sub, l, r)) == "(- herbie0 herbie1)"
  {
    BinarySpelling(show, Sub, l, r);
  }

  /** `parse("(cos 1)")`. */
  lemma CosOne<F>(num: string -> Option<F>, one: F)
    requires num("1") == Some(one)
    ensures Parse(num, "(cos 1)") == Ok(Fun("cos", [Lit(one)]))
  {
    var show := Numeral<F>("1");
    var ps := [Lit(one)];
    assert ps[1..] == [] && ")" + "" == ")";
    assert ParamsSpelled(show, ps, ")") == " " + ("1" + ")");
    assert Spelling(show, Fun("cos", ps)) == "(" + ("cos" + " 1)");
    assert "(" + ("cos" + " 1)") == "(cos 1)";
    assert show(one) == "1" && IsDigit("1"[0]) && AllFloatChars("1");
    assert Printable(num, show, ps[0]) && PrintableAll(num, show, ps[1..]);
    assert PrintableAll(num, show, ps);
    ParseSpelling(num, show, Fun("cos", ps));
  }

  /** `parse("(cos herbie0)")`. */
  lemma CosIdentifier<F>(num: string -> Option<F>)
    ensures Parse(num, "(cos herbie0)") == Ok(Fun("cos", [Ident(0)]))
  {
    var show := Numeral<F>("");
    assert NatToDecimal(0) == "0";
    assert Spelling(show, Fun("cos", [Ident(0)])) == "(cos herbie0)";
    ParseSpelling(num, show, Fun("cos", [Ident(0)]));
  }

  /** The spelling of `herbie<id>`, where `d` is the decimal text of `id`. */
  lemma IdentText<F>(show: F -> string, id: nat, d: string)
    requires NatToDecimal(id) == d
    ensures Spelling(show, Ident(id)) == "herbie" + d
  {
    IdentSpelling(show, id);
  }

  /** `parse("(+ 0. 0.) foobar")`: text after a complete form is `EOE`. */
  lemma TrailingText<F>(num: string -> Option<F>, z: F)
    requires num("0.") == Some(z)
    ensures Parse(num, "(+ 0. 0.) foobar") == Err(EOE)
  {
    var show := Numeral("0.");
    assert Spelled(show, Binary(Add, Lit(z), Lit(z)), " foobar") == "(+ 0. 0.) foobar";
    ParseSpelledThen(num, show, Binary(Add, Lit(z), Lit(z)), " foobar");
  }

  /** `parse("(")` is `EOE`. */
  lemma LoneParenthesis<F>(num: string -> Option<F>)
    ensures Parse(num, "(") == Err(EOE)
  {
    EndOfExpression(num, State([], "("), "", "");
  }

  /** `parse("0.eee")`: the whole run is handed to the float parser, which rejects it. */
  lemma BadNumeral<F>(num: string -> Option<F>)
    requires num("0.eee") == None
    ensures Parse(num, "0.eee") == Err(BadFloat)
  {
    FloatLead(num, State([], "0.eee"), "", "0.eee", "");
  }

  /** Operators outside a form, and forms without operands. */
  lemma StrayOperators<F>(num: string -> Option<F>)
    ensures Parse(num, "+") == Err(Unexpected('+'))
    ensures Parse(num, "(+)") == Err(Unexpected(')'))
    ensures Parse(num, "-") == Err(Unexpected('-'))
    ensures Parse(num, "(-)") == Err(Unexpected(')'))
  {
    UnexpectedLead(num, State([], "+"), '+', "");
    UnexpectedLead(num, State([], "-"), '-', "");
    UnexpectedLead(num, State([], ")"), ')', "");
    OpenStep(num, State([], "(+)"), State([], "+)"), '+', State([], ")"));
    OpenStep(num, State([], "(-)"), State([], "-)"), '-', State([], ")"));
  }

  /** `(`, then the character of `op`, then the rest `x`, read by `parse_impl`. */
  lemma OpenOperator<F>(num: string -> Option<F>, op: BinOp, x: string)
    ensures ParseImpl(num, State([], "(" + (BinOpText(op) + x))) == ParseOp(num, State([], x), op)
  {
    var y := BinOpText(op) + x;
    Lead('(', y);
    ReadNonSpace(State([], "(" + y));
    OpChar(op, x);
    ReadNonSpace(State([], y));
    BinaryOpenStep(num, State([], "(" + y), State([], y), op, State([], x));
  }

  /** An operator other than `-` with one numeric operand `f` and then `)`: an `Arity` error. */
  lemma SingleOperand<F>(num: string -> Option<F>, op: BinOp, f: string)
    requires op != Sub
    requires f != [] && IsDigit(f[0]) && AllFloatChars(f) && num(f).Some?
    ensures Parse(num, "(" + (BinOpText(op) + (" " + (f + ")")))) == Err(Arity)
  {
    OpenOperator(num, op, " " + (f + ")"));
    LoneOperand(num, op, f);
  }

  /** `parse_op` on one numeric operand and then `)`. */
  lemma LoneOperand<F>(num: string -> Option<F>, op: BinOp, f: string)
    requires op != Sub
    requires f != [] && IsDigit(f[0]) && AllFloatChars(f) && num(f).Some?
    ensures ParseOp(num, State([], " " + (f + ")")), op).0 == Err(Arity)
  {
    var x := " " + (f + ")");
    FloatLead(num, State([], x), " ", f, ")");
    UnexpectedLead(num, After(")"), ')', "");
    OpMissingStep(num, State([], x), op, Lit(num(f).value), After(")"));
  }

  /** `parse("(+ 0.)")`: one operand for `+` is an `Arity` error. */
  lemma OneOperand<F>(num: string -> Option<F>)
    requires num("0.").Some?
    ensures Parse(num, "(+ 0.)") == Err(Arity)
  {
    assert "(+ 0.)" == "(" + (BinOpText(Add) + (" " + ("0." + ")")));
    SingleOperand(num, Add, "0.");
  }

  /**
   * An operator form with two numeric operands `f` and `g`, after which
   * `t` holds blanks `w` and then anything but `)`: `expect` fails.
   */
  lemma OperandsUnclosed<F>(num: string -> Option<F>, op: BinOp, f: string, g: string, t: string, w: string, x: string)
    requires f != [] && IsDigit(f[0]) && AllFloatChars(f) && num(f).Some?
    requires g != [] && IsDigit(g[0]) && AllFloatChars(g) && num(g).Some?
    requires t == w + x && AllWhitespace(w) && (x == [] || (!IsWhitespace(x[0]) && x[0] != ')'))
    requires t == [] || !IsFloatChar(t[0])
    ensures Parse(num, "(" + (BinOpText(op) + (" " + (f + (" " + (g + t)))))) == Err(Expected(')'))
  {
    var x1 := " " + (f + (" " + (g + t)));
    OpenOperator(num, op, x1);
    Lead(' ', g + t);
    FloatLead(num, State([], x1), " ", f, " " + (g + t));
    FloatLead(num, After(" " + (g + t)), " ", g, t);
    SkipChar(After(t), w, x);
    OpUnclosedStep(num, State([], x1), op, Lit(num(f).value), Lit(num(g).value), After(" " + (g + t)), After(t));
  }

  /** `parse("(+ 0. 0.")`: two operands, then the end of the input instead of `)`. */
  lemma UnclosedSum<F>(num: string -> Option<F>)
    requires num("0.").Some?
    ensures Parse(num, "(+ 0. 0.") == Err(Expected(')'))
  {
    assert "(+ 0. 0." == "(" + (BinOpText(Add) + (" " + ("0." + (" " + ("0." + ""))))) && "" == "" + "";
    OperandsUnclosed(num, Add, "0.", "0.", "", "", "");
  }

  /** `parse("(+ 0. 0. 0.)")`: `expect` meets the third operand. */
  lemma ThreeOperands<F>(num: string -> Option<F>)
    requires num("0.").Some?
    ensures Parse(num, "(+ 0. 0. 0.)") == Err(Expected(')'))
  {
    assert "(+ 0. 0. 0.)" == "(" + (BinOpText(Add) + (" " + ("0." + (" " + ("0." + " 0.)"))))) && " 0.)" == " " + "0.)";
    OperandsUnclosed(num, Add, "0.", "0.", " 0.)", " ", "0.)");
  }

  /** `parse("(+ 0. 0. 0.")`. */
  lemma ThreeOperandsUnclosed<F>(num: string -> Option<F>)
    requires num("0.").Some?
    ensures Parse(num, "(+ 0. 0. 0.") == Err(Expected(')'))
  {
    assert "(+ 0. 0. 0." == "(" + (BinOpText(Add) + (" " + ("0." + (" " + ("0." + " 0."))))) && " 0." == " " + "0.";
    OperandsUnclosed(num, Add, "0.", "0.", " 0.", " ", "0.");
  }

  /** `parse("(- 0. 0. 0.)")`: `-` takes at most two operands too. */
  lemma ThreeOperandsDifference<F>(num: string -> Option<F>)
    requires num("0.").Some?
    ensures Parse(num, "(- 0. 0. 0.)") == Err(Expected(')'))
  {
    assert "(- 0. 0. 0.)" == "(" + (BinOpText(Sub) + (" " + ("0." + (" " + ("0." + " 0.)"))))) && " 0.)" == " " + "0.)";
    OperandsUnclosed(num, Sub, "0.", "0.", " 0.)", " ", "0.)");
  }

  /** `get_char` takes the `(` in front of a function name. */
  lemma OpenName(name: string, u: string)
    ensures GetChar(State([], "(" + (name + u)), true) == (Some('('), State([], name + u))
  {
    Lead('(', name + u);
    ReadNonSpace(State([], "(" + (name + u)));
  }

  /** A call of `name` with nothing but blanks `w` after it: no arguments, and no `)`. */
  lemma NameUnclosed<F>(num: string -> Option<F>, name: string, w: string)
    requires name != [] && AllLower(name) && AllWhitespace(w)
    ensures Parse(num, "(" + (name + w)) == Err(Expected(')'))
  {
    OpenName(name, w);
    assert w == [] || !IsLower(w[0]);
    FunOpen(num, name, w, State([], "(" + (name + w)));
    EndOfExpression(num, After(w), w, "");
    ArgsStop(num, After(w), [], EOE, State([], []));
    ExpectAtEnd(State([], []), ')', "");
    FunUnclosedStep(num, State([name[0]], name[1..] + w), name, After(w), [], State([], []));
  }

  /** `parse("(cos")`. */
  lemma UnclosedCall<F>(num: string -> Option<F>)
    ensures Parse(num, "(cos") == Err(Expected(')'))
  {
    assert "(cos" == "(" + ("cos" + "") && AllLower("cos");
    NameUnclosed(num, "cos", "");
  }

  /** A number after a blank, read as one more argument. */
  lemma NumberArgument<F>(num: string -> Option<F>, acc: seq<LispExpr<F>>, f: string, t: string)
    requires f != [] && IsDigit(f[0]) && AllFloatChars(f) && num(f).Some?
    requires t == [] || !IsFloatChar(t[0])
    ensures ParseArgs(num, After(" " + (f + t)), acc) == ParseArgs(num, After(t), acc + [Lit(num(f).value)])
  {
    FloatLead(num, After(" " + (f + t)), " ", f, t);
    ArgsStep(num, After(" " + (f + t)), acc, Lit(num(f).value), After(t));
  }

  /** Three numbers, each after a blank, and then the end of the input, read as arguments. */
  lemma ThreeArguments<F>(num: string -> Option<F>, f: string, g: string, h: string)
    requires f != [] && IsDigit(f[0]) && AllFloatChars(f) && num(f).Some?
    requires g != [] && IsDigit(g[0]) && AllFloatChars(g) && num(g).Some?
    requires h != [] && IsDigit(h[0]) && AllFloatChars(h) && num(h).Some?
    ensures ParseArgs(num, After(" " + (f + (" " + (g + (" " + h))))), []) ==
      ([Lit(num(f).value), Lit(num(g).value), Lit(num(h).value)], State([], []))
  {
    var a := Lit(num(f).value);
    Lead(' ', g + (" " + h));
    NumberArgument(num, [], f, " " + (g + (" " + h)));
    assert [] + [a] == [a];
    TwoArguments(num, [a], g, h);
    assert [a] + [Lit(num(g).value), Lit(num(h).value)] == [a, Lit(num(g).value), Lit(num(h).value)];
  }

  /** Two numbers, each after a blank, and then the end of the input, after the arguments `acc`. */
  lemma TwoArguments<F>(num: string -> Option<F>, acc: seq<LispExpr<F>>, g: string, h: string)
    requires g != [] && IsDigit(g[0]) && AllFloatChars(g) && num(g).Some?
    requires h != [] && IsDigit(h[0]) && AllFloatChars(h) && num(h).Some?
    ensures ParseArgs(num, After(" " + (g + (" " + h))), acc) ==
      (acc + [Lit(num(g).value), Lit(num(h).value)], State([], []))
  {
    var b, c := Lit(num(g).value), Lit(num(h).value);
    Lead(' ', h);
    NumberArgument(num, acc, g, " " + h);
    Unit(h);
    NumberArgument(num, acc + [b], h, "");
    EndOfExpression(num, After(""), "", "");
    ArgsStop(num, After(""), acc + [b] + [c], EOE, State([], []));
    assert acc + [b] + [c] == acc + [b, c];
  }

  /** A call of `name` on three numbers, each after a blank, and then the end of the input. */
  lemma ArgumentsUnclosed<F>(num: string -> Option<F>, name: string, f: string, g: string, h: string)
    requires name != [] && AllLower(name)
    requires f != [] && IsDigit(f[0]) && AllFloatChars(f) && num(f).Some?
    requires g != [] && IsDigit(g[0]) && AllFloatChars(g) && num(g).Some?
    requires h != [] && IsDigit(h[0]) && AllFloatChars(h) && num(h).Some?
    ensures Parse(num, "(" + (name + (" " + (f + (" " + (g + (" " + h))))))) == Err(Expected(')'))
  {
    var u1 := " " + (f + (" " + (g + (" " + h))));
    OpenName(name, u1);
    FunOpen(num, name, u1, State([], "(" + (name + u1)));
    ThreeArguments(num, f, g, h);
    ExpectAtEnd(State([], []), ')', "");
    FunUnclosedStep(num, State([name[0]], name[1..] + u1), name, After(u1),
      [Lit(num(f).value), Lit(num(g).value), Lit(num(h).value)], State([], []));
  }

  /** `parse("(cos 1. 2. 3.")`. */
  lemma UnclosedCallWithArguments<F>(num: string -> Option<F>)
    requires num("1.").Some? && num("2.").Some? && num("3.").Some?
    ensures Parse(num, "(cos 1. 2. 3.") == Err(Expected(')'))
  {
    assert "(cos 1. 2. 3." == "(" + ("cos" + (" " + ("1." + (" " + ("2." + (" " + "3."))))));
    assert AllLower("cos");
    ArgumentsUnclosed(num, "cos", "1.", "2.", "3.");
  }

  /**
   * A name, then a number `f` and a character `c` that no expression starts
   * with: `f` is the one argument and `c` stands where `)` is expected.
   */
  lemma NumberInName<F>(num: string -> Option<F>, name: string, f: string, c: char, rest: string)
    requires name != [] && AllLower(name)
    requires f != [] && IsDigit(f[0]) && AllFloatChars(f) && num(f).Some?
    requires !IsFloatChar(c) && !IsWhitespace(c) && c != '(' && c != 'h' && c != ')'
    ensures Parse(num, "(" + (name + (f + ([c] + rest)))) == Err(Expected(')'))
  {
    var u := f + ([c] + rest);
    OpenName(name, u);
    FunOpen(num, name, u, State([], "(" + (name + u)));
    Unit(u);
    FloatLead(num, After(u), "", f, [c] + rest);
    UnexpectedLead(num, After([c] + rest), c, rest);
    var a := Lit(num(f).value);
    ArgsStep(num, After(u), [], a, After([c] + rest));
    ArgsStop(num, After([c] + rest), [a], Unexpected(c), State([c], rest));
    ExpectReads(State([c], rest), ')', c, rest);
    FunUnclosedStep(num, State([name[0]], name[1..] + u), name, After(u), [a], State([c], rest));
  }

  /**
   * `parse("(log1p (cos herbie0))")`: function names are read as letters
   * only, so the `1` ends the name `log`, `1` is read as an argument, and
   * `p` is met where `)` is expected.
   */
  lemma DigitInName<F>(num: string -> Option<F>)
    requires num("1").Some?
    ensures Parse(num, "(log1p (cos herbie0))") == Err(Expected(')'))
  {
    assert "(log1p (cos herbie0))" == "(" + ("log" + ("1" + (['p'] + " (cos herbie0))")));
    assert AllLower("log");
    NumberInName(num, "log", "1", 'p', " (cos herbie0))");
  }
}
