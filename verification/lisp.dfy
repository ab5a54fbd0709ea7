/**
 * The expression tree of src/lisp.rs, shared by concrete expressions and
 * rewrite patterns, and its printer `to_lisp`.
 *
 * The same `Ident` constructor means two things depending on the side it is
 * on: in a concrete expression it names a sub-term of the host program, in a
 * pattern it is a hole to be bound by the matcher.
 */
module Lisp {
  import opened Text

  /** The binary operators the parser produces: `BiAdd`, `BiSub`, `BiMul`, `BiDiv`. */
  datatype BinOp = Add | Sub | Mul | Div

  /** The unary operator the parser produces: `UnNeg`. */
  datatype UnOp = Neg

  /** `LispExpr`; `F` stands for `f64` and is compared with exact equality only. */
  datatype LispExpr<F> =
    | Binary(op: BinOp, lhs: LispExpr<F>, rhs: LispExpr<F>)
    | Fun(name: string, params: seq<LispExpr<F>>)
    | Ident(id: nat)
    | Lit(value: F)
    | Unary(uop: UnOp, operand: LispExpr<F>)

  /** `binop_to_string` restricted to the four operators. */
  function BinOpText(op: BinOp): (s: string)
    ensures |s| == 1 && !IsWhitespace(s[0]) && !IsDigit(s[0]) && !IsLower(s[0])
  {
    match op
    case Add => "+"
    case Sub => "-"
    case Mul => "*"
    case Div => "/"
  }

  /** `unop_to_string(UnNeg)`. */
  function UnOpText(op: UnOp): string
  {
    match op
    case Neg => "-"
  }

  /**
   * `to_lisp`: prefix S-expression text with single spaces. `show` is
   * `format!("{}", f)` for literals, which is not modelled.
   */
  function ToLisp<F>(show: F -> string, e: LispExpr<F>): string
  {
    match e
    case Binary(op, l, r) => "(" + BinOpText(op) + " " + ToLisp(show, l) + " " + ToLisp(show, r) + ")"
    case Fun(name, params) => "(" + name + ParamsText(show, params) + ")"
    case Lit(f) => show(f)
    case Unary(op, x) => "(" + UnOpText(op) + " " + ToLisp(show, x) + ")"
    case Ident(id) => "$" + NatToDecimal(id)
  }

  /** The parameter loop of `to_lisp`: each parameter's text, preceded by a blank. */
  function ParamsText<F>(show: F -> string, params: seq<LispExpr<F>>): string
  {
    if params == [] then "" else " " + ToLisp(show, params[0]) + ParamsText(show, params[1..])
  }

  /** The `Fun` branch of `to_lisp` as the source writes it: a buffer grown by a loop over the parameters. */
  method FunToLisp<F>(show: F -> string, name: string, params: seq<LispExpr<F>>) returns (buf: string)
    ensures buf == ToLisp(show, Fun(name, params))
  {
    buf := "(" + name;
    for i := 0 to |params|
      invariant buf + ParamsText(show, params[i..]) == "(" + name + ParamsText(show, params)
    {
      assert params[i..][1..] == params[i + 1..];
      buf := buf + " " + ToLisp(show, params[i]);
    }
    assert params[|params|..] == [];
    buf := buf + ")";
  }

  /** The holes of a pattern: the ids of its `Ident` nodes. */
  function Holes<F>(e: LispExpr<F>): set<nat>
  {
    match e
    case Binary(_, l, r) => Holes(l) + Holes(r)
    case Fun(_, params) => HolesAll(params)
    case Ident(id) => {id}
    case Lit(_) => {}
    case Unary(_, x) => Holes(x)
  }

  function HolesAll<F>(es: seq<LispExpr<F>>): set<nat>
  {
    if es == [] then {} else Holes(es[0]) + HolesAll(es[1..])
  }

  /** True when the tree has no `Ident` node. */
  predicate Closed<F>(e: LispExpr<F>)
  {
    Holes(e) == {}
  }
}
