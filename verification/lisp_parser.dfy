/**
 * The parser of src/lisp.rs as the source runs it: a `Parser` object whose
 * put-back stack is updated in place, pulling characters from a `Chars`
 * iterator that is consumed in place. Every method is proved to return, and
 * to leave behind, exactly what the function of the same name in
 * `LispParse` computes from the state before the call.
 */
module LispParser {
  import opened Wrappers
  import opened Text
  import opened Lisp
  import opened LispParse

  /** `std::str::Chars`: the characters the iterator has not produced yet. */
  class Chars {
    var rest: seq<char>

    /** `s.chars()`. */
    constructor (s: string)
      ensures rest == s
    {
      rest := s;
    }

    /** `it.next()`. */
    method Next() returns (c: Option<char>)
      modifies this
      ensures old(rest) == [] ==> c == None && rest == []
      ensures old(rest) != [] ==> c == Some(old(rest)[0]) && rest == old(rest)[1..]
    {
      if rest == [] {
        c := None;
      } else {
        c := Some(rest[0]);
        rest := rest[1..];
      }
    }
  }

  /** `struct Parser { stack: Vec<char> }`. */
  class Parser {
    var stack: seq<char>

    /** `Parser { stack: Vec::new() }`. */
    constructor ()
      ensures stack == []
    {
      stack := [];
    }

    /** The parser and its iterator, seen as one `State`. */
    function StateOf(it: Chars): State
      reads this, it
    {
      State(stack, it.rest)
    }

    /** `put_back`. */
    method PutBack(c: char)
      modifies this
      ensures stack == old(stack) + [c]
    {
      stack := stack + [c];
    }

    /** `get_char`: two loops, first over the stack, then over the iterator. */
    method GetChar(it: Chars, skip: bool) returns (c: Option<char>)
      modifies this, it
      ensures (c, StateOf(it)) == LispParse.GetChar(old(StateOf(it)), skip)
    {
      while |stack| > 0
        invariant LispParse.GetChar(StateOf(it), skip) == LispParse.GetChar(old(StateOf(it)), skip)
        decreases |stack|
      {
        var e := stack[|stack| - 1];
        stack := stack[..|stack| - 1];
        if !(skip && IsWhitespace(e)) {
          return Some(e);
        }
      }
      while true
        invariant stack == []
        invariant LispParse.GetChar(StateOf(it), skip) == LispParse.GetChar(old(StateOf(it)), skip)
        decreases |it.rest|
      {
        var e := it.Next();
        match e
        case None =>
          return None;
        case Some(x) =>
          if !(skip && IsWhitespace(x)) {
            return Some(x);
          }
      }
    }

    /** `expect`. */
    method Expect(it: Chars, c: char, skip: bool) returns (r: Result<(), ParseError>)
      modifies this, it
      ensures (r, StateOf(it)) == LispParse.Expect(old(StateOf(it)), c, skip)
    {
      var d := GetChar(it, skip);
      if d == Some(c) {
        r := Ok(());
      } else {
        r := Err(Expected(c));
      }
    }

    /** `parse_float`: a `loop` growing `buf`, then `buf.parse()`. */
    method ParseFloat<F>(num: string -> Option<F>, it: Chars) returns (r: Result<LispExpr<F>, ParseError>)
      modifies this, it
      ensures (r, StateOf(it)) == LispParse.ParseFloat(num, old(StateOf(it)))
    {
      ghost var target := FloatChars(StateOf(it), "");
      var buf := "";
      while true
        invariant FloatChars(StateOf(it), buf) == target
        decreases Remaining(StateOf(it))
      {
        ghost var before := StateOf(it);
        var c := GetChar(it, false);
        if c.Some? {
          if IsFloatChar(c.value) {
            buf := buf + [c.value];
            continue;
          }
          PutBack(c.value);
        }
        assert FloatChars(before, buf) == (buf, StateOf(it));
        break;
      }
      match num(buf)
      case Some(f) => r := Ok(Lit(f));
      case None => r := Err(BadFloat);
    }

    /** `parse_ident`: a `loop` that skips leading letters and collects digits, then `buf.parse::<u64>()`. */
    method ParseIdent<F>(it: Chars) returns (r: Result<LispExpr<F>, ParseError>)
      modifies this, it
      ensures (r, StateOf(it)) == LispParse.ParseIdent(old(StateOf(it)))
    {
      ghost var target := IdentDigits(StateOf(it), "");
      var buf := "";
      while true
        invariant AllDigits(buf)
        invariant IdentDigits(StateOf(it), buf) == target
        decreases Remaining(StateOf(it))
      {
        ghost var before := StateOf(it);
        var c := GetChar(it, false);
        if c.Some? {
          if buf == [] && IsLower(c.value) {
            continue;
          } else if IsDigit(c.value) {
            buf := buf + [c.value];
            continue;
          } else {
            PutBack(c.value);
          }
        }
        assert IdentDigits(before, buf) == (buf, StateOf(it));
        break;
      }
      match ParseU64(buf)
      case Some(id) => r := Ok(Ident(id));
      case None => r := Err(BadIdent);
    }

    /** `parse_fun`: a `loop` reading the name, a `while let` loop collecting `params`, then `)`. */
    method ParseFun<F>(num: string -> Option<F>, it: Chars) returns (r: Result<LispExpr<F>, ParseError>)
      modifies this, it
      ensures (r, StateOf(it)) == LispParse.ParseFun(num, old(StateOf(it)))
      decreases Remaining(StateOf(it)), 4
    {
      ghost var start := StateOf(it);
      ghost var named := FunName(start, "");
      var buf := "";
      while true
        invariant FunName(StateOf(it), buf) == named
        invariant Remaining(StateOf(it)) + |buf| == Remaining(start)
        decreases Remaining(StateOf(it))
      {
        ghost var before := StateOf(it);
        var c := GetChar(it, false);
        if c.Some? {
          if IsLower(c.value) {
            buf := buf + [c.value];
            continue;
          }
          PutBack(c.value);
        }
        assert FunName(before, buf) == (buf, StateOf(it));
        break;
      }
      if buf == [] {
        return Err(BadIdent);
      }
      ghost var collected := ParseArgs(num, StateOf(it), []);
      var params := [];
      while true
        invariant Remaining(StateOf(it)) <= Remaining(start)
        invariant ParseArgs(num, StateOf(it), params) == collected
        decreases Remaining(StateOf(it))
      {
        ghost var before := StateOf(it);
        var param := ParseImpl(num, it);
        if param.Err? {
          assert ParseArgs(num, before, params) == (params, StateOf(it));
          break;
        }
        params := params + [param.value];
      }
      var closed := Expect(it, ')', true);
      if closed.Err? {
        return Err(closed.error);
      }
      r := Ok(Fun(buf, params));
    }

    /** `parse_op`. */
    method ParseOp<F>(num: string -> Option<F>, it: Chars, op: BinOp) returns (r: Result<LispExpr<F>, ParseError>)
      modifies this, it
      ensures (r, StateOf(it)) == LispParse.ParseOp(num, old(StateOf(it)), op)
      decreases Remaining(StateOf(it)), 2
    {
      var lhs := ParseImpl(num, it);
      if lhs.Err? {
        return lhs;
      }
      var rhs := ParseImpl(num, it);
      if rhs.Ok? {
        r := Ok(Binary(op, lhs.value, rhs.value));
      } else if op == Sub {
        r := Ok(Unary(Neg, lhs.value));
      } else {
        return Err(Arity);
      }
      var closed := Expect(it, ')', true);
      if closed.Err? {
        return Err(closed.error);
      }
    }

    /** `parse_impl`. */
    method ParseImpl<F>(num: string -> Option<F>, it: Chars) returns (r: Result<LispExpr<F>, ParseError>)
      modifies this, it
      ensures (r, StateOf(it)) == LispParse.ParseImpl(num, old(StateOf(it)))
      decreases Remaining(StateOf(it)), 1
    {
      var c := GetChar(it, true);
      match c
      case None =>
        r := Err(EOE);
      case Some(d) =>
        if d == '(' {
          var c2 := GetChar(it, true);
          match c2
          case None =>
            r := Err(EOE);
          case Some(d2) =>
            if d2 == '+' {
              r := ParseOp(num, it, Add);
            } else if d2 == '-' {
              r := ParseOp(num, it, Sub);
            } else if d2 == '*' {
              r := ParseOp(num, it, Mul);
            } else if d2 == '/' {
              r := ParseOp(num, it, Div);
            } else if IsDigit(d2) {
              PutBack(d2);
              r := ParseFloat(num, it);
              var closed := Expect(it, ')', true);
              if closed.Err? {
                r := Err(closed.error);
              }
            } else {
              PutBack(d2);
              r := ParseFun(num, it);
            }
        } else if IsDigit(d) {
          PutBack(d);
          r := ParseFloat(num, it);
        } else if d == 'h' {
          r := ParseIdent(it);
        } else {
          PutBack(d);
          r := Err(Unexpected(d));
        }
    }
  }

  /** `parse`: a fresh parser over `s.chars()`; the iterator must be exhausted afterwards. */
  method Parse<F>(num: string -> Option<F>, s: string) returns (r: Result<LispExpr<F>, ParseError>)
    ensures r == LispParse.Parse(num, s)
  {
    var parser := new Parser();
    var it := new Chars(s);
    r := parser.ParseImpl(num, it);
    if r.Ok? {
      var next := it.Next();
      if next.Some? {
        r := Err(EOE);
      }
    }
  }
}
