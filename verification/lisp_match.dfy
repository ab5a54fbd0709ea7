/**
 * The one-way unifier `form_of` of src/lisp.rs. The left side is a concrete
 * expression, the right side a pattern whose `Ident`s are holes. A table
 * keyed by hole id records what each hole was first bound to; every later
 * occurrence of that hole must agree with the binding.
 */
module LispMatch {
  import opened Lisp

  /** `Binded`: a hole is bound to a concrete ident or to a literal. */
  datatype Binded<F> = BoundIdent(id: nat) | BoundLit(value: F)

  /** The hole table `ids: HashMap<u64, Binded>`. */
  type Table<F> = map<nat, Binded<F>>

  /** `form_of_impl` as a function of the table before the call: the verdict and the table after it. */
  function Match<F(==)>(lhs: LispExpr<F>, rhs: LispExpr<F>, ids: Table<F>): (bool, Table<F>)
    decreases lhs
  {
    match lhs
    case Binary(lop, l1, l2) =>
      (match rhs
       case Binary(rop, r1, r2) =>
         if lop != rop then (false, ids)
         else
           var (b1, ids1) := Match(l1, r1, ids);
           if !b1 then (false, ids1) else Match(l2, r2, ids1)
       case _ => (false, ids))
    case Fun(lfun, lp) =>
      (match rhs
       case Fun(rfun, rp) =>
         if lfun != rfun || |lp| != |rp| then (false, ids) else MatchAll(lp, rp, ids)
       case _ => (false, ids))
    case Ident(lid) =>
      (match rhs
       case Ident(rid) =>
         if rid in ids then (ids[rid] == BoundIdent(lid), ids) else (true, ids[rid := BoundIdent(lid)])
       case _ => (false, ids))
    case Lit(l) =>
      (match rhs
       case Lit(r) => (l == r, ids)
       case Ident(rid) =>
         if rid in ids then (ids[rid] == BoundLit(l), ids) else (true, ids[rid := BoundLit(l)])
       case _ => (false, ids))
    case Unary(lop, l1) =>
      (match rhs
       case Unary(rop, r1) => if lop != rop then (false, ids) else Match(l1, r1, ids)
       case _ => (false, ids))
  }

  /** `lp.iter().zip(rp).all(..)`: pairwise, left to right, stopping at the first failure. */
  function MatchAll<F(==)>(ls: seq<LispExpr<F>>, rs: seq<LispExpr<F>>, ids: Table<F>): (bool, Table<F>)
    requires |ls| == |rs|
    decreases ls
  {
    if ls == [] then (true, ids)
    else
      var (b, ids1) := Match(ls[0], rs[0], ids);
      if !b then (false, ids1) else MatchAll(ls[1..], rs[1..], ids1)
  }

  /** `form_of`: every call starts from an empty table. */
  function Matches<F(==)>(lhs: LispExpr<F>, rhs: LispExpr<F>): bool
  {
    Match(lhs, rhs, map[]).0
  }

  // ---------------------------------------------------------------------------
  // The reference definition: a pattern matches when some assignment of
  // leaves to its holes turns it into the concrete expression.

  /** The leaf a binding stands for. */
  function Bound<F>(b: Binded<F>): LispExpr<F>
  {
    match b
    case BoundIdent(id) => Ident(id)
    case BoundLit(v) => Lit(v)
  }

  /** The pattern with every bound hole replaced by its binding. */
  function Subst<F>(p: LispExpr<F>, sigma: Table<F>): LispExpr<F>
  {
    match p
    case Binary(op, a, b) => Binary(op, Subst(a, sigma), Subst(b, sigma))
    case Fun(name, ps) => Fun(name, SubstAll(ps, sigma))
    case Ident(h) => if h in sigma then Bound(sigma[h]) else p
    case Lit(_) => p
    case Unary(op, x) => Unary(op, Subst(x, sigma))
  }

  function SubstAll<F>(ps: seq<LispExpr<F>>, sigma: Table<F>): (r: seq<LispExpr<F>>)
    ensures |r| == |ps|
    ensures forall i | 0 <= i < |ps| :: r[i] == Subst(ps[i], sigma)
  {
    if ps == [] then [] else [Subst(ps[0], sigma)] + SubstAll(ps[1..], sigma)
  }

  /** `big` agrees with every binding of `small`. */
  ghost predicate Extends<F>(small: Table<F>, big: Table<F>)
  {
    forall k | k in small :: k in big && big[k] == small[k]
  }

  ghost predicate Instance<F>(l: LispExpr<F>, r: LispExpr<F>, sigma: Table<F>)
  {
    Holes(r) <= sigma.Keys && Subst(r, sigma) == l
  }

  lemma HolesAllContains<F>(es: seq<LispExpr<F>>, i: nat)
    requires i < |es|
    ensures Holes(es[i]) <= HolesAll(es)
  {
    if i > 0 {
      HolesAllContains(es[1..], i - 1);
      assert es[1..][i - 1] == es[i];
    }
  }

  /** Substitution only looks at the holes of the pattern. */
  lemma {:induction false} SubstAgree<F>(r: LispExpr<F>, s1: Table<F>, s2: Table<F>)
    requires Holes(r) <= s1.Keys && Extends(s1, s2)
    ensures Subst(r, s1) == Subst(r, s2)
    decreases r
  {
    match r
    case Binary(_, a, b) => SubstAgree(a, s1, s2); SubstAgree(b, s1, s2);
    case Fun(_, ps) => SubstAllAgree(ps, s1, s2);
    case Ident(h) =>
    case Lit(_) =>
    case Unary(_, x) => SubstAgree(x, s1, s2);
  }

  lemma {:induction false} SubstAllAgree<F>(ps: seq<LispExpr<F>>, s1: Table<F>, s2: Table<F>)
    requires HolesAll(ps) <= s1.Keys && Extends(s1, s2)
    ensures SubstAll(ps, s1) == SubstAll(ps, s2)
    decreases ps
  {
    if ps != [] {
      SubstAgree(ps[0], s1, s2);
      SubstAllAgree(ps[1..], s1, s2);
    }
  }

  /**
   * Soundness of `form_of_impl`: the table only grows, and on success it
   * binds every hole of the pattern so that the pattern becomes the
   * concrete expression.
   */
  lemma {:induction false} MatchSound<F>(l: LispExpr<F>, r: LispExpr<F>, ids: Table<F>)
    ensures Extends(ids, Match(l, r, ids).1)
    ensures Match(l, r, ids).0 ==> Instance(l, r, Match(l, r, ids).1)
    decreases l
  {
    match l
    case Binary(lop, l1, l2) =>
      if r.Binary? && lop == r.op {
        MatchSound(l1, r.lhs, ids);
        var ids1 := Match(l1, r.lhs, ids).1;
        if Match(l1, r.lhs, ids).0 {
          MatchSound(l2, r.rhs, ids1);
          var ids2 := Match(l2, r.rhs, ids1).1;
          if Match(l2, r.rhs, ids1).0 {
            SubstAgree(r.lhs, ids1, ids2);
          }
        }
      }
    case Fun(lfun, lp) =>
      if r.Fun? && lfun == r.name && |lp| == |r.params| {
        MatchAllSound(lp, r.params, ids);
      }
    case Ident(_) =>
    case Lit(_) =>
    case Unary(lop, l1) =>
      if r.Unary? && lop == r.uop {
        MatchSound(l1, r.operand, ids);
      }
  }

  lemma {:induction false} MatchAllSound<F>(ls: seq<LispExpr<F>>, rs: seq<LispExpr<F>>, ids: Table<F>)
    requires |ls| == |rs|
    ensures Extends(ids, MatchAll(ls, rs, ids).1)
    ensures MatchAll(ls, rs, ids).0 ==>
      HolesAll(rs) <= MatchAll(ls, rs, ids).1.Keys && SubstAll(rs, MatchAll(ls, rs, ids).1) == ls
    decreases ls
  {
    if ls != [] {
      MatchSound(ls[0], rs[0], ids);
      var ids1 := Match(ls[0], rs[0], ids).1;
      if Match(ls[0], rs[0], ids).0 {
        MatchAllSound(ls[1..], rs[1..], ids1);
        var ids2 := MatchAll(ls[1..], rs[1..], ids1).1;
        if MatchAll(ls[1..], rs[1..], ids1).0 {
          SubstAgree(rs[0], ids1, ids2);
          assert ls == [ls[0]] + ls[1..];
        }
      }
    }
  }

  /**
   * Completeness of `form_of_impl`: if some assignment consistent with the
   * table turns the pattern into the concrete expression, the matcher
   * succeeds and stays within that assignment.
   */
  lemma {:induction false} MatchComplete<F>(l: LispExpr<F>, r: LispExpr<F>, ids: Table<F>, sigma: Table<F>)
    requires Instance(l, r, sigma) && Extends(ids, sigma)
    ensures Match(l, r, ids).0 && Extends(Match(l, r, ids).1, sigma)
    decreases r
  {
    match r
    case Binary(op, r1, r2) =>
      MatchComplete(l.lhs, r1, ids, sigma);
      MatchComplete(l.rhs, r2, Match(l.lhs, r1, ids).1, sigma);
    case Fun(name, rp) =>
      MatchAllComplete(l.params, rp, ids, sigma);
    case Ident(h) =>
    case Lit(_) =>
    case Unary(op, r1) =>
      MatchComplete(l.operand, r1, ids, sigma);
  }

  lemma {:induction false} MatchAllComplete<F>(ls: seq<LispExpr<F>>, rs: seq<LispExpr<F>>, ids: Table<F>, sigma: Table<F>)
    requires HolesAll(rs) <= sigma.Keys && SubstAll(rs, sigma) == ls && Extends(ids, sigma)
    ensures MatchAll(ls, rs, ids).0 && Extends(MatchAll(ls, rs, ids).1, sigma)
    decreases rs
  {
    if rs != [] {
      MatchComplete(ls[0], rs[0], ids, sigma);
      assert SubstAll(rs[1..], sigma) == ls[1..];
      MatchAllComplete(ls[1..], rs[1..], Match(ls[0], rs[0], ids).1, sigma);
    }
  }

  /**
   * `form_of` is exactly one-way unification where holes stand for leaves:
   * it holds iff some assignment of concrete idents and literals to the
   * holes turns the pattern into the concrete expression.
   */
  lemma MatchesIffInstance<F>(l: LispExpr<F>, r: LispExpr<F>)
    ensures Matches(l, r) <==> exists sigma :: Instance(l, r, sigma)
  {
    MatchSound(l, r, map[]);
    if Matches(l, r) {
      assert Instance(l, r, Match(l, r, map[]).1);
    }
    if sigma :| Instance(l, r, sigma) {
      MatchComplete(l, r, map[], sigma);
    }
  }

  // ---------------------------------------------------------------------------
  // Consequences for the shapes the matcher compares.

  /** `Binary` matches `Binary` iff the operators agree and ONE assignment fits both operands. */
  lemma BinaryMatch<F>(lop: BinOp, l1: LispExpr<F>, l2: LispExpr<F>, rop: BinOp, r1: LispExpr<F>, r2: LispExpr<F>)
    ensures Matches(Binary(lop, l1, l2), Binary(rop, r1, r2)) <==>
      lop == rop && exists sigma :: Instance(l1, r1, sigma) && Instance(l2, r2, sigma)
  {
    var l, r := Binary(lop, l1, l2), Binary(rop, r1, r2);
    MatchesIffInstance(l, r);
    if Matches(l, r) {
      var sigma :| Instance(l, r, sigma);
      assert Instance(l1, r1, sigma) && Instance(l2, r2, sigma);
    }
    if lop == rop && exists sigma :: Instance(l1, r1, sigma) && Instance(l2, r2, sigma) {
      var sigma :| Instance(l1, r1, sigma) && Instance(l2, r2, sigma);
      assert Instance(l, r, sigma);
    }
  }

  /** `Unary` matches `Unary` iff the operators agree and the operands match. */
  lemma UnaryMatch<F>(lop: UnOp, l1: LispExpr<F>, rop: UnOp, r1: LispExpr<F>)
    ensures Matches(Unary(lop, l1), Unary(rop, r1)) <==> lop == rop && Matches(l1, r1)
  {
  }

  /** `Fun` matches `Fun` only with the same name, the same arity and pairwise matching arguments. */
  lemma FunMatch<F>(lf: string, lp: seq<LispExpr<F>>, rf: string, rp: seq<LispExpr<F>>)
    ensures Matches(Fun(lf, lp), Fun(rf, rp)) ==>
      lf == rf && |lp| == |rp| && forall i | 0 <= i < |lp| :: Matches(lp[i], rp[i])
  {
    if Matches(Fun(lf, lp), Fun(rf, rp)) {
      MatchesIffInstance(Fun(lf, lp), Fun(rf, rp));
      var sigma :| Instance(Fun(lf, lp), Fun(rf, rp), sigma);
      forall i | 0 <= i < |lp| ensures Matches(lp[i], rp[i]) {
        HolesAllContains(rp, i);
        assert Instance(lp[i], rp[i], sigma);
        MatchesIffInstance(lp[i], rp[i]);
      }
    }
  }

  /** A hole matches exactly the leaves: a concrete ident or a literal, never a composite. */
  lemma HoleMatchesLeaves<F>(l: LispExpr<F>, h: nat)
    ensures Matches(l, Ident(h)) <==> l.Ident? || l.Lit?
  {
  }

  /** Literal against literal is exact equality; a pattern literal never matches a concrete ident. */
  lemma LiteralMatch<F>(a: F, b: F, i: nat)
    ensures Matches(Lit(a), Lit(b)) <==> a == b
    ensures !Matches(Ident(i), Lit(b))
  {
  }

  /** Any other pairing of shapes does not match. */
  lemma ShapeMismatch<F>(l: LispExpr<F>, r: LispExpr<F>)
    requires !(l.Binary? && r.Binary?) && !(l.Fun? && r.Fun?) && !(l.Unary? && r.Unary?)
    requires !(l.Lit? && r.Lit?) && !((l.Ident? || l.Lit?) && r.Ident?)
    ensures !Matches(l, r)
  {
  }

  /**
   * Hole consistency: a hole used twice forces the two concrete sub-terms to
   * be the same leaf, so `(+ h0 h0)` matches `a + a` but not `a + b`.
   */
  lemma RepeatedHole<F>(op: BinOp, x: LispExpr<F>, y: LispExpr<F>, h: nat)
    ensures Matches(Binary(op, x, y), Binary(op, Ident(h), Ident(h))) <==> x == y && (x.Ident? || x.Lit?)
  {
    var p := Binary(op, Ident(h), Ident(h));
    MatchSound(Binary(op, x, y), p, map[]);
    if Matches(Binary(op, x, y), p) {
      var sigma := Match(Binary(op, x, y), p, map[]).1;
      assert h in sigma && Subst(p, sigma) == Binary(op, Bound(sigma[h]), Bound(sigma[h]));
    }
    if x == y && (x.Ident? || x.Lit?) {
      var b: Binded<F> := if x.Ident? then BoundIdent(x.id) else BoundLit(x.value);
      MatchComplete(Binary(op, x, y), p, map[], map[h := b]);
    }
  }

  /** The first binding fixes the kind: a hole bound to an ident rejects a literal and vice versa. */
  lemma BindingKindSticks<F>(op: BinOp, a: nat, v: F, h: nat)
    ensures !Matches(Binary(op, Ident(a), Lit(v)), Binary(op, Ident(h), Ident(h)))
    ensures !Matches(Binary(op, Lit(v), Ident(a)), Binary(op, Ident(h), Ident(h)))
  {
    RepeatedHole(op, Ident(a), Lit(v), h);
    RepeatedHole(op, Lit(v), Ident(a), h);
  }

  /** Distinct holes may bind the same concrete id. */
  lemma DistinctHolesShareIdent<F>(op: BinOp, a: nat, h1: nat, h2: nat)
    requires h1 != h2
    ensures Matches<F>(Binary(op, Ident(a), Ident(a)), Binary(op, Ident(h1), Ident(h2)))
  {
    var sigma: Table<F> := map[h1 := BoundIdent(a), h2 := BoundIdent(a)];
    MatchComplete<F>(Binary(op, Ident(a), Ident(a)), Binary(op, Ident(h1), Ident(h2)), map[], sigma);
  }

  lemma {:induction false} SubstIdentity<F>(e: LispExpr<F>, sigma: Table<F>)
    requires forall h | h in Holes(e) :: h in sigma && sigma[h] == BoundIdent(h)
    ensures Subst(e, sigma) == e
    decreases e
  {
    match e
    case Binary(_, a, b) => SubstIdentity(a, sigma); SubstIdentity(b, sigma);
    case Fun(_, ps) => SubstAllIdentity(ps, sigma);
    case Ident(_) =>
    case Lit(_) =>
    case Unary(_, x) => SubstIdentity(x, sigma);
  }

  lemma {:induction false} SubstAllIdentity<F>(ps: seq<LispExpr<F>>, sigma: Table<F>)
    requires forall h | h in HolesAll(ps) :: h in sigma && sigma[h] == BoundIdent(h)
    ensures SubstAll(ps, sigma) == ps
    decreases ps
  {
    if ps != [] {
      SubstIdentity(ps[0], sigma);
      SubstAllIdentity(ps[1..], sigma);
      assert ps == [ps[0]] + ps[1..];
    }
  }

  /** Matching is reflexive: every tree matches itself, each hole binding to its own id. */
  lemma MatchesReflexive<F>(e: LispExpr<F>)
    ensures Matches(e, e)
  {
    var sigma: Table<F> := map h | h in Holes(e) :: BoundIdent(h);
    SubstIdentity(e, sigma);
    MatchComplete(e, e, map[], sigma);
  }

  /** The pattern `(* (+ (/ h0 h1) h2) h1)` of the fixture rule. */
  function FixturePattern<F>(): LispExpr<F>
  {
    Binary(Mul, Binary(Add, Binary(Div, Ident(0), Ident(1)), Ident(2)), Ident(1))
  }

  function FixtureShape<F>(x: LispExpr<F>, y: LispExpr<F>, z: LispExpr<F>, w: LispExpr<F>): LispExpr<F>
  {
    Binary(Mul, Binary(Add, Binary(Div, x, y), z), w)
  }

  /** Substituting into the fixture pattern puts the binding of hole 1 in two places. */
  lemma FixtureSubst<F>(sigma: Table<F>)
    requires 0 in sigma && 1 in sigma && 2 in sigma
    ensures Instance(FixtureShape(Bound(sigma[0]), Bound(sigma[1]), Bound(sigma[2]), Bound(sigma[1])), FixturePattern<F>(), sigma)
  {
    var d := Binary(Div, Ident(0), Ident(1));
    assert Subst(d, sigma) == Binary(Div, Bound(sigma[0]), Bound(sigma[1]));
    var s := Binary(Add, d, Ident(2));
    assert Subst(s, sigma) == Binary(Add, Subst(d, sigma), Bound(sigma[2]));
    assert Holes(FixturePattern<F>()) == {0, 1, 2};
  }

  /**
   * The fixture expressions: `(a/a + a) * a`, `(a/b + a) * b`, `(a/b + c) * b`
   * and `(0./1. + 2.) * 1.` match the rule, `(a/b + c) * a` does not.
   */
  lemma FixtureMatches<F>(a: nat, b: nat, c: nat, zero: F, one: F, two: F)
    requires a != b
    ensures Matches(FixtureShape(Ident(a), Ident(a), Ident(a), Ident(a)), FixturePattern<F>())
    ensures Matches(FixtureShape(Ident(a), Ident(b), Ident(a), Ident(b)), FixturePattern<F>())
    ensures Matches(FixtureShape(Ident(a), Ident(b), Ident(c), Ident(b)), FixturePattern<F>())
    ensures Matches(FixtureShape(Lit(zero), Lit(one), Lit(two), Lit(one)), FixturePattern<F>())
    ensures !Matches(FixtureShape(Ident(a), Ident(b), Ident(c), Ident(a)), FixturePattern<F>())
  {
    var p := FixturePattern<F>();
    var s1: Table<F> := map[0 := BoundIdent(a), 1 := BoundIdent(a), 2 := BoundIdent(a)];
    FixtureSubst(s1);
    MatchComplete(FixtureShape(Ident(a), Ident(a), Ident(a), Ident(a)), p, map[], s1);
    var s2: Table<F> := map[0 := BoundIdent(a), 1 := BoundIdent(b), 2 := BoundIdent(a)];
    FixtureSubst(s2);
    MatchComplete(FixtureShape(Ident(a), Ident(b), Ident(a), Ident(b)), p, map[], s2);
    var s3: Table<F> := map[0 := BoundIdent(a), 1 := BoundIdent(b), 2 := BoundIdent(c)];
    FixtureSubst(s3);
    MatchComplete(FixtureShape(Ident(a), Ident(b), Ident(c), Ident(b)), p, map[], s3);
    var s4: Table<F> := map[0 := BoundLit(zero), 1 := BoundLit(one), 2 := BoundLit(two)];
    FixtureSubst(s4);
    MatchComplete(FixtureShape(Lit(zero), Lit(one), Lit(two), Lit(one)), p, map[], s4);
    var bad := FixtureShape(Ident(a), Ident(b), Ident(c), Ident(a));
    MatchSound(bad, p, map[]);
    if Matches(bad, p) {
      var sigma := Match(bad, p, map[]).1;
      FixtureSubst(sigma);
    }
  }

  // ---------------------------------------------------------------------------
  // The matcher as the source runs it: the table is updated in place.

  /** The hole table that `form_of_impl` threads by `&mut`. */
  class Matcher<F(==)> {
    var ids: Table<F>

    constructor ()
      ensures ids == map[]
    {
      ids := map[];
    }

    /** `form_of_impl(lhs, rhs, &mut ids)`. */
    method FormOfImpl(lhs: LispExpr<F>, rhs: LispExpr<F>) returns (b: bool)
      modifies this
      ensures (b, ids) == Match(lhs, rhs, old(ids))
      decreases lhs
    {
      match lhs
      case Binary(lop, l1, l2) =>
        if rhs.Binary? && lop == rhs.op {
          b := FormOfImpl(l1, rhs.lhs);
          if b {
            b := FormOfImpl(l2, rhs.rhs);
          }
        } else {
          b := false;
        }
      case Fun(lfun, lp) =>
        if rhs.Fun? && lfun == rhs.name && |lp| == |rhs.params| {
          var rp := rhs.params;
          b := true;
          var i := 0;
          while i < |lp|
            invariant 0 <= i <= |lp|
            invariant MatchAll(lp[i..], rp[i..], ids) == MatchAll(lp, rp, old(ids))
          {
            assert lp[i..][1..] == lp[i + 1..] && rp[i..][1..] == rp[i + 1..];
            var ok := FormOfImpl(lp[i], rp[i]);
            if !ok {
              b := false;
              break;
            }
            i := i + 1;
          }
        } else {
          b := false;
        }
      case Ident(lid) =>
        if rhs.Ident? {
          var rid := rhs.id;
          if rid in ids {
            match ids[rid]
            case BoundIdent(bound) => b := bound == lid;
            case BoundLit(_) => b := false;
          } else {
            ids := ids[rid := BoundIdent(lid)];
            b := true;
          }
        } else {
          b := false;
        }
      case Lit(l) =>
        if rhs.Lit? {
          b := l == rhs.value;
        } else if rhs.Ident? {
          var rid := rhs.id;
          if rid in ids {
            match ids[rid]
            case BoundLit(bound) => b := bound == l;
            case BoundIdent(_) => b := false;
          } else {
            ids := ids[rid := BoundLit(l)];
            b := true;
          }
        } else {
          b := false;
        }
      case Unary(lop, l1) =>
        if rhs.Unary? && lop == rhs.uop {
          b := FormOfImpl(l1, rhs.operand);
        } else {
          b := false;
        }
    }
  }

  /** `form_of`: a fresh table per call, so the verdict depends on the two trees only. */
  method FormOf<F(==)>(lhs: LispExpr<F>, rhs: LispExpr<F>) returns (b: bool)
    ensures b == Matches(lhs, rhs)
  {
    var m := new Matcher<F>();
    b := m.FormOfImpl(lhs, rhs);
  }
}
