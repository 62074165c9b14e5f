/** When two left operands give the same result: the exact condition, operator by operator. */

module Operands {
  import opened Words
  import opened ExprProof
  import S = Syntax
  import Sem = Semantics

  predicate Bit(x: nat, i: nat) {
    if i == 0 then x % 2 == 1 else Bit(x / 2, i - 1)
  }

  /** Left operands a and c are interchangeable before right operand v. */
  ghost predicate Agree(op: S.BinOp, a: Word, c: Word, v: Word) {
    match op
    case Add => a == c
    case Sub => a == c
    case Mul => (a - c) * v % TWO64 == 0
    case And => SameWhere(a, c, v, true)
    case Or => SameWhere(a, c, v, false)
    case Shl => a % Pow2(64 - v % 64) == c % Pow2(64 - v % 64)
    case Shr => a / Pow2(v % 64) == c / Pow2(v % 64)
    case Lt => Signed(a) < Signed(v) <==> Signed(c) < Signed(v)
    case Le => Signed(a) <= Signed(v) <==> Signed(c) <= Signed(v)
    case Eq => a == v <==> c == v
    case Ne => a == v <==> c == v
  }

  // ---- Sums ----

  lemma ModDiff(x: int, y: int)
    ensures Wrap(x) == Wrap(y) <==> (x - y) % TWO64 == 0
  {
    var p, q := x / TWO64, y / TWO64;
    assert x - y == (p - q) * TWO64 + (Wrap(x) - Wrap(y));
  }

  lemma SumIff(a: Word, c: Word, d: int)
    ensures Wrap(Signed(a) + d) == Wrap(Signed(c) + d) <==> a == c
  {
    ModDiff(Signed(a) + d, Signed(c) + d);
  }

  // ---- Bits ----

  lemma {:induction false} NoBit(i: nat)
    ensures !Bit(0, i)
  {
    if i > 0 {
      NoBit(i - 1);
    }
  }

  lemma AndUnfold(a: nat, b: nat)
    ensures BitAnd(a, b) == (a % 2) * (b % 2) + 2 * BitAnd(a / 2, b / 2)
  {
  }

  lemma OrUnfold(a: nat, b: nat)
    ensures BitOr(a, b) == (if a % 2 == 1 || b % 2 == 1 then 1 else 0) + 2 * BitOr(a / 2, b / 2)
  {
  }

  lemma BitFirst(x: nat)
    ensures Bit(x, 0) <==> x % 2 == 1
  {
  }

  lemma BitNext(x: nat, i: nat)
    ensures Bit(x, i + 1) == Bit(x / 2, i)
  {
  }

  /** a and c have the same bits where v has bits of the given kind. */
  ghost predicate SameWhere(a: nat, c: nat, v: nat, kind: bool) {
    forall i: nat :: Bit(v, i) == kind ==> (Bit(a, i) <==> Bit(c, i))
  }

  lemma SameSplit(a: nat, c: nat, v: nat, kind: bool)
    ensures SameWhere(a, c, v, kind) <==>
      ((v % 2 == 1) == kind ==> a % 2 == c % 2) && SameWhere(a / 2, c / 2, v / 2, kind)
  {
    hide Bit;
    BitFirst(a);
    BitFirst(c);
    BitFirst(v);
    if SameWhere(a, c, v, kind) {
      assert Bit(v, 0) == kind ==> (Bit(a, 0) <==> Bit(c, 0));
      forall i: nat | Bit(v / 2, i) == kind
        ensures Bit(a / 2, i) <==> Bit(c / 2, i)
      {
        BitNext(a, i);
        BitNext(c, i);
        BitNext(v, i);
      }
    } else {
      var i: nat :| Bit(v, i) == kind && Bit(a, i) != Bit(c, i);
      if i > 0 {
        BitNext(a, i - 1);
        BitNext(c, i - 1);
        BitNext(v, i - 1);
      }
    }
  }

  lemma {:induction false} AndIff(a: nat, c: nat, v: nat)
    ensures BitAnd(a, v) == BitAnd(c, v) <==> SameWhere(a, c, v, true)
    decreases v
  {
    hide BitAnd, Bit, SameWhere;
    if v == 0 {
      AndZero(a, c);
    } else {
      AndUnfold(a, v);
      AndUnfold(c, v);
      AndIff(a / 2, c / 2, v / 2);
      SameSplit(a, c, v, true);
    }
  }

  lemma AndZero(a: nat, c: nat)
    ensures BitAnd(a, 0) == BitAnd(c, 0) && SameWhere(a, c, 0, true)
  {
    hide Bit;
    forall i: nat ensures !Bit(0, i) {
      NoBit(i);
    }
  }

  lemma {:induction false} OrIff(a: nat, c: nat, v: nat)
    ensures BitOr(a, v) == BitOr(c, v) <==> SameWhere(a, c, v, false)
    decreases a + c
  {
    hide BitOr, Bit;
    if a + c > 0 {
      OrUnfold(a, v);
      OrUnfold(c, v);
      OrIff(a / 2, c / 2, v / 2);
      SameSplit(a, c, v, false);
    }
  }

  lemma {:induction false} OrBound(a: nat, b: nat, n: nat)
    requires a < Pow2(n) && b < Pow2(n)
    ensures BitOr(a, b) < Pow2(n)
    decreases n
  {
    if n > 0 {
      OrUnfold(a, b);
      OrBound(a / 2, b / 2, n - 1);
    }
  }

  lemma Pow64()
    ensures Pow2(64) == TWO64
  {
    assert Pow2(8) == 0x100 && Pow2(16) == 0x1_0000 && Pow2(24) == 0x100_0000 && Pow2(32) == 0x1_0000_0000;
    assert Pow2(40) == 0x100_0000_0000 && Pow2(48) == 0x1_0000_0000_0000 && Pow2(56) == 0x100_0000_0000_0000;
  }

  // ---- Shifts ----

  lemma {:induction false} Pow2Add(m: nat, n: nat)
    ensures Pow2(m + n) == Pow2(m) * Pow2(n)
  {
    if m > 0 {
      Pow2Add(m - 1, n);
      assert Pow2(m) * Pow2(n) == 2 * (Pow2(m - 1) * Pow2(n));
    }
  }

  lemma Divides(x: int, p: nat, q: nat)
    requires p > 0 && q > 0
    ensures p * q > 0
    ensures x * p % (p * q) == 0 <==> x % q == 0
  {
    if x % q == 0 {
      var t := x / q;
      assert x * p == t * (p * q);
      Multiple(t, p * q);
    }
    if x * p % (p * q) == 0 {
      var t := x * p / (p * q);
      assert x * p == t * (p * q) == (t * q) * p;
      Cancel(x, t * q, p);
      Multiple(t, q);
    }
  }

  lemma Multiple(t: int, m: nat)
    requires m > 0
    ensures t * m % m == 0
  {
    var q, r := t * m / m, t * m % m;
    assert r == (t - q) * m;
    Small(r, t - q, m);
  }

  lemma Cancel(x: int, y: int, p: nat)
    requires p > 0 && x * p == y * p
    ensures x == y
  {
    assert (x - y) * p == 0;
  }

  lemma SameModulo(x: nat, y: nat, q: nat)
    requires q > 0
    ensures x % q == y % q <==> (x - y) % q == 0
  {
    var s, t := x / q, y / q;
    assert x == s * q + x % q && y == t * q + y % q;
    assert x - y == (s - t) * q + (x % q - y % q);
    if x % q == y % q {
      Multiple(s - t, q);
    }
    if (x - y) % q == 0 {
      var u := (x - y) / q;
      assert x % q - y % q == (u - (s - t)) * q;
      Small(x % q - y % q, u - (s - t), q);
    }
  }

  lemma Small(d: int, k: int, q: int)
    requires -q < d < q && d == k * q
    ensures d == 0
  {
    AtLeast(k, q);
    AtLeast(-k, q);
  }

  lemma AtLeast(k: int, q: int)
    ensures k >= 1 && q >= 0 ==> k * q >= q
  {
  }

  lemma ShlIff(a: Word, c: Word, k: nat)
    requires k < 64
    ensures Wrap(a * Pow2(k)) == Wrap(c * Pow2(k)) <==> a % Pow2(64 - k) == c % Pow2(64 - k)
  {
    var p, q := Pow2(k), Pow2(64 - k);
    Pow2Add(k, 64 - k);
    Pow64();
    hide Pow2;
    ModDiff(a * p, c * p);
    assert a * p - c * p == (a - c) * p;
    Divides(a - c, p, q);
    SameModulo(a, c, q);
  }

  lemma ShrIff(a: Word, c: Word, k: nat)
    ensures Wrap(a / Pow2(k)) == Wrap(c / Pow2(k)) <==> a / Pow2(k) == c / Pow2(k)
  {
    hide Pow2;
    QuotientSmall(a, Pow2(k));
    QuotientSmall(c, Pow2(k));
  }

  lemma QuotientSmall(a: Word, p: nat)
    requires p >= 1
    ensures 0 <= a / p <= a
  {
  }

  // ---- The condition is exact ----

  lemma MulIff(a: Word, c: Word, v: Word)
    ensures Wrap(Signed(c) * Signed(v)) == Wrap(Signed(a) * Signed(v)) <==> (a - c) * v % TWO64 == 0
  {
    hide Wrap, Signed;
    MulAgrees(a, v);
    MulAgrees(c, v);
    ModDiff(a * v, c * v);
    assert a * v - c * v == (a - c) * v;
  }

  lemma OrWraps(a: Word, v: Word)
    ensures Wrap(BitOr(a, v)) == BitOr(a, v)
  {
    Pow64();
    OrBound(a, v, 64);
  }

  /** Two left operands give the same result exactly when they agree. */
  lemma AgreeIff(op: S.BinOp, a: Word, c: Word, v: Word)
    ensures Sem.BinVal(op, c, v) == Sem.BinVal(op, a, v) <==> Agree(op, a, c, v)
  {
    hide BitAnd, BitOr, Pow2, Bit;
    match op
    case Add => SumIff(a, c, Signed(v));
    case Sub => SumIff(a, c, -Signed(v));
    case Mul => MulIff(a, c, v);
    case And => AndIff(a, c, v);
    case Or =>
      OrWraps(a, v);
      OrWraps(c, v);
      OrIff(a, c, v);
    case Shl => ShlIff(a, c, v % 64);
    case Shr => ShrIff(a, c, v % 64);
    case _ =>
  }

  // ---- A left operand replaced by the right one ----

  /** For a direct call the replaced operand is the call's own value. */
  predicate AgreeWithRight(op: S.BinOp, a: Word, v: Word) {
    match op
    case Mul => (a - v) * v % TWO64 == 0
    case And => BitAnd(a, v) == v
    case Or => BitOr(a, v) == v
    case Shl => a % Pow2(64 - v % 64) == v % Pow2(64 - v % 64)
    case Shr => a / Pow2(v % 64) == v / Pow2(v % 64)
    case Lt => Signed(a) >= Signed(v)
    case Le => Signed(a) <= Signed(v)
    case _ => a == v
  }

  lemma {:induction false} AndSelf(v: nat)
    ensures BitAnd(v, v) == v
  {
    if v > 0 {
      AndSelf(v / 2);
      AndUnfold(v, v);
    }
  }

  lemma {:induction false} OrSelf(v: nat)
    ensures BitOr(v, v) == v
  {
    if v > 0 {
      OrSelf(v / 2);
      OrUnfold(v, v);
    }
  }

  lemma DirectCallAgrees(op: S.BinOp, a: Word, v: Word)
    ensures Agree(op, a, v, v) <==> AgreeWithRight(op, a, v)
  {
    hide BitAnd, BitOr, Pow2, SameWhere;
    if op.And? {
      AndSelf(v);
      AndIff(a, v, v);
    } else if op.Or? {
      OrSelf(v);
      OrIff(a, v, v);
    }
  }
}
