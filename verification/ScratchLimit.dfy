/** Three scratch registers are what the expression scheme has: a fourth level reuses a live one. */

module ScratchLimit {
  import opened Words
  import opened Machine
  import opened Code
  import opened ExprProof
  import opened Operands
  import S = Syntax
  import Sem = Semantics

  /** Code that needs one scratch register changes no other. */
  lemma OneScratch(t: Text, entries: Entries, base: int, e: S.Expr, dest: Reg, frame: seq<S.VarId>, s: State) returns (n: nat)
    requires S.CallFree(e) && ExprOk(e, frame) && S.ScratchRegs(e) == 1 && dest < FP
    requires Placed(t, entries, base, ExprCode(e, dest, frame)) && s.pc == base
    ensures Computes(t, s, n, base + |ExprCode(e, dest, frame)|, dest, Source(e, frame, s))
    ensures Run(t, s, n).Next? ==> Only(s, Run(t, s, n).s, dest)
  {
    hide Run, Placed, Execute, Memory.Load, Memory.Store;
    match e {
      case IntLit(_) => n := LeafRuns(t, entries, base, e, dest, frame, s);
      case Var(_) => n := LeafRuns(t, entries, base, e, dest, frame, s);
      case AddrOf(_) => n := LeafRuns(t, entries, base, e, dest, frame, s);
      case Deref(p) =>
        var cp := ExprCode(p, dest, frame);
        PlacedSplit(t, entries, base, cp, [I(Ld(dest, dest, 0))]);
        n := OneScratch(t, entries, base, p, dest, frame, s);
        if Source(p, frame, s).Value? {
          LoadRuns(t, entries, base + |cp|, dest, dest, 0, s, n);
          n := n + 1;
        }
      case Assign(id, v) =>
        var cv, off := ExprCode(v, dest, frame), Offset(frame, id);
        PlacedSplit(t, entries, base, cv, [I(St(dest, FP, off))]);
        n := OneScratch(t, entries, base, v, dest, frame, s);
        if Source(v, frame, s).Value? {
          SaveRuns(t, entries, base + |cv|, dest, FP, off, s, n);
          n := n + 1;
        }
    }
  }

  /** Any operations nested in the right operand three deep, over operands that fit what is left: the
      whole needs four scratch registers. */
  predicate FourLevels(e: S.Expr, frame: seq<S.VarId>) {
    && e.BinOp? && e.rhs.BinOp? && e.rhs.rhs.BinOp?
    && Simple(e, 4, frame) && Simple(e.rhs, 3, frame) && Simple(e.rhs.rhs, 2, frame)
    && Simple(e.lhs, 3, frame) && Simple(e.rhs.lhs, 2, frame) && Simple(e.rhs.rhs.lhs, 1, frame) && Simple(e.rhs.rhs.rhs, 1, frame)
  }

  /** A call-free expression of defined variables and representable literals, of at most that depth. */
  predicate Simple(e: S.Expr, scratch: nat, frame: seq<S.VarId>) {
    S.CallFree(e) && ExprOk(e, frame) && S.ScratchRegs(e) <= scratch
  }

  /** The four operands' values, each evaluated in the memory the one before it left. */
  ghost predicate Operand(e: S.Expr, frame: seq<S.VarId>, fp: Word, mem: Memory.Mem, v: Word, mem': Memory.Mem) {
    S.CallFree(e) && Sem.Defined(e, frame) && Sem.EvalShared(e, frame, fp, mem) == Sem.Value(v, mem')
  }

  datatype Values = Values(a: Word, b: Word, c: Word, d: Word, afterA: Memory.Mem, afterB: Memory.Mem, afterC: Memory.Mem, after: Memory.Mem)

  ghost predicate Evaluates(e: S.Expr, frame: seq<S.VarId>, s: State, v: Values)
    requires FourLevels(e, frame)
  {
    var fp := s.regs[FP];
    && Operand(e.lhs, frame, fp, s.mem, v.a, v.afterA) && Operand(e.rhs.lhs, frame, fp, v.afterA, v.b, v.afterB)
    && Operand(e.rhs.rhs.lhs, frame, fp, v.afterB, v.c, v.afterC) && Operand(e.rhs.rhs.rhs, frame, fp, v.afterC, v.d, v.after)
  }

  /** What the expression means. */
  lemma FourMeans(e: S.Expr, frame: seq<S.VarId>, s: State) returns (v: Values)
    requires FourLevels(e, frame) && Source(e, frame, s).Value?
    ensures Evaluates(e, frame, s, v)
    ensures Source(e, frame, s) == Sem.Value(
      Sem.BinVal(e.op, v.a, Sem.BinVal(e.rhs.op, v.b, Sem.BinVal(e.rhs.rhs.op, v.c, v.d))), v.after)
  {
    OkIsDefined(e, frame);
    var fp := s.regs[FP];
    var e2, e3 := e.rhs, e.rhs.rhs;
    OkIsDefined(e2, frame);
    OkIsDefined(e3, frame);
    hide Sem.EvalShared, Sem.BinVal, Sem.Defined;
    Sem.SharedSteps(e, e.lhs, e2, frame, fp, s.mem);
    var ra := Sem.EvalShared(e.lhs, frame, fp, s.mem);
    Sem.SharedSteps(e2, e2.lhs, e3, frame, fp, ra.mem);
    var rb := Sem.EvalShared(e2.lhs, frame, fp, ra.mem);
    Sem.SharedSteps(e3, e3.lhs, e3.rhs, frame, fp, rb.mem);
    var rc := Sem.EvalShared(e3.lhs, frame, fp, rb.mem);
    var rd := Sem.EvalShared(e3.rhs, frame, fp, rc.mem);
    v := Values(ra.v, rb.v, rc.v, rd.v, ra.mem, rb.mem, rc.mem, rd.mem);
  }

  lemma FourDeep(e: S.Expr, frame: seq<S.VarId>)
    requires FourLevels(e, frame)
    ensures S.ScratchRegs(e) == 4
  {
    hide ExprOk, S.CallFree;
    var e2, e3 := e.rhs, e.rhs.rhs;
    assert S.ScratchRegs(e3) == 2;
    assert S.ScratchRegs(e2) == 3;
  }

  lemma FourCode(e: S.Expr, frame: seq<S.VarId>)
    requires FourLevels(e, frame)
    ensures S.ScratchRegs(e) == 4
    ensures var e2, e3 := e.rhs, e.rhs.rhs;
      ExprCode(e, R4, frame) == ExprCode(e.lhs, R4, frame) + (ExprCode(e2.lhs, R5, frame) + (ExprCode(e3.lhs, R6, frame)
        + (ExprCode(e3.rhs, R5, frame) + (OpCode(e3.op, R6, R5) + (OpCode(e2.op, R5, R6) + OpCode(e.op, R4, R5))))))
  {
    hide ExprCode, OpCode, ExprOk, S.CallFree, S.ScratchRegs;
    var e2, e3 := e.rhs, e.rhs.rhs;
    FourDeep(e, frame);
    BinCode(e, R4, frame);
    BinCode(e2, R5, frame);
    BinCode(e3, R6, frame);
  }

  /** The four operands in turn: the last one's code overwrites the register that holds the second. */
  lemma OperandsRun(t: Text, entries: Entries, base: int, e: S.Expr, frame: seq<S.VarId>, s: State, v: Values) returns (n: nat)
    requires FourLevels(e, frame) && Evaluates(e, frame, s, v) && s.pc == base
    requires var c1, c2, c3, c4 := ExprCode(e.lhs, R4, frame), ExprCode(e.rhs.lhs, R5, frame), ExprCode(e.rhs.rhs.lhs, R6, frame), ExprCode(e.rhs.rhs.rhs, R5, frame);
      && Placed(t, entries, base, c1) && Placed(t, entries, base + |c1|, c2)
      && Placed(t, entries, base + |c1| + |c2|, c3) && Placed(t, entries, base + |c1| + |c2| + |c3|, c4)
    ensures var o := Run(t, s, n);
      && o.Next? && o.s.mem == v.after && o.s.regs[R4] == v.a && o.s.regs[R6] == v.c && o.s.regs[R5] == v.d
      && o.s.pc == base + |ExprCode(e.lhs, R4, frame)| + |ExprCode(e.rhs.lhs, R5, frame)| + |ExprCode(e.rhs.rhs.lhs, R6, frame)|
                        + |ExprCode(e.rhs.rhs.rhs, R5, frame)|
  {
    hide Run, Placed, ExprCode, Sem.EvalShared;
    var c1, c2, c3 := ExprCode(e.lhs, R4, frame), ExprCode(e.rhs.lhs, R5, frame), ExprCode(e.rhs.rhs.lhs, R6, frame);
    n := ExprRuns(t, entries, base, e.lhs, R4, frame, s);
    var m := ExprRuns(t, entries, base + |c1|, e.rhs.lhs, R5, frame, Run(t, s, n).s);
    RunThen(t, s, n, m);
    n := n + m;
    m := ExprRuns(t, entries, base + |c1| + |c2|, e.rhs.rhs.lhs, R6, frame, Run(t, s, n).s);
    RunThen(t, s, n, m);
    n := n + m;
    m := OneScratch(t, entries, base + |c1| + |c2| + |c3|, e.rhs.rhs.rhs, R5, frame, Run(t, s, n).s);
    RunThen(t, s, n, m);
    n := n + m;
  }

  /** With four levels what the compiler would emit computes a op1 (d op2 (c op3 d)), where the source
      means a op1 (b op2 (c op3 d)): right whenever op2 cannot tell b from d next to c op3 d, and for an
      outer sum or difference exactly then. */
  lemma FourthScratchClobbers(t: Text, entries: Entries, base: int, e: S.Expr, frame: seq<S.VarId>, s: State) returns (n: nat, v: Values)
    requires FourLevels(e, frame) && s.pc == base && Placed(t, entries, base, ExprCode(e, R4, frame))
    requires Source(e, frame, s).Value?
    ensures S.ScratchRegs(e) == 4 && Evaluates(e, frame, s, v)
    ensures var inner := Sem.BinVal(e.rhs.rhs.op, v.c, v.d);
      && Source(e, frame, s) == Sem.Value(Sem.BinVal(e.op, v.a, Sem.BinVal(e.rhs.op, v.b, inner)), v.after)
      && Run(t, s, n).Next? && Run(t, s, n).s.mem == v.after
      && Run(t, s, n).s.regs[R4] == Sem.BinVal(e.op, v.a, Sem.BinVal(e.rhs.op, v.d, inner))
      && (Agree(e.rhs.op, v.b, v.d, inner) ==> Run(t, s, n).s.regs[R4] == Source(e, frame, s).v)
      && (e.op.Add? || e.op.Sub? ==> (Run(t, s, n).s.regs[R4] == Source(e, frame, s).v <==> Agree(e.rhs.op, v.b, v.d, inner)))
  {
    hide Run, Placed, ExprCode, OpCode, Sem.BinVal, Agree, Evaluates, Source, ExprOk, S.ScratchRegs;
    var e2, e3 := e.rhs, e.rhs.rhs;
    FourCode(e, frame);
    v := FourMeans(e, frame, s);
    var c1, c2, c3, c4 := ExprCode(e.lhs, R4, frame), ExprCode(e2.lhs, R5, frame), ExprCode(e3.lhs, R6, frame), ExprCode(e3.rhs, R5, frame);
    var o3, o2, o1 := OpCode(e3.op, R6, R5), OpCode(e2.op, R5, R6), OpCode(e.op, R4, R5);
    PlacedSplit(t, entries, base, c1, c2 + (c3 + (c4 + (o3 + (o2 + o1)))));
    PlacedSplit(t, entries, base + |c1|, c2, c3 + (c4 + (o3 + (o2 + o1))));
    PlacedSplit(t, entries, base + |c1| + |c2|, c3, c4 + (o3 + (o2 + o1)));
    var p := base + |c1| + |c2| + |c3|;
    PlacedSplit(t, entries, p, c4, o3 + (o2 + o1));
    p := p + |c4|;
    PlacedSplit(t, entries, p, o3, o2 + o1);
    PlacedSplit(t, entries, p + |o3|, o2, o1);
    n := OperandsRun(t, entries, base, e, frame, s, v);
    var m := OpRuns(t, entries, p, e3.op, R6, Run(t, s, n).s);
    RunThen(t, s, n, m);
    n := n + m;
    m := OpRuns(t, entries, p + |o3|, e2.op, R5, Run(t, s, n).s);
    RunThen(t, s, n, m);
    n := n + m;
    m := OpRuns(t, entries, p + |o3| + |o2|, e.op, R4, Run(t, s, n).s);
    RunThen(t, s, n, m);
    n := n + m;
    var inner := Sem.BinVal(e3.op, v.c, v.d);
    AgreeIff(e2.op, v.b, v.d, inner);
    if e.op.Add? || e.op.Sub? {
      SumTellsApart(e.op, v.a, Sem.BinVal(e2.op, v.b, inner), Sem.BinVal(e2.op, v.d, inner));
    }
  }

  lemma SumTellsApart(op: S.BinOp, a: Word, x: Word, y: Word)
    requires op.Add? || op.Sub?
    ensures Sem.BinVal(op, a, x) == Sem.BinVal(op, a, y) <==> x == y
  {
    SumAgrees(a, x);
    SumAgrees(a, y);
    hide Wrap, Signed;
    SumIs(a, x);
    SumIs(a, y);
  }

  lemma SumIs(a: Word, x: Word)
    ensures Wrap(a + x) == if a + x < TWO64 then a + x else a + x - TWO64
    ensures Wrap(a - x) == if a >= x then a - x else a - x + TWO64
  {
  }
}
