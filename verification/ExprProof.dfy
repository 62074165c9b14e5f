/** Running the code of a call-free expression computes its value, with any pointers at all. */

module ExprProof {
  import opened Words
  import opened Memory
  import opened Machine
  import opened Code
  import S = Syntax
  import Sem = Semantics

  type Entries = map<string, nat>

  predicate Matches(entries: Entries, item: Item, pos: int, instr: Instr) {
    match item
    case I(i) => instr == i
    case CallTo(name) =>
      name in entries && -TWO21 <= entries[name] - pos < TWO21 && instr == Instr.Call(entries[name] - pos)
  }

  /** The items stand in the text from word `base` on, calls resolved. */
  ghost predicate Placed(t: Text, entries: Entries, base: int, items: Items) {
    && 0 <= base && base + |items| <= |t.code|
    && forall i :: 0 <= i < |items| ==> Matches(entries, items[i], base + i, t.code[base + i])
  }

  lemma PlacedSplit(t: Text, entries: Entries, base: int, a: Items, b: Items)
    requires Placed(t, entries, base, a + b)
    ensures Placed(t, entries, base, a)
    ensures Placed(t, entries, base + |a|, b)
  {
    forall i | 0 <= i < |a| ensures Matches(entries, a[i], base + i, t.code[base + i]) {
      assert (a + b)[i] == a[i];
    }
    forall i | 0 <= i < |b| ensures Matches(entries, b[i], base + |a| + i, t.code[base + |a| + i]) {
      assert (a + b)[|a| + i] == b[i];
    }
  }

  /** Scratch registers an expression compiled into `dest` may use, `dest` included. */
  function Available(dest: Reg): nat {
    if dest == R6 then 1 else if dest == R5 then 2 else 3
  }

  predicate Spilled(dest: Reg, r: Reg) {
    r == dest || (dest != R6 && r == R6) || (dest != R6 && dest != R5 && r == R5)
  }

  predicate Untouched(s: State, s': State, dest: Reg) {
    forall r: Reg :: !Spilled(dest, r) ==> s'.regs[r] == s.regs[r]
  }

  /** No register but `dest` has changed. */
  predicate Only(s: State, s': State, dest: Reg) {
    forall r: Reg :: r != dest ==> s'.regs[r] == s.regs[r]
  }

  lemma {:induction false} OkIsDefined(e: S.Expr, frame: seq<S.VarId>)
    requires S.CallFree(e) && ExprOk(e, frame)
    ensures Sem.Defined(e, frame)
  {
    match e {
      case BinOp(_, l, r) => OkIsDefined(l, frame); OkIsDefined(r, frame);
      case Deref(p) => OkIsDefined(p, frame);
      case Assign(_, v) => OkIsDefined(v, frame);
      case DerefAssign(p, v) => OkIsDefined(v, frame); OkIsDefined(p, frame);
      case _ =>
    }
  }

  function Source(e: S.Expr, frame: seq<S.VarId>, s: State): Sem.Shared
    requires S.CallFree(e) && ExprOk(e, frame)
  {
    OkIsDefined(e, frame);
    Sem.EvalShared(e, frame, s.regs[FP], s.mem)
  }

  /** n cycles from s do what the source result r says for an expression whose code ends at `end`. */
  predicate Computes(t: Text, s: State, n: nat, end: int, dest: Reg, r: Sem.Shared) {
    var o := Run(t, s, n);
    match r
    case Fault => o == StepResult.Fault
    case Value(v, mem) =>
      && o.Next?
      && o.s.pc == end && o.s.mem == mem && o.s.retStack == s.retStack
      && o.s.regs[dest] == v
      && Untouched(s, o.s, dest)
  }

  lemma MulAgrees(a: Word, b: Word)
    ensures Wrap(Signed(a) * Signed(b)) == Wrap(a * b)
  {
    var i := if a < TWO63 then 0 else 1;
    var j := if b < TWO63 then 0 else 1;
    assert Signed(a) == a - i * TWO64 && Signed(b) == b - j * TWO64;
    var q := i * j * TWO64 - a * j - b * i;
    assert Signed(a) * Signed(b) == a * b + q * TWO64 by {
      assert (a - i * TWO64) * (b - j * TWO64)
        == a * b - a * (j * TWO64) - (i * TWO64) * b + (i * TWO64) * (j * TWO64);
    }
    ModShift(a * b, q);
  }

  lemma RunThen(t: Text, s: State, n: nat, m: nat)
    requires Run(t, s, n).Next?
    ensures Run(t, s, n + m) == Run(t, Run(t, s, n).s, m)
  {
    RunAdd(t, s, n, m);
  }

  lemma RunOne(t: Text, entries: Entries, base: int, instr: Instr, s: State)
    requires Placed(t, entries, base, [I(instr)]) && s.pc == base
    ensures Run(t, s, 1) == Execute(t, instr, s)
  {
    hide Execute;
    assert Matches(entries, [I(instr)][0], base, t.code[base]);
    assert Step(t, s).Next? ==> Run(t, Step(t, s).s, 0) == Next(Step(t, s).s);
  }

  /** After a finished prefix, one more instruction. */
  lemma RunMore(t: Text, entries: Entries, base: int, instr: Instr, s: State, n: nat)
    requires Placed(t, entries, base, [I(instr)])
    requires Run(t, s, n).Next? && Run(t, s, n).s.pc == base
    ensures Run(t, s, n + 1) == Execute(t, instr, Run(t, s, n).s)
  {
    hide Execute;
    RunOne(t, entries, base, instr, Run(t, s, n).s);
    RunThen(t, s, n, 1);
  }

  predicate IsCompare(op: S.BinOp) {
    op.Lt? || op.Le? || op.Eq? || op.Ne?
  }

  /** Signed source arithmetic and unsigned machine arithmetic agree modulo 2^64. */
  lemma AluAgrees(op: S.BinOp, dest: Reg, tmp: Reg, a: Word, b: Word)
    requires !IsCompare(op)
    ensures |OpCode(op, dest, tmp)| == 1 && OpCode(op, dest, tmp)[0].I?
    ensures var i := OpCode(op, dest, tmp)[0].instr;
      i.Alu? && i.rd == dest && i.rs1 == dest && i.rs2 == tmp && AluEval(i.op, a, b) == Sem.BinVal(op, a, b)
  {
    hide BitAnd, BitOr, Pow2;
    if op.Mul? {
      MulAgrees(a, b);
    } else if op.Add? || op.Sub? {
      SumAgrees(a, b);
    }
  }

  lemma SumAgrees(a: Word, b: Word)
    ensures Wrap(Signed(a) + Signed(b)) == Wrap(a + b)
    ensures Wrap(Signed(a) - Signed(b)) == Wrap(a - b)
  {
    var i := if a < TWO63 then 0 else 1;
    var j := if b < TWO63 then 0 else 1;
    ModShift(a + b, -i - j);
    ModShift(a - b, j - i);
  }

  lemma AluRuns(t: Text, entries: Entries, base: int, op: S.BinOp, dest: Reg, s: State)
    requires Placed(t, entries, base, OpCode(op, dest, Temp(dest)))
    requires s.pc == base && !IsCompare(op)
    ensures |OpCode(op, dest, Temp(dest))| == 1
    ensures var o := Run(t, s, 1);
      && o.Next?
      && o.s == s.(pc := base + 1, flags := o.s.flags,
                   regs := s.regs[dest := Sem.BinVal(op, s.regs[dest], s.regs[Temp(dest)])])
  {
    hide AluFlags, AluEval, Sem.BinVal, OpCode, Run, Placed;
    AluAgrees(op, dest, Temp(dest), s.regs[dest], s.regs[Temp(dest)]);
    var i := OpCode(op, dest, Temp(dest))[0].instr;
    assert OpCode(op, dest, Temp(dest)) == [I(i)];
    RunOne(t, entries, base, i, s);
  }

  lemma CompareRuns(t: Text, entries: Entries, base: int, skip: Cond, dest: Reg, tmp: Reg, s: State) returns (n: nat)
    requires Placed(t, entries, base, CompareCode(skip, dest, tmp)) && s.pc == base
    ensures n >= 1
    ensures var o := Run(t, s, n);
      && o.Next?
      && o.s == s.(pc := base + 4, flags := o.s.flags,
                   regs := s.regs[dest := if Test(SubFlags(s.regs[dest], s.regs[tmp]), skip) then 0 else 1])
  {
    hide SubFlags, Test, Run, Placed;
    var code := CompareCode(skip, dest, tmp);
    var c1, c2, c3 := [I(Movi(dest, 0))], Br(skip, 2), [I(Movi(dest, 1))];
    assert code == [I(Cmp(dest, tmp))] + (c1 + (c2 + c3));
    PlacedSplit(t, entries, base, [I(Cmp(dest, tmp))], c1 + (c2 + c3));
    PlacedSplit(t, entries, base + 1, c1, c2 + c3);
    PlacedSplit(t, entries, base + 2, c2, c3);
    RunOne(t, entries, base, Cmp(dest, tmp), s);
    RunMore(t, entries, base + 1, Movi(dest, 0), s, 1);
    RunMore(t, entries, base + 2, Branch(skip, 2), s, 2);
    n := 3;
    if !Test(SubFlags(s.regs[dest], s.regs[tmp]), skip) {
      RunMore(t, entries, base + 3, Movi(dest, 1), s, 3);
      n := 4;
    }
  }

  /** The operator code, once both operands are in place. */
  lemma OpRuns(t: Text, entries: Entries, base: int, op: S.BinOp, dest: Reg, s: State) returns (n: nat)
    requires Placed(t, entries, base, OpCode(op, dest, Temp(dest)))
    requires s.pc == base
    ensures n >= 1
    ensures var o := Run(t, s, n);
      && o.Next?
      && o.s == s.(pc := base + |OpCode(op, dest, Temp(dest))|, flags := o.s.flags,
                   regs := s.regs[dest := Sem.BinVal(op, s.regs[dest], s.regs[Temp(dest)])])
  {
    hide Step, Run, Placed;
    CompareFlags(s.regs[dest], s.regs[Temp(dest)]);
    match op {
      case Lt => n := CompareRuns(t, entries, base, Ge, dest, Temp(dest), s);
      case Le => n := CompareRuns(t, entries, base, Gt, dest, Temp(dest), s);
      case Eq => n := CompareRuns(t, entries, base, Ne, dest, Temp(dest), s);
      case Ne => n := CompareRuns(t, entries, base, Cond.Eq, dest, Temp(dest), s);
      case _ =>
        AluRuns(t, entries, base, op, dest, s);
        n := 1;
    }
  }

  /** A load after a finished prefix. */
  lemma LoadRuns(t: Text, entries: Entries, base: int, rd: Reg, rs1: Reg, imm: int, s: State, n: nat)
    requires Placed(t, entries, base, [I(Ld(rd, rs1, imm))])
    requires Run(t, s, n).Next? && Run(t, s, n).s.pc == base
    ensures var s1 := Run(t, s, n).s;
      var f := Sem.Fetch(s1.mem, Wrap(s1.regs[rs1] + imm));
      Run(t, s, n + 1) == if f.Fault? then StepResult.Fault else Next(Advance(SetReg(s1, rd, f.v)))
  {
    hide Run, Placed, Load;
    RunMore(t, entries, base, Ld(rd, rs1, imm), s, n);
    WrapAdd(Run(t, s, n).s.regs[rs1], imm);
  }

  lemma SaveRuns(t: Text, entries: Entries, base: int, rd: Reg, rs1: Reg, imm: int, s: State, n: nat)
    requires Placed(t, entries, base, [I(St(rd, rs1, imm))])
    requires Run(t, s, n).Next? && Run(t, s, n).s.pc == base
    ensures var s1 := Run(t, s, n).s;
      var f := Sem.Put(s1.mem, Wrap(s1.regs[rs1] + imm), s1.regs[rd]);
      Run(t, s, n + 1) == if f.Fault? then StepResult.Fault else Next(Advance(s1.(mem := f.mem)))
  {
    hide Run, Placed, Store;
    RunMore(t, entries, base, St(rd, rs1, imm), s, n);
    WrapAdd(Run(t, s, n).s.regs[rs1], imm);
  }

  lemma RunNone(t: Text, s: State)
    ensures Run(t, s, 0) == Next(s)
  {
  }

  lemma ExprRuns(t: Text, entries: Entries, base: int, e: S.Expr, dest: Reg, frame: seq<S.VarId>, s: State) returns (n: nat)
    requires S.CallFree(e) && ExprOk(e, frame)
    requires S.ScratchRegs(e) <= Available(dest) && dest < FP
    requires Placed(t, entries, base, ExprCode(e, dest, frame)) && s.pc == base
    ensures n >= 1
    ensures Computes(t, s, n, base + |ExprCode(e, dest, frame)|, dest, Source(e, frame, s))
    decreases e, 1
  {
    hide Run, Placed, Execute, Load, Store;
    match e {
      case IntLit(_) => n := LeafRuns(t, entries, base, e, dest, frame, s);
      case Var(_) => n := LeafRuns(t, entries, base, e, dest, frame, s);
      case AddrOf(_) => n := LeafRuns(t, entries, base, e, dest, frame, s);
      case BinOp(_, _, _) => n := BinRuns(t, entries, base, e, dest, frame, s);
      case DerefAssign(_, _) => n := StoreRuns(t, entries, base, e, dest, frame, s);
      case Deref(p) =>
        var cp := ExprCode(p, dest, frame);
        PlacedSplit(t, entries, base, cp, [I(Ld(dest, dest, 0))]);
        n := ExprRuns(t, entries, base, p, dest, frame, s);
        if Source(p, frame, s).Value? {
          LoadRuns(t, entries, base + |cp|, dest, dest, 0, s, n);
          n := n + 1;
        }
      case Assign(id, v) =>
        var cv, off := ExprCode(v, dest, frame), Offset(frame, id);
        PlacedSplit(t, entries, base, cv, [I(St(dest, FP, off))]);
        n := ExprRuns(t, entries, base, v, dest, frame, s);
        if Source(v, frame, s).Value? {
          SaveRuns(t, entries, base + |cv|, dest, FP, off, s, n);
          n := n + 1;
        }
    }
  }

  lemma LeafRuns(t: Text, entries: Entries, base: int, e: S.Expr, dest: Reg, frame: seq<S.VarId>, s: State) returns (n: nat)
    requires (e.IntLit? || e.Var? || e.AddrOf?) && ExprOk(e, frame) && dest < FP
    requires Placed(t, entries, base, ExprCode(e, dest, frame)) && s.pc == base
    ensures n == 1
    ensures Computes(t, s, n, base + 1, dest, Source(e, frame, s))
    ensures Run(t, s, 1).Next? ==> Only(s, Run(t, s, 1).s, dest)
  {
    hide Run, Placed;
    n := 1;
    if e.Var? {
      RunNone(t, s);
      LoadRuns(t, entries, base, dest, FP, Offset(frame, e.id), s, 0);
    } else {
      RunOne(t, entries, base, ExprCode(e, dest, frame)[0].instr, s);
      if e.AddrOf? {
        WrapAdd(s.regs[FP], Offset(frame, e.id));
      }
    }
  }

  lemma BinCode(e: S.Expr, dest: Reg, frame: seq<S.VarId>)
    requires e.BinOp? && ExprOk(e, frame)
    ensures ExprCode(e, dest, frame) == ExprCode(e.lhs, dest, frame)
      + (ExprCode(e.rhs, Temp(dest), frame) + OpCode(e.op, dest, Temp(dest)))
  {
  }

  lemma BinRuns(t: Text, entries: Entries, base: int, e: S.Expr, dest: Reg, frame: seq<S.VarId>, s: State) returns (n: nat)
    requires e.BinOp? && S.CallFree(e) && ExprOk(e, frame)
    requires S.ScratchRegs(e) <= Available(dest) && dest < FP
    requires Placed(t, entries, base, ExprCode(e, dest, frame)) && s.pc == base
    ensures n >= 1
    ensures Computes(t, s, n, base + |ExprCode(e, dest, frame)|, dest, Source(e, frame, s))
    decreases e, 0
  {
    hide Step, Run, Placed, Sem.BinVal, OpCode, Sem.Fetch, Sem.Put, Sem.Defined, ExprCode;
    var BinOp(op, l, r) := e;
    var tmp := Temp(dest);
    var cl, cr, co := ExprCode(l, dest, frame), ExprCode(r, tmp, frame), OpCode(op, dest, tmp);
    BinCode(e, dest, frame);
    PlacedSplit(t, entries, base, cl, cr + co);
    PlacedSplit(t, entries, base + |cl|, cr, co);
    n := ExprRuns(t, entries, base, l, dest, frame, s);
    if Source(l, frame, s).Value? {
      var s1 := Run(t, s, n).s;
      var m := ExprRuns(t, entries, base + |cl|, r, tmp, frame, s1);
      RunThen(t, s, n, m);
      n := n + m;
      if Source(r, frame, s1).Value? {
        var k := OpRuns(t, entries, base + |cl| + |cr|, op, dest, Run(t, s, n).s);
        RunThen(t, s, n, k);
        n := n + k;
      }
    }
  }

  lemma StoreCode(e: S.Expr, dest: Reg, frame: seq<S.VarId>)
    requires e.DerefAssign? && ExprOk(e, frame)
    ensures ExprCode(e, dest, frame) == ExprCode(e.val, dest, frame)
      + (ExprCode(e.ptr, Temp(dest), frame) + [I(St(dest, Temp(dest), 0))])
  {
  }

  lemma StoreRuns(t: Text, entries: Entries, base: int, e: S.Expr, dest: Reg, frame: seq<S.VarId>, s: State) returns (n: nat)
    requires e.DerefAssign? && S.CallFree(e) && ExprOk(e, frame)
    requires S.ScratchRegs(e) <= Available(dest) && dest < FP
    requires Placed(t, entries, base, ExprCode(e, dest, frame)) && s.pc == base
    ensures n >= 1
    ensures Computes(t, s, n, base + |ExprCode(e, dest, frame)|, dest, Source(e, frame, s))
    decreases e, 0
  {
    hide Run, Placed, Execute, Load, Store, Sem.Defined, ExprCode, Sem.EvalShared;
    OkIsDefined(e, frame);
    Sem.SharedSteps(e, e.val, e.ptr, frame, s.regs[FP], s.mem);
    var DerefAssign(p, v) := e;
    var tmp := Temp(dest);
    var cv, cp, co := ExprCode(v, dest, frame), ExprCode(p, tmp, frame), [I(St(dest, tmp, 0))];
    StoreCode(e, dest, frame);
    PlacedSplit(t, entries, base, cv, cp + co);
    PlacedSplit(t, entries, base + |cv|, cp, co);
    n := ExprRuns(t, entries, base, v, dest, frame, s);
    if Source(v, frame, s).Value? {
      var s1 := Run(t, s, n).s;
      var m := ExprRuns(t, entries, base + |cv|, p, tmp, frame, s1);
      RunThen(t, s, n, m);
      n := n + m;
      if Source(p, frame, s1).Value? {
        SaveRuns(t, entries, base + |cv| + |cp|, dest, tmp, 0, s, n);
        n := n + 1;
      }
    }
  }
}
