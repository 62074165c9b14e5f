/** What the backend's code computes for a call in a position it does not support: the right operand of
    an operation, or the pointer of a store. */

module CallPositions {
  import opened Words
  import opened Memory
  import opened Machine
  import opened Code
  import opened ExprProof
  import opened Stack
  import opened ProgramProof
  import opened Operands
  import S = Syntax
  import Sem = Semantics

  /** An operation whose right operand calls: the left operand was computed first, into dest. */
  ghost predicate Placement(env: Env, act: Sem.Activation, slots: Sem.Slots, s: State, base: int, e: S.Expr, x: S.Expr, y: S.Expr, dest: Reg) {
    && Linked(env) && Ready(env, act, Sem.Sp(act), slots, s) && s.pc == base
    && ((e.BinOp? && x == e.lhs && y == e.rhs) || (e.DerefAssign? && x == e.val && y == e.ptr))
    && S.SafeCalls(x, env.safe) && S.SafeCalls(y, env.safe) && !S.CallFree(y)
    && RootOk(e, act.frame) && (dest == R0 || dest == R4)
    && Placed(env.t, env.entries, base, ExprCode(e, dest, act.frame))
  }

  /** The code of the two parts, and what follows it. */
  lemma Parts(env: Env, act: Sem.Activation, slots: Sem.Slots, s: State, base: int, e: S.Expr, x: S.Expr, y: S.Expr, dest: Reg)
    requires Placement(env, act, slots, s, base, e, x, y, dest)
    ensures ExprOk(x, act.frame) && ExprOk(y, act.frame)
    ensures var cx, cy := ExprCode(x, dest, act.frame), ExprCode(y, R5, act.frame);
      var co := if e.BinOp? then OpCode(e.op, dest, R5) else [I(St(dest, R5, 0))];
      && ExprCode(e, dest, act.frame) == cx + (cy + co)
      && Placed(env.t, env.entries, base, cx) && Placed(env.t, env.entries, base + |cx|, cy)
      && Placed(env.t, env.entries, base + |cx| + |cy|, co)
      && S.ScratchRegs(x) <= 3 && S.ScratchRegs(y) <= 2
  {
    hide Placed, Linked, Ready, OpCode, ExprCode;
    if e.BinOp? {
      BinCode(e, dest, act.frame);
    } else {
      StoreCode(e, dest, act.frame);
    }
    var cx, cy := ExprCode(x, dest, act.frame), ExprCode(y, R5, act.frame);
    var co := if e.BinOp? then OpCode(e.op, dest, R5) else [I(St(dest, R5, 0))];
    PlacedSplit(env.t, env.entries, base, cx, cy + co);
    PlacedSplit(env.t, env.entries, base + |cx|, cy, co);
  }

  /** Where the two parts leave the machine: the second value in R5, its spine call's value in R0. */
  ghost predicate TwoDone(env: Env, fuel: nat, act: Sem.Activation, slots: Sem.Slots, s: State, n: nat, mid: int, x: S.Expr, y: S.Expr, dest: Reg) {
    var sp := Sem.Sp(act);
    var a := Sem.Eval(fuel, act, sp, x, slots);
    Sem.HasValue(a) ==>
      var v := Sem.Eval(fuel, act, sp, y, a.slots);
      Sem.HasValue(v) ==>
        var u := Sem.Eval(fuel, act, sp, SpineCall(y), a.slots);
        && Run(env.t, s, n).Next? && Sem.HasValue(u)
        && ExprDone(env, sp, slots, s, Run(env.t, s, n).s, mid, R5, v.value, v.slots)
        && Run(env.t, s, n).s.regs[R0] == u.value.value && Run(env.t, s, n).s.regs[R5] == v.value.value
  }

  lemma TwoRun(env: Env, fuel: nat, act: Sem.Activation, slots: Sem.Slots, s: State, base: int, e: S.Expr, x: S.Expr, y: S.Expr, dest: Reg) returns (n: nat)
    requires Placement(env, act, slots, s, base, e, x, y, dest) && ExprOk(x, act.frame) && ExprOk(y, act.frame)
    ensures TwoDone(env, fuel, act, slots, s, n, base + |ExprCode(x, dest, act.frame)| + |ExprCode(y, R5, act.frame)|, x, y, dest)
  {
    hide Run, Placed, Load, Linked, Ready, ExprDone, ExprCode, OpCode, Sem.Eval, ExprOk;
    Parts(env, act, slots, s, base, e, x, y, dest);
    var sp := Sem.Sp(act);
    var cx, cy := ExprCode(x, dest, act.frame), ExprCode(y, R5, act.frame);
    n := EvalRuns(env, fuel, act, sp, slots, s, base, x, dest);
    var a := Sem.Eval(fuel, act, sp, x, slots);
    if Sem.HasValue(a) {
      var s1 := Run(env.t, s, n).s;
      StillReady(env, act, sp, slots, s, s1, base + |cx|, dest, a.value, a.slots);
      DoneFacts(env, sp, slots, s, s1, base + |cx|, dest, a.value, a.slots);
      var m := EvalRuns(env, fuel, act, sp, a.slots, s1, base + |cx|, y, R5);
      RunThen(env.t, s, n, m);
      n := n + m;
      var v := Sem.Eval(fuel, act, sp, y, a.slots);
      if Sem.HasValue(v) {
        var s2 := Run(env.t, s, n).s;
        DoneTrans(env, sp, slots, s, s1, base + |cx|, dest, a.value, a.slots, s2, base + |cx| + |cy|, R5, v.value, v.slots);
        DoneFacts(env, sp, slots, s, s2, base + |cx| + |cy|, R5, v.value, v.slots);
      }
    }
  }

  /** The operation itself, on whatever dest has become. */
  lemma OpAfter(env: Env, sp: int, slots: Sem.Slots, s: State, n: nat, mid: int, v: Option<Word>, slots1: Sem.Slots, op: S.BinOp, dest: Reg) returns (k: nat)
    requires Run(env.t, s, n).Next? && ExprDone(env, sp, slots, s, Run(env.t, s, n).s, mid, R5, v, slots1) && v.Some?
    requires (dest == R0 || dest == R4) && Placed(env.t, env.entries, mid, OpCode(op, dest, R5))
    ensures Run(env.t, s, k).Next?
    ensures ExprDone(env, sp, slots, s, Run(env.t, s, k).s, mid + |OpCode(op, dest, R5)|, dest,
                     Some(Sem.BinVal(op, Run(env.t, s, n).s.regs[dest], v.value)), slots1)
  {
    hide Run, Placed, ExprDone, OpCode, Sem.BinVal;
    var s2 := Run(env.t, s, n).s;
    DoneFacts(env, sp, slots, s, s2, mid, R5, v, slots1);
    var m := OpRuns(env.t, env.entries, mid, op, dest, s2);
    RunThen(env.t, s, n, m);
    k := n + m;
    DoneSet(env, sp, slots, s, s2, mid, R5, v, slots1, Run(env.t, s, k).s, dest, Sem.BinVal(op, s2.regs[dest], v.value));
  }

  /** The store itself, of whatever dest has become. */
  lemma StoreAfter(env: Env, act: Sem.Activation, slots: Sem.Slots, s: State, n: nat, mid: int, p: Option<Word>, slots1: Sem.Slots, dest: Reg) returns (k: nat)
    requires Linked(env) && Ready(env, act, Sem.Sp(act), slots, s) && Run(env.t, s, n).Next?
    requires ExprDone(env, Sem.Sp(act), slots, s, Run(env.t, s, n).s, mid, R5, p, slots1) && p.Some? && p.value in slots1
    requires (dest == R0 || dest == R4) && Placed(env.t, env.entries, mid, [I(St(dest, R5, 0))])
    ensures Run(env.t, s, k).Next?
    ensures var c := Some(Run(env.t, s, n).s.regs[dest]);
      ExprDone(env, Sem.Sp(act), slots, s, Run(env.t, s, k).s, mid + 1, dest, c, slots1[p.value := c])
  {
    hide Run, Placed, Load, Store, Linked, Ready, ExprDone;
    var sp, s2 := Sem.Sp(act), Run(env.t, s, n).s;
    StillReady(env, act, sp, slots, s, s2, mid, R5, p, slots1);
    DoneFacts(env, sp, slots, s, s2, mid, R5, p, slots1);
    SlotMapped(env, act, sp, slots1, s2, p.value);
    SaveRuns(env.t, env.entries, mid, dest, R5, 0, s, n);
    k := n + 1;
    DoneStore(env, act, sp, slots, s, s2, mid, R5, p, slots1, Run(env.t, s, k).s, p.value, dest, s2.regs[dest]);
  }

  // ---- Into R0: a returned expression ----

  /** In a returned operation the right operand's call has replaced the left operand: the code computes
      u op v, where u is what the right operand's first call returned. */
  lemma RightOperandReturned(env: Env, fuel: nat, act: Sem.Activation, slots: Sem.Slots, s: State, base: int, e: S.Expr) returns (n: nat)
    requires e.BinOp? && Placement(env, act, slots, s, base, e, e.lhs, e.rhs, R0)
    ensures var sp := Sem.Sp(act); var a := Sem.Eval(fuel, act, sp, e.lhs, slots);
      Sem.HasValue(a) ==>
        var v := Sem.Eval(fuel, act, sp, e.rhs, a.slots);
        Sem.HasValue(v) ==>
          var u := Sem.Eval(fuel, act, sp, SpineCall(e.rhs), a.slots);
          && Run(env.t, s, n).Next? && Sem.HasValue(u)
          && ExprDone(env, sp, slots, s, Run(env.t, s, n).s, base + |ExprCode(e, R0, act.frame)|, R0,
                      Some(Sem.BinVal(e.op, u.value.value, v.value.value)), v.slots)
  {
    hide Run, Placed, Linked, Ready, ExprDone, ExprCode, OpCode, Sem.Eval, Sem.BinVal;
    Parts(env, act, slots, s, base, e, e.lhs, e.rhs, R0);
    n := TwoRun(env, fuel, act, slots, s, base, e, e.lhs, e.rhs, R0);
    var sp := Sem.Sp(act);
    var a := Sem.Eval(fuel, act, sp, e.lhs, slots);
    if Sem.HasValue(a) {
      var v := Sem.Eval(fuel, act, sp, e.rhs, a.slots);
      if Sem.HasValue(v) {
        var mid := base + |ExprCode(e.lhs, R0, act.frame)| + |ExprCode(e.rhs, R5, act.frame)|;
        n := OpAfter(env, sp, slots, s, n, mid, v.value, v.slots, e.op, R0);
      }
    }
  }

  /** In a returned store whose pointer calls, what is stored and returned is what the pointer's first
      call returned. */
  lemma PointerReturned(env: Env, fuel: nat, act: Sem.Activation, slots: Sem.Slots, s: State, base: int, e: S.Expr) returns (n: nat)
    requires e.DerefAssign? && Placement(env, act, slots, s, base, e, e.val, e.ptr, R0)
    ensures var sp := Sem.Sp(act); var a := Sem.Eval(fuel, act, sp, e.val, slots);
      Sem.HasValue(a) ==>
        var p := Sem.Eval(fuel, act, sp, e.ptr, a.slots);
        Sem.HasValue(p) && p.value.value in p.slots ==>
          var u := Sem.Eval(fuel, act, sp, SpineCall(e.ptr), a.slots);
          && Run(env.t, s, n).Next? && Sem.HasValue(u)
          && ExprDone(env, sp, slots, s, Run(env.t, s, n).s, base + |ExprCode(e, R0, act.frame)|, R0,
                      u.value, p.slots[p.value.value := u.value])
  {
    hide Run, Placed, Load, Store, Linked, Ready, ExprDone, ExprCode, Sem.Eval;
    Parts(env, act, slots, s, base, e, e.val, e.ptr, R0);
    n := TwoRun(env, fuel, act, slots, s, base, e, e.val, e.ptr, R0);
    var sp := Sem.Sp(act);
    var a := Sem.Eval(fuel, act, sp, e.val, slots);
    if Sem.HasValue(a) {
      var p := Sem.Eval(fuel, act, sp, e.ptr, a.slots);
      if Sem.HasValue(p) && p.value.value in p.slots {
        var mid := base + |ExprCode(e.val, R0, act.frame)| + |ExprCode(e.ptr, R5, act.frame)|;
        n := StoreAfter(env, act, slots, s, n, mid, p.value, p.slots, R0);
      }
    }
  }

  // ---- Into R4: conditions, initialisers, expression statements and arguments ----

  /** A function that only returns a call-free expression. */
  predicate Leaf(prog: S.Program, name: string) {
    var i := S.FindFunction(prog, name);
    i.Some? &&
    var body := prog[i.value].body;
    |body| == 1 && body[0].Return? && S.CallFree(body[0].e)
  }

  /** A leaf never touches R4. */
  lemma LeafInvoke(env: Env, fuel: nat, sp: int, slots: Sem.Slots, s: State, name: string, values: seq<Word>, ret: int) returns (n: nat)
    requires InvokePre(env, sp, slots, s, name, values, ret) && Leaf(env.prog, name)
    ensures var r := Sem.Invoke(fuel, env.prog, env.lo, sp, name, values, slots);
      r.Done? ==>
        && Run(env.t, s, n).Next? && InvokeDone(env, sp, slots, s, Run(env.t, s, n).s, ret, r.value, r.slots)
        && Run(env.t, s, n).s.regs[R4] == s.regs[R4]
  {
    hide Run, Placed, Load, Ready, Saved, FunctionReturned, ExprDone, ExprCode, Epilogue, Prologue, Sem.NewSlots, Sem.Eval;
    var f := env.prog[S.FindFunction(env.prog, name).value];
    assert FunctionLinked(env, name);
    var act := Sem.Activation(env.prog, env.lo, Sem.Frame(f), sp - 16);
    n := 0;
    if env.lo <= Sem.Sp(act) {
      var e := f.body[0].e;
      LeafCode(f, e);
      var pro, code := Prologue(f), ExprCode(e, R0, act.frame);
      PlacedSplit(env.t, env.entries, s.pc, pro, code + (Epilogue() + LeafTail(f)));
      PlacedSplit(env.t, env.entries, s.pc + |pro|, code, Epilogue() + LeafTail(f));
      PlacedSplit(env.t, env.entries, s.pc + |pro| + |code|, Epilogue(), LeafTail(f));
      var stack := s.retStack[..|s.retStack| - 1];
      n := PrologueRuns(env, sp, slots, s, name, values, ret, f);
      var s1 := Run(env.t, s, n).s;
      var slots1 := slots + Sem.NewSlots(act.fp, |act.frame|, Sem.Bound(f, values));
      CallFreeIsSafe(e, env.safe);
      var m := PureRuns(env, fuel, act, Sem.Sp(act), slots1, s1, s.pc + |pro|, e, R0);
      RunThen(env.t, s, n, m);
      n := n + m;
      LeafBody(fuel, act, e, slots1);
      var a := Sem.Eval(fuel, act, Sem.Sp(act), e, slots1);
      if Sem.HasValue(a) {
        var s2 := Run(env.t, s, n).s;
        var mid := s.pc + |pro| + |code|;
        DoneFacts(env, Sem.Sp(act), slots1, s1, s2, mid, R0, a.value, a.slots);
        Weaken(env, Sem.Sp(act), slots1, s1, s2, mid, R0, a.value, a.slots);
        StillFramed(env, act, slots1, s1, s2, mid, a.slots, s.regs[FP], ret, stack);
        EpilogueRuns(env, act, Sem.Sp(act), a.slots, s2, mid, s.regs[FP], ret, stack);
        RunThen(env.t, s, n, 5);
        n := n + 5;
        ReturnFromNormal(env, act, slots1, s1, s2, Run(env.t, s, n).s, mid, a.slots, s.regs[FP], ret, stack);
        Leave(env, sp, slots, s, s1, Run(env.t, s, n).s, act, slots1, ret, stack, f, values, a.slots);
      }
    }
  }

  function LeafTail(f: S.Function): Items {
    if f.isVoid then Epilogue() else []
  }

  lemma LeafCode(f: S.Function, e: S.Expr)
    requires f.body == [S.Return(e)] && FunctionOk(f)
    ensures RootOk(e, Sem.Frame(f))
    ensures FunctionCode(f) == Prologue(f) + (ExprCode(e, R0, Sem.Frame(f)) + (Epilogue() + LeafTail(f)))
  {
    assert f.body[1..] == [];
    assert StmtsOk(f.body, Sem.Frame(f)) && StmtOk(f.body[0], Sem.Frame(f));
    assert StmtsCode(f.body, Sem.Frame(f)) == StmtCode(f.body[0], Sem.Frame(f)) + StmtsCode(f.body[1..], Sem.Frame(f));
  }

  lemma LeafBody(fuel: nat, act: Sem.Activation, e: S.Expr, slots: Sem.Slots)
    ensures var a := Sem.Eval(fuel, act, Sem.Sp(act), e, slots);
      Sem.ExecAll(fuel, act, [S.Return(e)], slots) ==
        if Sem.HasValue(a) then Sem.Returned(a.value.value, a.slots)
        else if a.OutOfFuel? then Sem.StmtOutOfFuel else Sem.StmtStuck
  {
    hide Sem.Eval;
    assert [S.Return(e)][0] == S.Return(e);
  }

  /** A call of a leaf leaves in R4 its last argument, or what was there when it has none. */
  lemma LeafCall(env: Env, fuel: nat, act: Sem.Activation, sp: int, slots: Sem.Slots, s: State, base: int, e: S.Expr) returns (n: nat)
    requires EvalPre(env, act, sp, slots, s, base, e, R5) && e.Call? && Leaf(env.prog, e.name)
    ensures var r := Sem.Eval(fuel, act, sp, e, slots); var args := Sem.EvalArgs(fuel, act, sp, e.args, slots);
      Sem.HasValue(r) ==>
        && Run(env.t, s, n).Next? && args.Args?
        && ExprDone(env, sp, slots, s, Run(env.t, s, n).s, base + |ExprCode(e, R5, act.frame)|, R5, r.value, r.slots)
        && Run(env.t, s, n).s.regs[R4] == AfterArgs(s.regs[R4], args.values)
  {
    hide Run, Placed, Load, Linked, Ready, Grounded, CallReady, InvokePre, InvokeDone, ExprDone, PushCode, PopCode, DropCode, ExprCode;
    var Call(name, args) := e;
    var at := CallWord(base, args, act.frame);
    CallCode(e, R5, act.frame);
    PlacedSplit(env.t, env.entries, base, PushCode(args, 4, act.frame), (PopCode(|args|, 0) + DropCode(|args|)) + ([CallTo(name)] + ResultCode(R5)));
    PlacedSplit(env.t, env.entries, base + |PushCode(args, 4, act.frame)|, PopCode(|args|, 0) + DropCode(|args|), [CallTo(name)] + ResultCode(R5));
    PlacedSplit(env.t, env.entries, at, [CallTo(name)], ResultCode(R5));
    n := CallSetup(env, fuel, act, sp, slots, s, base, e, R5);
    var r := Sem.EvalArgs(fuel, act, sp, args, slots);
    ReadyFacts(env, act, sp, slots, s);
    if r.Args? && fuel > 0 {
      var s2 := Run(env.t, s, n).s;
      CallReadyFacts(env, act, sp, slots, s, s2, at, r.values, r.slots);
      CallStep(env, sp, r.slots, s2, name, r.values);
      RunThen(env.t, s, n, 1);
      n := n + 1;
      var s3 := Run(env.t, s, n).s;
      var k := LeafInvoke(env, fuel - 1, sp, r.slots, s3, name, r.values, at + 1);
      RunThen(env.t, s, n, k);
      n := n + k;
      var v := Sem.Invoke(fuel - 1, env.prog, env.lo, sp, name, r.values, r.slots);
      if v.Done? {
        n := CallResult(env, act, sp, slots, s, s2, s3, at, r.values, r.slots, n, R5, v.value, v.slots);
      }
    }
  }

  /** The second operand is a call of a leaf: R4 then holds c, the call's last argument if it has one. */
  ghost predicate LeafDone(env: Env, fuel: nat, act: Sem.Activation, slots: Sem.Slots, s: State, n: nat, mid: int, x: S.Expr, y: S.Expr)
    requires y.Call?
  {
    var sp := Sem.Sp(act);
    var a := Sem.Eval(fuel, act, sp, x, slots);
    Sem.HasValue(a) ==>
      var v := Sem.Eval(fuel, act, sp, y, a.slots);
      Sem.HasValue(v) ==>
        var args := Sem.EvalArgs(fuel, act, sp, y.args, a.slots);
        && Run(env.t, s, n).Next? && args.Args?
        && ExprDone(env, sp, slots, s, Run(env.t, s, n).s, mid, R5, v.value, v.slots)
        && Run(env.t, s, n).s.regs[R4] == AfterArgs(a.value.value, args.values)
  }

  lemma LeafRun(env: Env, fuel: nat, act: Sem.Activation, slots: Sem.Slots, s: State, base: int, e: S.Expr, x: S.Expr, y: S.Expr) returns (n: nat)
    requires Placement(env, act, slots, s, base, e, x, y, R4) && ExprOk(x, act.frame) && ExprOk(y, act.frame)
    requires y.Call? && Leaf(env.prog, y.name)
    ensures LeafDone(env, fuel, act, slots, s, n, base + |ExprCode(x, R4, act.frame)| + |ExprCode(y, R5, act.frame)|, x, y)
  {
    hide Run, Placed, Load, Linked, Ready, ExprDone, ExprCode, OpCode, Sem.Eval, ExprOk, Sem.EvalArgs;
    Parts(env, act, slots, s, base, e, x, y, R4);
    var sp := Sem.Sp(act);
    var cx, cy := ExprCode(x, R4, act.frame), ExprCode(y, R5, act.frame);
    n := EvalRuns(env, fuel, act, sp, slots, s, base, x, R4);
    var a := Sem.Eval(fuel, act, sp, x, slots);
    if Sem.HasValue(a) {
      var s1 := Run(env.t, s, n).s;
      StillReady(env, act, sp, slots, s, s1, base + |cx|, R4, a.value, a.slots);
      DoneFacts(env, sp, slots, s, s1, base + |cx|, R4, a.value, a.slots);
      var m := LeafCall(env, fuel, act, sp, a.slots, s1, base + |cx|, y);
      RunThen(env.t, s, n, m);
      n := n + m;
      var v := Sem.Eval(fuel, act, sp, y, a.slots);
      if Sem.HasValue(v) {
        var s2 := Run(env.t, s, n).s;
        DoneTrans(env, sp, slots, s, s1, base + |cx|, R4, a.value, a.slots, s2, base + |cx| + |cy|, R5, v.value, v.slots);
      }
    }
  }

  /** Anywhere but in a returned expression, an operation whose right operand calls a leaf computes
      c op v, where c is the call's last argument, or the left operand itself when there is none. */
  lemma RightOperandLeaf(env: Env, fuel: nat, act: Sem.Activation, slots: Sem.Slots, s: State, base: int, e: S.Expr) returns (n: nat)
    requires e.BinOp? && Placement(env, act, slots, s, base, e, e.lhs, e.rhs, R4)
    requires e.rhs.Call? && Leaf(env.prog, e.rhs.name)
    ensures var sp := Sem.Sp(act); var a := Sem.Eval(fuel, act, sp, e.lhs, slots);
      Sem.HasValue(a) ==>
        var v := Sem.Eval(fuel, act, sp, e.rhs, a.slots);
        Sem.HasValue(v) ==>
          var args := Sem.EvalArgs(fuel, act, sp, e.rhs.args, a.slots);
          && Run(env.t, s, n).Next? && args.Args?
          && ExprDone(env, sp, slots, s, Run(env.t, s, n).s, base + |ExprCode(e, R4, act.frame)|, R4,
                      Some(Sem.BinVal(e.op, AfterArgs(a.value.value, args.values), v.value.value)), v.slots)
  {
    hide Run, Placed, Linked, Ready, ExprDone, ExprCode, OpCode, Sem.Eval, Sem.BinVal, Sem.EvalArgs;
    Parts(env, act, slots, s, base, e, e.lhs, e.rhs, R4);
    n := LeafRun(env, fuel, act, slots, s, base, e, e.lhs, e.rhs);
    var sp := Sem.Sp(act);
    var a := Sem.Eval(fuel, act, sp, e.lhs, slots);
    if Sem.HasValue(a) {
      var v := Sem.Eval(fuel, act, sp, e.rhs, a.slots);
      if Sem.HasValue(v) {
        var mid := base + |ExprCode(e.lhs, R4, act.frame)| + |ExprCode(e.rhs, R5, act.frame)|;
        n := OpAfter(env, sp, slots, s, n, mid, v.value, v.slots, e.op, R4);
      }
    }
  }

  /** The same for a store whose pointer is a call of a leaf: c is stored, and is the store's value. */
  lemma PointerLeaf(env: Env, fuel: nat, act: Sem.Activation, slots: Sem.Slots, s: State, base: int, e: S.Expr) returns (n: nat)
    requires e.DerefAssign? && Placement(env, act, slots, s, base, e, e.val, e.ptr, R4)
    requires e.ptr.Call? && Leaf(env.prog, e.ptr.name)
    ensures var sp := Sem.Sp(act); var a := Sem.Eval(fuel, act, sp, e.val, slots);
      Sem.HasValue(a) ==>
        var p := Sem.Eval(fuel, act, sp, e.ptr, a.slots);
        Sem.HasValue(p) && p.value.value in p.slots ==>
          var args := Sem.EvalArgs(fuel, act, sp, e.ptr.args, a.slots);
          && Run(env.t, s, n).Next? && args.Args?
          && var c := Some(AfterArgs(a.value.value, args.values));
             ExprDone(env, sp, slots, s, Run(env.t, s, n).s, base + |ExprCode(e, R4, act.frame)|, R4, c, p.slots[p.value.value := c])
  {
    hide Run, Placed, Load, Store, Linked, Ready, ExprDone, ExprCode, Sem.Eval, Sem.EvalArgs;
    Parts(env, act, slots, s, base, e, e.val, e.ptr, R4);
    n := LeafRun(env, fuel, act, slots, s, base, e, e.val, e.ptr);
    var sp := Sem.Sp(act);
    var a := Sem.Eval(fuel, act, sp, e.val, slots);
    if Sem.HasValue(a) {
      var p := Sem.Eval(fuel, act, sp, e.ptr, a.slots);
      if Sem.HasValue(p) && p.value.value in p.slots {
        var mid := base + |ExprCode(e.val, R4, act.frame)| + |ExprCode(e.ptr, R5, act.frame)|;
        n := StoreAfter(env, act, slots, s, n, mid, p.value, p.slots, R4);
      }
    }
  }
}
