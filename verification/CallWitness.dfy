/** Concrete programs the compiler accepts and miscompiles. */

module CallWitness {
  import opened Words
  import opened Memory
  import opened Machine
  import opened Code
  import opened Stack
  import opened Operands
  import opened CompilerTheorem
  import opened CallPositions
  import opened CallTheorem
  import S = Syntax
  import Sem = Semantics

  const ONE_PLUS_F := S.BinOp(S.Add, S.IntLit(1), S.Call("f", []))

  /** main() { return 1 + f(); }  f() { return 2; } */
  const WRONG_SUM: S.Program := [
    S.Function("main", [], false, [], [S.Return(ONE_PLUS_F)]),
    S.Function("f", [], false, [], [S.Return(S.IntLit(2))])]

  const ONE_PLUS_F_OF_5 := S.BinOp(S.Add, S.IntLit(1), S.Call("f", [S.IntLit(5)]))

  /** main() { int x = 1 + f(5); return x; }  f(p) { return 2; } */
  const WRONG_INITIALISER: S.Program := [
    S.Function("main", [], false, [0], [S.VarDecl(0, Some(ONE_PLUS_F_OF_5)), S.Return(S.Var(0))]),
    S.Function("f", [0], false, [], [S.Return(S.IntLit(2))])]

  const STORE_THROUGH_F := S.DerefAssign(S.Call("f", [S.AddrOf(0)]), S.IntLit(5))

  /** main() { int x; return *f(&x) = 5; }  f(p) { return p; } */
  const WRONG_STORE: S.Program := [
    S.Function("main", [], false, [0], [S.Return(STORE_THROUGH_F)]),
    S.Function("f", [0], false, [], [S.Return(S.Var(0))])]

  /** At most n words, whose calls are all of f. */
  predicate CallsF(items: Items, n: nat) {
    |items| <= n && forall k :: 0 <= k < |items| && items[k].CallTo? ==> items[k].name == "f"
  }

  lemma CallsFThen(a: Items, n: nat, b: Items, m: nat)
    requires CallsF(a, n) && CallsF(b, m)
    ensures CallsF(a + b, n + m)
  {
  }

  lemma {:induction false} ProgramAccepted(prog: S.Program)
    requires |prog| == 2 && prog[0].name == "main" && prog[1].name == "f"
    requires FunctionOk(prog[0]) && FunctionOk(prog[1])
    requires CallsF(FunctionCode(prog[0]), 100) && CallsF(FunctionCode(prog[1]), 100)
    ensures ProgramOk(prog) && ProgramFits(prog)
    ensures S.FindFunction(prog, "main") == Some(0) && S.FindFunction(prog, "f") == Some(1)
  {
    hide FunctionCode, FunctionOk;
    assert prog[1..][0] == prog[1] && prog[1..][1..] == [];
    assert FunctionsOk(prog[1..]);
    assert FunctionsCode(prog[1..]) == FunctionCode(prog[1]) + FunctionsCode([]);
    assert FunctionsCode(prog) == FunctionCode(prog[0]) + FunctionCode(prog[1]);
    assert S.FindFunction(prog[1..], "f") == Some(0);
    SmallProgramFits(prog);
  }

  lemma PrologueCalls(f: S.Function)
    ensures CallsF(Prologue(f), 9) && CallsF(Epilogue(), 5)
  {
    ParamCalls(S.Min4(|f.params|), 0);
    CallsFThen(ParamCode(S.Min4(|f.params|), 0), 4, ReserveCode(|Sem.Frame(f)|), 1);
    CallsFThen(EnterCode(), 4, ParamCode(S.Min4(|f.params|), 0) + ReserveCode(|Sem.Frame(f)|), 5);
  }

  lemma {:induction false} ParamCalls(n: nat, i: nat)
    requires i <= n <= 4
    ensures CallsF(ParamCode(n, i), n - i)
    decreases n - i
  {
    if i < n {
      ParamCalls(n, i + 1);
    }
  }

  /** A function that returns one expression. */
  lemma ReturnAccepted(f: S.Function, e: S.Expr)
    requires f.body == [S.Return(e)] && !f.isVoid && |Sem.Frame(f)| <= 4
    requires RootOk(e, Sem.Frame(f)) && CallsF(ExprCode(e, R0, Sem.Frame(f)), 80)
    ensures FunctionOk(f) && CallsF(FunctionCode(f), 100)
  {
    hide CallsF, Prologue, Epilogue, ExprCode, RootOk;
    assert f.body[1..] == [] && StmtOk(f.body[0], Sem.Frame(f));
    assert StmtsOk(f.body, Sem.Frame(f));
    LeafCode(f, e);
    PrologueCalls(f);
    CallsFThen(ExprCode(e, R0, Sem.Frame(f)), 80, Epilogue(), 5);
    CallsFThen(Prologue(f), 9, ExprCode(e, R0, Sem.Frame(f)) + Epilogue(), 85);
    assert Epilogue() + LeafTail(f) == Epilogue();
    CallsFMore(FunctionCode(f), 94, 100);
  }

  lemma CallsFMore(a: Items, n: nat, m: nat)
    requires CallsF(a, n) && n <= m
    ensures CallsF(a, m)
  {
  }

  lemma SumAccepted()
    ensures ProgramOk(WRONG_SUM) && ProgramFits(WRONG_SUM)
    ensures S.FindFunction(WRONG_SUM, "main") == Some(0) && S.FindFunction(WRONG_SUM, "f") == Some(1)
  {
    hide FunctionOk, FunctionCode;
    ReturnAccepted(WRONG_SUM[0], ONE_PLUS_F);
    ReturnAccepted(WRONG_SUM[1], S.IntLit(2));
    ProgramAccepted(WRONG_SUM);
  }

  /** The address of a variable, and a call with one constant or address as its argument. */
  lemma CallCodeOf(arg: S.Expr, frame: seq<S.VarId>)
    requires (arg.IntLit? || arg.AddrOf?) && ExprOk(arg, frame)
    ensures RootOk(S.Call("f", [arg]), frame) && CallsF(ExprCode(S.Call("f", [arg]), R5, frame), 8)
  {
    var args := [arg];
    assert args[0] == arg && args[1..] == [];
    assert PushCode(args[1..], 3, frame) == [];
    assert PushCode(args, 4, frame) == ExprCode(arg, R4, frame) + PushOne() + [];
    assert PopCode(1, 0) == [I(Ld(R0, SP, 0))] + PopCode(1, 1);
    assert S.ScratchArgs(args) == S.Max(S.ScratchRegs(arg), S.ScratchArgs([]));
    CallsFThen(PushCode(args, 4, frame), 3, PopCode(1, 0) + DropCode(1) + [CallTo("f")] + ResultCode(R5), 4);
    assert ExprCode(S.Call("f", args), R5, frame) == PushCode(args, 4, frame) + (PopCode(1, 0) + DropCode(1) + [CallTo("f")] + ResultCode(R5));
  }

  lemma InitialiserAccepted()
    ensures ProgramOk(WRONG_INITIALISER) && ProgramFits(WRONG_INITIALISER)
    ensures S.FindFunction(WRONG_INITIALISER, "main") == Some(0) && S.FindFunction(WRONG_INITIALISER, "f") == Some(1)
  {
    hide FunctionOk, FunctionCode;
    InitialiserMain(WRONG_INITIALISER[0]);
    ReturnAccepted(WRONG_INITIALISER[1], S.IntLit(2));
    ProgramAccepted(WRONG_INITIALISER);
  }

  lemma InitialiserMain(f: S.Function)
    requires f == WRONG_INITIALISER[0]
    ensures FunctionOk(f) && CallsF(FunctionCode(f), 100)
  {
    hide CallsF, Prologue, Epilogue, ExprCode;
    var decl, ret := S.VarDecl(0, Some(ONE_PLUS_F_OF_5)), S.Return(S.Var(0));
    CallCodeOf(S.IntLit(5), [0]);
    assert Sem.Frame(f) == [0] && StmtOk(decl, [0]) && StmtOk(ret, [0]);
    TwoStmts(decl, ret, [0]);
    InitialiserCode();
    PrologueCalls(f);
    CallsFThen(StmtCode(decl, [0]), 20, StmtCode(ret, [0]), 6);
    CallsFThen(Prologue(f), 9, StmtCode(decl, [0]) + StmtCode(ret, [0]), 26);
    assert FunctionCode(f) == Prologue(f) + (StmtCode(decl, [0]) + StmtCode(ret, [0]));
    CallsFMore(FunctionCode(f), 35, 100);
  }

  lemma TwoStmts(first: S.Stmt, second: S.Stmt, frame: seq<S.VarId>)
    requires StmtOk(first, frame) && StmtOk(second, frame)
    ensures StmtsOk([first, second], frame)
    ensures StmtsCode([first, second], frame) == StmtCode(first, frame) + StmtCode(second, frame)
    ensures second.Return? ==> S.DefinitelyReturns([first, second])
  {
    hide StmtOk, StmtCode;
    var body := [first, second];
    assert body[1..] == [second] && body[1..][0] == second && body[1..][1..] == [];
    assert StmtsOk(body[1..], frame);
    assert StmtsCode(body[1..], frame) == StmtCode(second, frame) + [];
    if second.Return? {
      assert S.StmtDefinitelyReturns(second) && S.DefinitelyReturns(body[1..]);
    }
  }

  lemma InitialiserCode()
    requires StmtOk(S.VarDecl(0, Some(ONE_PLUS_F_OF_5)), [0]) && StmtOk(S.Return(S.Var(0)), [0])
    ensures CallsF(StmtCode(S.VarDecl(0, Some(ONE_PLUS_F_OF_5)), [0]), 20)
    ensures CallsF(StmtCode(S.Return(S.Var(0)), [0]), 6)
  {
    CallCodeOf(S.IntLit(5), [0]);
    var call := ExprCode(S.Call("f", [S.IntLit(5)]), R5, [0]);
    CallsFThen([I(Movi(R4, 1))], 1, call, 8);
    CallsFThen([I(Movi(R4, 1))] + call, 9, [I(Alu(Add, R4, R4, R5))], 1);
    assert ExprCode(ONE_PLUS_F_OF_5, R4, [0]) == [I(Movi(R4, 1))] + call + [I(Alu(Add, R4, R4, R5))];
  }

  lemma StoreAccepted()
    ensures ProgramOk(WRONG_STORE) && ProgramFits(WRONG_STORE)
    ensures S.FindFunction(WRONG_STORE, "main") == Some(0) && S.FindFunction(WRONG_STORE, "f") == Some(1)
  {
    hide FunctionOk, FunctionCode;
    StoreMain();
    assert Sem.Frame(WRONG_STORE[0]) == [0];
    ReturnAccepted(WRONG_STORE[0], STORE_THROUGH_F);
    ReturnAccepted(WRONG_STORE[1], S.Var(0));
    ProgramAccepted(WRONG_STORE);
  }

  lemma StoreMain()
    ensures RootOk(STORE_THROUGH_F, [0]) && CallsF(ExprCode(STORE_THROUGH_F, R0, [0]), 80)
  {
    CallCodeOf(S.AddrOf(0), [0]);
    var call := ExprCode(S.Call("f", [S.AddrOf(0)]), R5, [0]);
    CallsFThen([I(Movi(R0, 5))], 1, call, 8);
    CallsFThen([I(Movi(R0, 5))] + call, 9, [I(St(R0, R5, 0))], 1);
    assert ExprCode(STORE_THROUGH_F, R0, [0]) == [I(Movi(R0, 5))] + call + [I(St(R0, R5, 0))];
  }

  /** What a function that returns one expression does when invoked. */
  lemma InvokeReturn(fuel: nat, prog: S.Program, lo: int, sp: int, name: string, values: seq<Word>, slots: Sem.Slots, e: S.Expr, r: Sem.Result)
    requires var i := S.FindFunction(prog, name); i.Some? && prog[i.value].body == [S.Return(e)]
    requires var f := prog[S.FindFunction(prog, name).value]; var act := Sem.Activation(prog, lo, Sem.Frame(f), sp - 16);
      && lo <= Sem.Sp(act) && Sem.HasValue(r)
      && r == Sem.Eval(fuel, act, Sem.Sp(act), e, slots + Sem.NewSlots(sp - 16, |Sem.Frame(f)|, Sem.Bound(f, values)))
    ensures Sem.Invoke(fuel, prog, lo, sp, name, values, slots) == Sem.Done(r.value, Sem.Keep(r.slots, slots))
  {
    hide Sem.Eval, Sem.NewSlots, Sem.ExecAll, Sem.Keep;
    var f := prog[S.FindFunction(prog, name).value];
    var act := Sem.Activation(prog, lo, Sem.Frame(f), sp - 16);
    LeafBody(fuel, act, e, slots + Sem.NewSlots(sp - 16, |Sem.Frame(f)|, Sem.Bound(f, values)));
  }

  lemma SumSource()
    requires S.FindFunction(WRONG_SUM, "main") == Some(0) && S.FindFunction(WRONG_SUM, "f") == Some(1)
    ensures Sem.RunMain(1, WRONG_SUM, 0, 64) == Sem.Done(Some(3), map[])
    ensures Parted(1, WRONG_SUM, 0, 64, S.IntLit(1), S.Call("f", []), 1, 2, 2, map[])
  {
    var main, act := WRONG_SUM[0], Sem.Activation(WRONG_SUM, 0, [], 48);
    assert Sem.Frame(main) == [] && Sem.NewSlots(48, 0, []) == map[];
    InvokeReturn(0, WRONG_SUM, 0, 48, "f", [], map[], S.IntLit(2), Sem.Done(Some(2), map[]));
    assert Sem.Eval(1, act, 48, S.Call("f", []), map[]) == Sem.Done(Some(2), map[]);
    assert Sem.Eval(1, act, 48, ONE_PLUS_F, map[]) == Sem.Done(Some(3), map[]);
    InvokeReturn(1, WRONG_SUM, 0, 64, "main", [], map[], ONE_PLUS_F, Sem.Done(Some(3), map[]));
  }

  /** Accepted, defined and in range, yet the source returns 3 and the machine halts with 4. */
  lemma SumMiscompiled(codeObject: int, generation: int, s: State)
    requires Boot(s, 0, 64)
    ensures ProgramOk(WRONG_SUM) && ProgramFits(WRONG_SUM) && !SafeProgram(WRONG_SUM)
    ensures Sem.RunMain(1, WRONG_SUM, 0, 64) == Sem.Done(Some(3), map[])
    ensures HaltsExactly(Compiled(WRONG_SUM, codeObject, generation), s, 4)
  {
    hide ProgramOk, ProgramFits, Sem.Invoke, Sem.RunMain, HaltsExactly, Sem.Eval, Agree, HaltsWith;
    SumAccepted();
    SumSource();
    var names := iset{"f"};
    assert SafeFunctions(WRONG_SUM, names);
    assert !SafeBody(WRONG_SUM[0].body, EVERYTHING);
    var a, u, v, slots := ReturnedOperation(WRONG_SUM, names, 0, 64, codeObject, generation, s, 1, ONE_PLUS_F);
  }

  lemma InitialiserSource()
    requires S.FindFunction(WRONG_INITIALISER, "main") == Some(0) && S.FindFunction(WRONG_INITIALISER, "f") == Some(1)
    ensures Sem.RunMain(1, WRONG_INITIALISER, 0, 64).Done? && Sem.RunMain(1, WRONG_INITIALISER, 0, 64).value == Some(3)
    ensures Initialised(1, WRONG_INITIALISER, 0, 64, ONE_PLUS_F_OF_5, 1, [5], 2, map[40 := None])
  {
    hide Sem.Eval, Sem.EvalArgs, Sem.ExecAll, Sem.Exec;
    var act := Sem.Activation(WRONG_INITIALISER, 0, [0], 48);
    var slots: Sem.Slots := map[40 := None];
    assert Sem.Frame(WRONG_INITIALISER[0]) == [0] && Sem.NewSlots(48, 0, []) == map[] && Sem.NewSlots(48, 1, []) == slots;
    assert map[] + slots == slots;
    InitialiserCall();
    InitialiserValue(act, slots);
    DeclareBody(1, act, 0, ONE_PLUS_F_OF_5, slots);
  }

  lemma InitialiserValue(act: Sem.Activation, slots: Sem.Slots)
    requires Sem.Eval(1, act, 40, S.Call("f", [S.IntLit(5)]), slots) == Sem.Done(Some(2), slots)
    ensures Sem.Eval(1, act, 40, S.IntLit(1), slots) == Sem.Done(Some(1), slots)
    ensures Sem.Eval(1, act, 40, ONE_PLUS_F_OF_5, slots) == Sem.Done(Some(3), slots)
  {
    SlotSteps(1, act, 40, ONE_PLUS_F_OF_5, S.IntLit(1), S.Call("f", [S.IntLit(5)]), slots);
  }

  lemma InitialiserCall()
    requires S.FindFunction(WRONG_INITIALISER, "f") == Some(1)
    ensures var act := Sem.Activation(WRONG_INITIALISER, 0, [0], 48); var slots: Sem.Slots := map[40 := None];
      && Sem.EvalArgs(1, act, 40, [S.IntLit(5)], slots) == Sem.Args([5], slots)
      && Sem.Eval(1, act, 40, S.Call("f", [S.IntLit(5)]), slots) == Sem.Done(Some(2), slots)
  {
    var act := Sem.Activation(WRONG_INITIALISER, 0, [0], 48);
    var slots: Sem.Slots := map[40 := None];
    var args := [S.IntLit(5)];
    assert args[1..] == [] && Sem.EvalArgs(1, act, 32, [], slots) == Sem.Args([], slots);
    assert Sem.EvalArgs(1, act, 40, args, slots) == Sem.Args([5], slots);
    var f := WRONG_INITIALISER[1];
    assert Sem.Frame(f) == [0];
    var inner := slots + Sem.NewSlots(24, 1, Sem.Bound(f, [5]));
    InvokeReturn(0, WRONG_INITIALISER, 0, 40, "f", [5], slots, S.IntLit(2), Sem.Done(Some(2), inner));
    assert Sem.Keep(inner, slots) == slots;
  }

  /** The source returns 3; the machine halts with 7, the call's argument having replaced the 1. */
  lemma InitialiserMiscompiled(codeObject: int, generation: int, s: State)
    requires Boot(s, 0, 64)
    ensures ProgramOk(WRONG_INITIALISER) && ProgramFits(WRONG_INITIALISER) && !SafeProgram(WRONG_INITIALISER)
    ensures Sem.RunMain(1, WRONG_INITIALISER, 0, 64).Done? && Sem.RunMain(1, WRONG_INITIALISER, 0, 64).value == Some(3)
    ensures HaltsExactly(Compiled(WRONG_INITIALISER, codeObject, generation), s, 7)
  {
    hide ProgramOk, ProgramFits, Sem.Invoke, Sem.RunMain, HaltsExactly, Sem.Eval, Sem.EvalArgs, Agree, HaltsWith;
    InitialiserAccepted();
    InitialiserSource();
    var names := iset{"f"};
    assert SafeFunctions(WRONG_INITIALISER, names);
    assert !SafeBody(WRONG_INITIALISER[0].body, EVERYTHING);
    assert S.SafeCalls(ONE_PLUS_F_OF_5.rhs, names);
    var a, values, v, slots := DeclaredOperation(WRONG_INITIALISER, names, 0, 64, codeObject, generation, s, 1, 0, ONE_PLUS_F_OF_5);
  }

  lemma StoreSource()
    requires S.FindFunction(WRONG_STORE, "main") == Some(0) && S.FindFunction(WRONG_STORE, "f") == Some(1)
    ensures Sem.RunMain(1, WRONG_STORE, 0, 64) == Sem.Done(Some(5), map[])
    ensures Parted(1, WRONG_STORE, 0, 64, S.IntLit(5), S.Call("f", [S.AddrOf(0)]), 5, 40, 40, map[40 := None])
  {
    hide Sem.Eval, Sem.ExecAll, Sem.Exec;
    var act := Sem.Activation(WRONG_STORE, 0, [0], 48);
    var slots: Sem.Slots := map[40 := None];
    assert Sem.Frame(WRONG_STORE[0]) == [0] && Sem.NewSlots(48, 0, []) == map[] && Sem.NewSlots(48, 1, []) == slots;
    assert map[] + slots == slots;
    StoreCall();
    StoreValue(act, slots);
    InvokeReturn(1, WRONG_STORE, 0, 64, "main", [], map[], STORE_THROUGH_F, Sem.Done(Some(5), slots[40 := Some(5)]));
  }

  lemma StoreValue(act: Sem.Activation, slots: Sem.Slots)
    requires 40 in slots && Sem.Eval(1, act, 40, S.Call("f", [S.AddrOf(0)]), slots) == Sem.Done(Some(40), slots)
    ensures Sem.Eval(1, act, 40, S.IntLit(5), slots) == Sem.Done(Some(5), slots)
    ensures Sem.Eval(1, act, 40, STORE_THROUGH_F, slots) == Sem.Done(Some(5), slots[40 := Some(5)])
  {
    SlotSteps(1, act, 40, STORE_THROUGH_F, S.IntLit(5), S.Call("f", [S.AddrOf(0)]), slots);
  }

  lemma StoreCall()
    requires S.FindFunction(WRONG_STORE, "f") == Some(1)
    ensures var act := Sem.Activation(WRONG_STORE, 0, [0], 48); var slots: Sem.Slots := map[40 := None];
      Sem.Eval(1, act, 40, S.Call("f", [S.AddrOf(0)]), slots) == Sem.Done(Some(40), slots)
  {
    var act := Sem.Activation(WRONG_STORE, 0, [0], 48);
    var slots: Sem.Slots := map[40 := None];
    var args := [S.AddrOf(0)];
    assert args[1..] == [] && Sem.EvalArgs(1, act, 32, [], slots) == Sem.Args([], slots);
    assert Sem.EvalArgs(1, act, 40, args, slots) == Sem.Args([40], slots);
    var f := WRONG_STORE[1];
    assert Sem.Frame(f) == [0] && Sem.Bound(f, [40]) == [40];
    var inner := slots + Sem.NewSlots(24, 1, [40]);
    VarValue(0, Sem.Activation(WRONG_STORE, 0, [0], 24), 0, inner);
    InvokeReturn(0, WRONG_STORE, 0, 40, "f", [40], slots, S.Var(0), Sem.Done(Some(40), inner));
    assert Sem.Keep(inner, slots) == slots;
  }

  /** The source stores and returns 5; the machine stores and returns the address. */
  lemma StoreMiscompiled(codeObject: int, generation: int, s: State)
    requires Boot(s, 0, 64)
    ensures ProgramOk(WRONG_STORE) && ProgramFits(WRONG_STORE) && !SafeProgram(WRONG_STORE)
    ensures Sem.RunMain(1, WRONG_STORE, 0, 64) == Sem.Done(Some(5), map[])
    ensures HaltsExactly(Compiled(WRONG_STORE, codeObject, generation), s, 40)
  {
    hide ProgramOk, ProgramFits, Sem.Invoke, Sem.RunMain, HaltsExactly, Sem.Eval, HaltsWith;
    StoreAccepted();
    StoreSource();
    var names := iset{"f"};
    assert SafeFunctions(WRONG_STORE, names);
    assert !SafeBody(WRONG_STORE[0].body, EVERYTHING);
    assert S.SafeCalls(STORE_THROUGH_F.ptr, names);
    var a, u, v, slots := ReturnedStore(WRONG_STORE, names, 0, 64, codeObject, generation, s, 1, STORE_THROUGH_F);
  }
}
