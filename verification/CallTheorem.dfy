/** Programs outside the compiler theorem: what they halt with, and exactly when that is right. */

module CallTheorem {
  import opened Words
  import opened Memory
  import opened Machine
  import opened Code
  import opened ExprProof
  import opened Stack
  import opened ProgramProof
  import opened Operands
  import opened CallPositions
  import opened CompilerTheorem
  import S = Syntax
  import Sem = Semantics

  function Compiled(prog: S.Program, codeObject: int, generation: int): Text
    requires ProgramOk(prog)
  {
    Text(ProgramCode(prog), codeObject, generation)
  }

  /** Accepted by the compiler, with every function named in `names` inside the supported positions. */
  ghost predicate Accepted(prog: S.Program, names: iset<string>, lo: int, hi: int, s: State) {
    && ProgramOk(prog) && ProgramFits(prog) && SafeFunctions(prog, names)
    && Boot(s, lo, hi) && 0 <= lo <= hi < TWO64 && lo % 8 == 0 && hi % 8 == 0
  }

  function MainOf(prog: S.Program): S.Function
    requires S.FindFunction(prog, "main").Some?
  {
    prog[S.FindFunction(prog, "main").value]
  }

  function MainAct(prog: S.Program, lo: int, hi: int): Sem.Activation
    requires S.FindFunction(prog, "main").Some?
  {
    Sem.Activation(prog, lo, Sem.Frame(MainOf(prog)), hi - 16)
  }

  function MainSlots(prog: S.Program, hi: int): Sem.Slots
    requires S.FindFunction(prog, "main").Some?
  {
    Sem.NewSlots(hi - 16, |Sem.Frame(MainOf(prog))|, [])
  }

  /** The text halts, with v in R0 and no other value. */
  ghost predicate HaltsExactly(t: Text, s: State, v: Word) {
    forall w: Word :: HaltsWith(t, s, w) <==> w == v
  }

  lemma HaltsOnce(t: Text, s: State, n: nat)
    requires Run(t, s, n).Halted?
    ensures HaltsExactly(t, s, Run(t, s, n).s.regs[R0])
  {
    hide Run;
    forall w: Word | HaltsWith(t, s, w) ensures w == Run(t, s, n).s.regs[R0] {
      var m: nat :| Run(t, s, m).Halted? && Run(t, s, m).s.regs[R0] == w;
      if m <= n {
        RunIsFinal(t, s, m, n);
      } else {
        RunIsFinal(t, s, n, m);
      }
    }
  }

  /** Everything before main's body. */
  ghost predicate Entered(prog: S.Program, names: iset<string>, lo: int, hi: int, codeObject: int, generation: int, s: State, n: nat, base: int)
    requires ProgramOk(prog) && S.FindFunction(prog, "main").Some?
  {
    var env := LinkedEnv(prog, names, lo, hi, codeObject, generation);
    var f := MainOf(prog);
    && Run(env.t, s, n).Next?
    && ExecPre(env, MainAct(prog, lo, hi), MainSlots(prog, hi), Run(env.t, s, n).s, base, s.regs[FP], 1, [])
    && FunctionOk(f) && StmtsFit(f.body, Sem.Frame(f))
    && Placed(env.t, env.entries, base, StmtsCode(f.body, Sem.Frame(f)))
    && Placed(env.t, env.entries, 1, [I(Halt)])
  }

  lemma MainEnter(prog: S.Program, names: iset<string>, lo: int, hi: int, codeObject: int, generation: int, s: State) returns (n: nat, base: int)
    requires Accepted(prog, names, lo, hi, s) && S.FindFunction(prog, "main").Some?
    requires lo <= hi - 16 - 8 * |Sem.Frame(MainOf(prog))|
    ensures Entered(prog, names, lo, hi, codeObject, generation, s, n, base)
  {
    hide Run, Placed, Load, Ready, Saved, ProgramCode, EntryTable, ProgramOk, ProgramFits, SafeFunctions, Prologue, StmtsCode, Epilogue, Sem.NewSlots;
    ProgramIsLinked(prog, names, lo, hi, codeObject, generation);
    var env := LinkedEnv(prog, names, lo, hi, codeObject, generation);
    var f := MainOf(prog);
    assert StartCode() == [CallTo("main")] + [I(Halt)];
    PlacedSplit(env.t, env.entries, 0, [CallTo("main")], [I(Halt)]);
    CallStep(env, hi, map[], s, "main", []);
    var s1 := Run(env.t, s, 1).s;
    assert FunctionLinked(env, "main");
    var body, epi := StmtsCode(f.body, Sem.Frame(f)), if f.isVoid then Epilogue() else [];
    PlacedSplit(env.t, env.entries, s1.pc, Prologue(f), body + epi);
    base := s1.pc + |Prologue(f)|;
    PlacedSplit(env.t, env.entries, base, body, epi);
    var m := PrologueRuns(env, hi, map[], s1, "main", [], 1, f);
    RunThen(env.t, s, 1, m);
    n := 1 + m;
    assert map[] + MainSlots(prog, hi) == MainSlots(prog, hi);
  }

  /** main's returned value, once it stands in R0, is what the machine halts with. */
  lemma ReturnHalts(env: Env, act: Sem.Activation, slots: Sem.Slots, s: State, n: nat, base: int, k: nat, mid: int, w: Word, slots1: Sem.Slots, fp: Word)
    requires Run(env.t, s, n).Next? && ExecPre(env, act, slots, Run(env.t, s, n).s, base, fp, 1, [])
    requires var s1 := Run(env.t, s, n).s;
      Run(env.t, s1, k).Next? && ExprDone(env, Sem.Sp(act), slots, s1, Run(env.t, s1, k).s, mid, R0, Some(w), slots1)
    requires Placed(env.t, env.entries, mid, Epilogue()) && Placed(env.t, env.entries, 1, [I(Halt)])
    ensures HaltsExactly(env.t, s, w)
  {
    hide Run, Placed, Load, Linked, Ready, Saved, ExprDone, Epilogue, HaltsExactly;
    var s1 := Run(env.t, s, n).s;
    var s2 := Run(env.t, s1, k).s;
    RunThen(env.t, s, n, k);
    DoneFacts(env, Sem.Sp(act), slots, s1, s2, mid, R0, Some(w), slots1);
    Weaken(env, Sem.Sp(act), slots, s1, s2, mid, R0, Some(w), slots1);
    StillFramed(env, act, slots, s1, s2, mid, slots1, fp, 1, []);
    EpilogueRuns(env, act, Sem.Sp(act), slots1, s2, mid, fp, 1, []);
    RunThen(env.t, s, n + k, 5);
    RunMore(env.t, env.entries, 1, Halt, s, n + k + 5);
    HaltsOnce(env.t, s, n + k + 6);
  }

  /** main is one return of an operation, or of a store, whose second part calls. */
  ghost predicate ReturnsUnsafe(prog: S.Program, names: iset<string>, e: S.Expr, x: S.Expr, y: S.Expr) {
    && S.FindFunction(prog, "main").Some? && MainOf(prog).body == [S.Return(e)]
    && ((e.BinOp? && x == e.lhs && y == e.rhs) || (e.DerefAssign? && x == e.val && y == e.ptr))
    && S.SafeCalls(x, names) && S.SafeCalls(y, names) && !S.CallFree(y)
  }

  /** What the two parts of main's returned expression evaluate to: a, then v, whose first call gave u. */
  ghost predicate Parted(fuel: nat, prog: S.Program, lo: int, hi: int, x: S.Expr, y: S.Expr, a: Word, u: Word, v: Word, slots: Sem.Slots)
    requires S.FindFunction(prog, "main").Some?
  {
    var act := MainAct(prog, lo, hi);
    var rx := Sem.Eval(fuel, act, Sem.Sp(act), x, MainSlots(prog, hi));
    && Sem.HasValue(rx) && rx.value.value == a
    && Sem.Eval(fuel, act, Sem.Sp(act), y, rx.slots) == Sem.Done(Some(v), slots)
    && var ru := Sem.Eval(fuel, act, Sem.Sp(act), SpineCall(y), rx.slots);
       Sem.HasValue(ru) && ru.value.value == u
  }

  /** The code of a returned expression stands before an epilogue. */
  lemma ReturnedCode(env: Env, base: int, f: S.Function, e: S.Expr)
    requires f.body == [S.Return(e)] && StmtsOk(f.body, Sem.Frame(f))
    requires Placed(env.t, env.entries, base, StmtsCode(f.body, Sem.Frame(f)))
    ensures RootOk(e, Sem.Frame(f))
    ensures Placed(env.t, env.entries, base, ExprCode(e, R0, Sem.Frame(f)))
    ensures Placed(env.t, env.entries, base + |ExprCode(e, R0, Sem.Frame(f))|, Epilogue())
  {
    hide Placed, ExprCode, Epilogue;
    assert StmtOk(f.body[0], Sem.Frame(f)) && f.body[1..] == [];
    var code := ExprCode(e, R0, Sem.Frame(f));
    assert StmtsCode(f.body, Sem.Frame(f)) == StmtCode(f.body[0], Sem.Frame(f)) + [];
    assert StmtsCode(f.body, Sem.Frame(f)) == code + Epilogue();
    PlacedSplit(env.t, env.entries, base, code, Epilogue());
  }

  /** main's result is its returned expression's. */
  lemma MainReturns(fuel: nat, prog: S.Program, lo: int, hi: int, e: S.Expr)
    requires S.FindFunction(prog, "main").Some? && MainOf(prog).body == [S.Return(e)]
    requires Sem.RunMain(fuel, prog, lo, hi).Done?
    ensures lo <= hi - 16 - 8 * |Sem.Frame(MainOf(prog))|
    ensures var act := MainAct(prog, lo, hi); var r := Sem.Eval(fuel, act, Sem.Sp(act), e, MainSlots(prog, hi));
      Sem.HasValue(r) && Sem.RunMain(fuel, prog, lo, hi).value == r.value
  {
    hide Sem.Eval, Sem.NewSlots;
    assert map[] + MainSlots(prog, hi) == MainSlots(prog, hi);
    LeafBody(fuel, MainAct(prog, lo, hi), e, MainSlots(prog, hi));
  }

  /** `return l op r` where r calls: the source returns a op v, the compiled program halts with u op v,
      and the two are the same exactly when the operator cannot tell a from u next to v. */
  lemma ReturnedOperation(prog: S.Program, names: iset<string>, lo: int, hi: int, codeObject: int, generation: int, s: State, fuel: nat, e: S.Expr)
    returns (a: Word, u: Word, v: Word, slots: Sem.Slots)
    requires Accepted(prog, names, lo, hi, s) && e.BinOp? && ReturnsUnsafe(prog, names, e, e.lhs, e.rhs)
    requires Sem.RunMain(fuel, prog, lo, hi).Done?
    ensures Parted(fuel, prog, lo, hi, e.lhs, e.rhs, a, u, v, slots)
    ensures Sem.RunMain(fuel, prog, lo, hi).value == Some(Sem.BinVal(e.op, a, v))
    ensures HaltsExactly(Compiled(prog, codeObject, generation), s, Sem.BinVal(e.op, u, v))
    ensures HaltsWith(Compiled(prog, codeObject, generation), s, Sem.BinVal(e.op, a, v)) <==> Agree(e.op, a, u, v)
    ensures e.rhs.Call? ==> u == v && (Agree(e.op, a, u, v) <==> AgreeWithRight(e.op, a, v))
  {
    hide Run, Placed, Load, Linked, Ready, Saved, ExprDone, ExprCode, StmtsCode, Epilogue, ProgramCode, EntryTable, ProgramOk, ProgramFits,
      SafeFunctions, Sem.Eval, Sem.BinVal, Sem.NewSlots, Sem.RunMain, Agree, AgreeWithRight, HaltsWith;
    MainReturns(fuel, prog, lo, hi, e);
    var env := LinkedEnv(prog, names, lo, hi, codeObject, generation);
    var act, slots0 := MainAct(prog, lo, hi), MainSlots(prog, hi);
    SlotSteps(fuel, act, Sem.Sp(act), e, e.lhs, e.rhs, slots0);
    var ra := Sem.Eval(fuel, act, Sem.Sp(act), e.lhs, slots0);
    var rv := Sem.Eval(fuel, act, Sem.Sp(act), e.rhs, ra.slots);
    var n, base := MainEnter(prog, names, lo, hi, codeObject, generation, s);
    ReturnedCode(env, base, MainOf(prog), e);
    var k := RightOperandReturned(env, fuel, act, slots0, Run(env.t, s, n).s, base, e);
    var ru := Sem.Eval(fuel, act, Sem.Sp(act), SpineCall(e.rhs), ra.slots);
    a, u, v, slots := ra.value.value, ru.value.value, rv.value.value, rv.slots;
    ReturnHalts(env, act, slots0, s, n, base, k, base + |ExprCode(e, R0, act.frame)|, Sem.BinVal(e.op, u, v), slots, s.regs[FP]);
    AgreeIff(e.op, a, u, v);
    DirectCallAgrees(e.op, a, v);
  }

  /** `return *p = l` where p calls: the source returns a, the compiled program halts with u, the value of
      the pointer's first call. */
  lemma ReturnedStore(prog: S.Program, names: iset<string>, lo: int, hi: int, codeObject: int, generation: int, s: State, fuel: nat, e: S.Expr)
    returns (a: Word, u: Word, v: Word, slots: Sem.Slots)
    requires Accepted(prog, names, lo, hi, s) && e.DerefAssign? && ReturnsUnsafe(prog, names, e, e.val, e.ptr)
    requires Sem.RunMain(fuel, prog, lo, hi).Done?
    ensures Parted(fuel, prog, lo, hi, e.val, e.ptr, a, u, v, slots)
    ensures Sem.RunMain(fuel, prog, lo, hi).value == Some(a)
    ensures HaltsExactly(Compiled(prog, codeObject, generation), s, u)
    ensures HaltsWith(Compiled(prog, codeObject, generation), s, a) <==> a == u
  {
    hide Run, Placed, Load, Linked, Ready, Saved, ExprDone, ExprCode, StmtsCode, Epilogue, ProgramCode, EntryTable, ProgramOk, ProgramFits,
      SafeFunctions, Sem.Eval, Sem.NewSlots, Sem.RunMain, HaltsWith;
    MainReturns(fuel, prog, lo, hi, e);
    var env := LinkedEnv(prog, names, lo, hi, codeObject, generation);
    var act, slots0 := MainAct(prog, lo, hi), MainSlots(prog, hi);
    SlotSteps(fuel, act, Sem.Sp(act), e, e.val, e.ptr, slots0);
    var ra := Sem.Eval(fuel, act, Sem.Sp(act), e.val, slots0);
    var rv := Sem.Eval(fuel, act, Sem.Sp(act), e.ptr, ra.slots);
    var n, base := MainEnter(prog, names, lo, hi, codeObject, generation, s);
    ReturnedCode(env, base, MainOf(prog), e);
    var k := PointerReturned(env, fuel, act, slots0, Run(env.t, s, n).s, base, e);
    var ru := Sem.Eval(fuel, act, Sem.Sp(act), SpineCall(e.ptr), ra.slots);
    a, u, v, slots := ra.value.value, ru.value.value, rv.value.value, rv.slots;
    ReturnHalts(env, act, slots0, s, n, base, k, base + |ExprCode(e, R0, act.frame)|, u, slots[v := Some(u)], s.regs[FP]);
  }

  // ---- Into R4 ----

  /** main declares x with an operation whose right operand is a call of a leaf, and returns x. */
  ghost predicate DeclaresUnsafe(prog: S.Program, names: iset<string>, x: S.VarId, e: S.Expr) {
    && S.FindFunction(prog, "main").Some?
    && MainOf(prog).body == [S.VarDecl(x, Some(e)), S.Return(S.Var(x))]
    && e.BinOp? && S.SafeCalls(e.lhs, names) && S.SafeCalls(e.rhs, names)
    && e.rhs.Call? && Leaf(prog, e.rhs.name)
  }

  /** What the initialiser evaluates to: a, then v from a call whose arguments were `values`. */
  ghost predicate Initialised(fuel: nat, prog: S.Program, lo: int, hi: int, e: S.Expr, a: Word, values: seq<Word>, v: Word, slots: Sem.Slots)
    requires S.FindFunction(prog, "main").Some? && e.BinOp? && e.rhs.Call?
  {
    var act := MainAct(prog, lo, hi);
    var ra := Sem.Eval(fuel, act, Sem.Sp(act), e.lhs, MainSlots(prog, hi));
    && Sem.HasValue(ra) && ra.value.value == a
    && (var args := Sem.EvalArgs(fuel, act, Sem.Sp(act), e.rhs.args, ra.slots); args.Args? && args.values == values)
    && Sem.Eval(fuel, act, Sem.Sp(act), e.rhs, ra.slots) == Sem.Done(Some(v), slots)
  }

  lemma DeclaredCode(env: Env, base: int, f: S.Function, x: S.VarId, e: S.Expr)
    requires f.body == [S.VarDecl(x, Some(e)), S.Return(S.Var(x))] && StmtsOk(f.body, Sem.Frame(f))
    requires Placed(env.t, env.entries, base, StmtsCode(f.body, Sem.Frame(f)))
    ensures RootOk(e, Sem.Frame(f)) && x in Sem.Frame(f) && ExprOk(S.Var(x), Sem.Frame(f))
    ensures var frame := Sem.Frame(f); var code := ExprCode(e, R4, frame);
      && Placed(env.t, env.entries, base, code)
      && Placed(env.t, env.entries, base + |code|, [I(St(R4, FP, Offset(frame, x)))])
      && Placed(env.t, env.entries, base + |code| + 1, ExprCode(S.Var(x), R0, frame))
      && Placed(env.t, env.entries, base + |code| + 1 + |ExprCode(S.Var(x), R0, frame)|, Epilogue())
  {
    hide Placed, ExprCode, Epilogue;
    var frame := Sem.Frame(f);
    assert StmtOk(f.body[0], frame) && f.body[1..] == [S.Return(S.Var(x))] && StmtOk(f.body[1..][0], frame) && f.body[1..][1..] == [];
    var code, st, ret := ExprCode(e, R4, frame), [I(St(R4, FP, Offset(frame, x)))], ExprCode(S.Var(x), R0, frame);
    assert StmtsCode(f.body[1..], frame) == ret + Epilogue();
    assert StmtsCode(f.body, frame) == code + (st + (ret + Epilogue()));
    PlacedSplit(env.t, env.entries, base, code, st + (ret + Epilogue()));
    PlacedSplit(env.t, env.entries, base + |code|, st, ret + Epilogue());
    PlacedSplit(env.t, env.entries, base + |code| + 1, ret, Epilogue());
  }

  /** main's result is its initialiser's. */
  lemma MainDeclares(fuel: nat, prog: S.Program, lo: int, hi: int, x: S.VarId, e: S.Expr)
    requires S.FindFunction(prog, "main").Some?
    requires MainOf(prog).body == [S.VarDecl(x, Some(e)), S.Return(S.Var(x))]
    requires Sem.RunMain(fuel, prog, lo, hi).Done?
    ensures lo <= hi - 16 - 8 * |Sem.Frame(MainOf(prog))|
    ensures var act := MainAct(prog, lo, hi); var r := Sem.Eval(fuel, act, Sem.Sp(act), e, MainSlots(prog, hi));
      && Sem.HasValue(r) && Sem.RunMain(fuel, prog, lo, hi).value == r.value
      && x in act.frame && Sem.Slot(act, x) in r.slots
  {
    hide Sem.Eval, Sem.NewSlots, Sem.ExecAll, Sem.Exec;
    var act, slots := MainAct(prog, lo, hi), MainSlots(prog, hi);
    assert map[] + slots == slots;
    DeclareBody(fuel, act, x, e, slots);
  }

  lemma DeclareBody(fuel: nat, act: Sem.Activation, x: S.VarId, e: S.Expr, slots: Sem.Slots)
    ensures var o := Sem.ExecAll(fuel, act, [S.VarDecl(x, Some(e)), S.Return(S.Var(x))], slots);
      var r := Sem.Eval(fuel, act, Sem.Sp(act), e, slots);
      && !o.Normal?
      && (o.Returned? <==> Sem.HasValue(r) && x in act.frame && Sem.Slot(act, x) in r.slots)
      && (o.Returned? ==> o.value == r.value.value)
  {
    hide Sem.Eval;
    var body := [S.VarDecl(x, Some(e)), S.Return(S.Var(x))];
    assert body[0] == S.VarDecl(x, Some(e)) && body[1..] == [S.Return(S.Var(x))];
    var o := Sem.Exec(fuel, act, body[0], slots);
    if o.Normal? {
      LeafBody(fuel, act, S.Var(x), o.slots);
      VarValue(fuel, act, x, o.slots);
    }
  }

  lemma VarValue(fuel: nat, act: Sem.Activation, x: S.VarId, slots: Sem.Slots)
    requires x in act.frame
    ensures Sem.Eval(fuel, act, Sem.Sp(act), S.Var(x), slots) == Sem.ReadSlot(slots, Sem.Slot(act, x))
  {
  }

  /** The initialiser's value is stored to x and loaded back. */
  lemma DeclareRuns(env: Env, fuel: nat, act: Sem.Activation, slots: Sem.Slots, s: State, base: int, k: nat, mid: int, x: S.VarId, w: Word, slots1: Sem.Slots) returns (n: nat)
    requires Linked(env) && Ready(env, act, Sem.Sp(act), slots, s)
    requires Run(env.t, s, k).Next? && ExprDone(env, Sem.Sp(act), slots, s, Run(env.t, s, k).s, mid, R4, Some(w), slots1)
    requires x in act.frame && Sem.Slot(act, x) in slots1 && ExprOk(S.Var(x), act.frame)
    requires Placed(env.t, env.entries, mid, [I(St(R4, FP, Offset(act.frame, x)))])
    requires Placed(env.t, env.entries, mid + 1, ExprCode(S.Var(x), R0, act.frame))
    ensures Run(env.t, s, n).Next?
    ensures ExprDone(env, Sem.Sp(act), slots, s, Run(env.t, s, n).s, mid + 1 + |ExprCode(S.Var(x), R0, act.frame)|, R0, Some(w),
                     slots1[Sem.Slot(act, x) := Some(w)])
  {
    hide Run, Placed, Load, Store, Linked, Ready, ExprDone, ExprCode, Sem.Eval;
    var sp, slot, s1 := Sem.Sp(act), Sem.Slot(act, x), Run(env.t, s, k).s;
    StillReady(env, act, sp, slots, s, s1, mid, R4, Some(w), slots1);
    DoneFacts(env, sp, slots, s, s1, mid, R4, Some(w), slots1);
    SlotMapped(env, act, sp, slots1, s1, slot);
    SaveRuns(env.t, env.entries, mid, R4, FP, Offset(act.frame, x), s, k);
    var s2 := Run(env.t, s, k + 1).s;
    var slots2 := slots1[slot := Some(w)];
    DoneStore(env, act, sp, slots, s, s1, mid, R4, Some(w), slots1, s2, slot, R4, w);
    StillReady(env, act, sp, slots, s, s2, mid + 1, R4, Some(w), slots2);
    DoneFacts(env, sp, slots, s, s2, mid + 1, R4, Some(w), slots2);
    var m := PureRuns(env, fuel, act, sp, slots2, s2, mid + 1, S.Var(x), R0);
    VarValue(fuel, act, x, slots2);
    RunThen(env.t, s, k + 1, m);
    n := k + 1 + m;
    DoneTrans(env, sp, slots, s, s2, mid + 1, R4, Some(w), slots2, Run(env.t, s, n).s, mid + 1 + |ExprCode(S.Var(x), R0, act.frame)|, R0, Some(w), slots2);
  }

  /** `x = l op f(..)` where f is a leaf: the source gives a op v, the compiled program c op v, where c is
      f's last argument, or a itself when f has none. */
  lemma DeclaredOperation(prog: S.Program, names: iset<string>, lo: int, hi: int, codeObject: int, generation: int, s: State, fuel: nat, x: S.VarId, e: S.Expr)
    returns (a: Word, values: seq<Word>, v: Word, slots: Sem.Slots)
    requires Accepted(prog, names, lo, hi, s) && DeclaresUnsafe(prog, names, x, e)
    requires Sem.RunMain(fuel, prog, lo, hi).Done?
    ensures Initialised(fuel, prog, lo, hi, e, a, values, v, slots)
    ensures Sem.RunMain(fuel, prog, lo, hi).value == Some(Sem.BinVal(e.op, a, v))
    ensures HaltsExactly(Compiled(prog, codeObject, generation), s, Sem.BinVal(e.op, AfterArgs(a, values), v))
    ensures HaltsWith(Compiled(prog, codeObject, generation), s, Sem.BinVal(e.op, a, v)) <==> Agree(e.op, a, AfterArgs(a, values), v)
  {
    hide Run, Placed, Load, Linked, Ready, Saved, ExprDone, ExprCode, StmtsCode, Epilogue, ProgramCode, EntryTable, ProgramOk, ProgramFits,
      SafeFunctions, Sem.Eval, Sem.EvalArgs, Sem.BinVal, Sem.NewSlots, Sem.RunMain, Agree, HaltsWith, AfterArgs;
    MainDeclares(fuel, prog, lo, hi, x, e);
    var env := LinkedEnv(prog, names, lo, hi, codeObject, generation);
    var act, slots0 := MainAct(prog, lo, hi), MainSlots(prog, hi);
    SlotSteps(fuel, act, Sem.Sp(act), e, e.lhs, e.rhs, slots0);
    var ra := Sem.Eval(fuel, act, Sem.Sp(act), e.lhs, slots0);
    var rv := Sem.Eval(fuel, act, Sem.Sp(act), e.rhs, ra.slots);
    var n, base := MainEnter(prog, names, lo, hi, codeObject, generation, s);
    DeclaredCode(env, base, MainOf(prog), x, e);
    var s1, mid := Run(env.t, s, n).s, base + |ExprCode(e, R4, act.frame)|;
    var k := RightOperandLeaf(env, fuel, act, slots0, s1, base, e);
    a, v, slots := ra.value.value, rv.value.value, rv.slots;
    values := Sem.EvalArgs(fuel, act, Sem.Sp(act), e.rhs.args, ra.slots).values;
    var w := Sem.BinVal(e.op, AfterArgs(a, values), v);
    var m := DeclareRuns(env, fuel, act, slots0, s1, base, k, mid, x, w, slots);
    ReturnHalts(env, act, slots0, s, n, base, m, mid + 1 + |ExprCode(S.Var(x), R0, act.frame)|, w, slots[Sem.Slot(act, x) := Some(w)], s.regs[FP]);
    AgreeIff(e.op, a, AfterArgs(a, values), v);
  }
}
