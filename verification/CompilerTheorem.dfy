/** The compiled program halts with a value exactly when the source program returns it. */

module CompilerTheorem {
  import opened Words
  import opened Memory
  import opened Machine
  import opened Code
  import opened ExprProof
  import opened Stack
  import opened ProgramProof
  import S = Syntax
  import Sem = Semantics

  /** Every function with one of the names calls only such functions, in supported positions. */
  ghost predicate SafeFunctions(prog: S.Program, names: iset<string>) {
    forall i :: 0 <= i < |prog| && prog[i].name in names ==> SafeBody(prog[i].body, names)
  }

  ghost const EVERYTHING: iset<string> := iset name: string | true

  ghost predicate SafeProgram(prog: S.Program) {
    SafeFunctions(prog, EVERYTHING)
  }

  /** A program the compiler accepts, within the backend's call positions and branch range. */
  ghost predicate Compilable(prog: S.Program) {
    ProgramOk(prog) && SafeProgram(prog) && ProgramFits(prog)
  }

  function Names(prog: S.Program): set<string> {
    set i | 0 <= i < |prog| :: prog[i].name
  }

  lemma {:induction false} FirstFound(prog: S.Program, name: string)
    ensures S.FindFunction(prog, name).Some? <==> name in Names(prog)
  {
    if prog != [] {
      FirstFound(prog[1..], name);
      assert forall i :: 0 <= i < |prog| - 1 ==> prog[1..][i] == prog[i + 1];
      if name in Names(prog) && prog[0].name != name {
        var i :| 0 <= i < |prog| && prog[i].name == name;
        assert prog[1..][i - 1].name in Names(prog[1..]);
      }
      if name in Names(prog[1..]) {
        var i :| 0 <= i < |prog[1..]| && prog[1..][i].name == name;
        assert prog[i + 1].name in Names(prog);
      }
    }
  }

  function EntryTable(prog: S.Program): Entries
    requires FunctionsOk(prog)
  {
    map name | name in Names(prog) ::
      FirstFound(prog, name);
      Entry(prog, S.FindFunction(prog, name).value)
  }

  function LinkedEnv(prog: S.Program, names: iset<string>, lo: int, hi: int, codeObject: int, generation: int): Env
    requires ProgramOk(prog)
  {
    Env(Text(ProgramCode(prog), codeObject, generation), EntryTable(prog), prog, names, lo, hi)
  }

  lemma {:induction false} FunctionsOkAt(fs: S.Program, i: nat)
    requires FunctionsOk(fs) && i < |fs|
    ensures FunctionOk(fs[i])
  {
    if i > 0 {
      FunctionsOkAt(fs[1..], i - 1);
    }
  }

  /** Function i's code occupies the words from its entry. */
  lemma {:induction false} EntryAt(fs: S.Program, i: nat)
    requires FunctionsOk(fs) && i < |fs| && FunctionOk(fs[i])
    ensures var e, code := Entry(fs, i) - 2, FunctionCode(fs[i]);
      0 <= e && e + |code| <= |FunctionsCode(fs)| && FunctionsCode(fs)[e..e + |code|] == code
  {
    hide FunctionCode;
    if i > 0 {
      EntryAt(fs[1..], i - 1);
      var head, tail := FunctionCode(fs[0]), FunctionsCode(fs[1..]);
      var e, code := Entry(fs[1..], i - 1) - 2, FunctionCode(fs[i]);
      assert (head + tail)[|head| + e..|head| + e + |code|] == tail[e..e + |code|];
    }
  }

  lemma SlicePlaced(prog: S.Program, t: Text, base: int, items: Items)
    requires ProgramOk(prog) && ProgramFits(prog) && t.code == ProgramCode(prog)
    requires var all := StartCode() + FunctionsCode(prog);
      0 <= base && base + |items| <= |all| && all[base..base + |items|] == items
    ensures Placed(t, EntryTable(prog), base, items)
  {
    var all := StartCode() + FunctionsCode(prog);
    forall i | 0 <= i < |items| ensures Matches(EntryTable(prog), items[i], base + i, t.code[base + i]) {
      assert items[i] == all[base + i];
      if items[i].CallTo? {
        FirstFound(prog, items[i].name);
      }
    }
  }

  lemma FunctionIsLinked(prog: S.Program, env: Env, name: string)
    requires ProgramOk(prog) && ProgramFits(prog) && SafeFunctions(prog, env.safe)
    requires env.prog == prog && env.t.code == ProgramCode(prog) && env.entries == EntryTable(prog)
    ensures FunctionLinked(env, name)
  {
    hide FunctionCode, FunctionOk, ProgramCode, Placed, SafeBody;
    var r := S.FindFunction(prog, name);
    if r.Some? {
      FirstFound(prog, name);
      FunctionsOkAt(prog, r.value);
      EntryAt(prog, r.value);
      var e, code := Entry(prog, r.value), FunctionCode(prog[r.value]);
      assert (StartCode() + FunctionsCode(prog))[e..e + |code|] == FunctionsCode(prog)[e - 2..e - 2 + |code|];
      SlicePlaced(prog, env.t, e, code);
    }
  }

  lemma ProgramIsLinked(prog: S.Program, names: iset<string>, lo: int, hi: int, codeObject: int, generation: int)
    requires ProgramOk(prog) && ProgramFits(prog) && SafeFunctions(prog, names)
    requires 0 <= lo <= hi < TWO64 && lo % 8 == 0 && hi % 8 == 0
    ensures Linked(LinkedEnv(prog, names, lo, hi, codeObject, generation))
    ensures Placed(Text(ProgramCode(prog), codeObject, generation), EntryTable(prog), 0, StartCode())
  {
    hide FunctionLinked, Placed, EntryTable, SafeBody;
    var env := LinkedEnv(prog, names, lo, hi, codeObject, generation);
    forall name ensures FunctionLinked(env, name) {
      FunctionIsLinked(prog, env, name);
    }
    assert (StartCode() + FunctionsCode(prog))[0..2] == StartCode();
    SlicePlaced(prog, env.t, 0, StartCode());
  }

  /** The loader's state: PC at the start stub, SP at the stack's top, nothing to return to.
      Registers and stack contents are otherwise arbitrary. */
  predicate Boot(s: State, lo: int, hi: int) {
    s.pc == 0 && s.retStack == [] && s.regs[SP] == hi && s.mem.lo == lo && s.mem.hi == hi
  }

  /** n cycles of the compiled program against the source result with some fuel. */
  lemma MainRuns(prog: S.Program, lo: int, hi: int, codeObject: int, generation: int, s: State, fuel: nat) returns (n: nat)
    requires Compilable(prog) && Boot(s, lo, hi)
    requires 0 <= lo <= hi < TWO64 && lo % 8 == 0 && hi % 8 == 0
    ensures var t := Text(ProgramCode(prog), codeObject, generation);
      var r := Sem.RunMain(fuel, prog, lo, hi);
      && (r.OutOfFuel? ==> n >= fuel && Run(t, s, n).Next?)
      && (r.Done? ==> Run(t, s, n).Halted? && (r.value.Some? ==> Run(t, s, n).s.regs[R0] == r.value.value))
  {
    hide Run, Placed, Load, FunctionLinked, Sem.Invoke, ProgramCode, EntryTable, ProgramOk;
    ProgramIsLinked(prog, EVERYTHING, lo, hi, codeObject, generation);
    var env := LinkedEnv(prog, EVERYTHING, lo, hi, codeObject, generation);
    MainFound(prog);
    assert StartCode() == [CallTo("main")] + [I(Halt)];
    PlacedSplit(env.t, env.entries, 0, [CallTo("main")], [I(Halt)]);
    CallStep(env, hi, map[], s, "main", []);
    var s1 := Run(env.t, s, 1).s;
    var m := InvokeRuns(env, fuel, hi, map[], s1, "main", [], 1);
    RunThen(env.t, s, 1, m);
    n := 1 + m;
    if Sem.RunMain(fuel, prog, lo, hi).Done? {
      RunMore(env.t, env.entries, 1, Halt, s, n);
      n := n + 1;
    }
  }

  lemma MainFound(prog: S.Program)
    requires ProgramOk(prog)
    ensures S.FindFunction(prog, "main").Some?
  {
    assert (StartCode() + FunctionsCode(prog))[0] == CallTo("main");
  }

  /** Halting and faulting are final. */
  lemma RunIsFinal(t: Text, s: State, n: nat, m: nat)
    requires !Run(t, s, n).Next? && n <= m
    ensures Run(t, s, m) == Run(t, s, n)
  {
    RunAdd(t, s, n, m - n);
  }

  ghost predicate Returns(prog: S.Program, lo: int, hi: int, v: Word) {
    exists fuel: nat :: ReturnsWith(prog, lo, hi, v, fuel)
  }

  predicate ReturnsWith(prog: S.Program, lo: int, hi: int, v: Word, fuel: nat) {
    var r := Sem.RunMain(fuel, prog, lo, hi);
    r.Done? && r.value == Some(v)
  }

  ghost predicate HaltsWith(t: Text, s: State, v: Word) {
    exists n: nat :: Run(t, s, n).Halted? && Run(t, s, n).s.regs[R0] == v
  }

  ghost predicate WellDefined(prog: S.Program, lo: int, hi: int) {
    forall fuel: nat :: Sem.RunMain(fuel, prog, lo, hi) != Sem.Stuck
  }

  /** A value-returning function that finishes has a value. */
  lemma ReturnsValue(prog: S.Program, lo: int, hi: int, fuel: nat)
    requires S.FindFunction(prog, "main").Some? && !prog[S.FindFunction(prog, "main").value].isVoid
    ensures Sem.RunMain(fuel, prog, lo, hi).Done? ==> Sem.RunMain(fuel, prog, lo, hi).value.Some?
  {
  }

  ghost predicate Halts(t: Text, s: State) {
    exists n: nat :: Run(t, s, n).Halted?
  }

  ghost predicate Finishes(prog: S.Program, lo: int, hi: int) {
    exists fuel: nat :: Sem.RunMain(fuel, prog, lo, hi).Done?
  }

  predicate MainIsVoid(prog: S.Program) {
    var i := S.FindFunction(prog, "main");
    i.Some? && prog[i.value].isVoid
  }

  /** The main theorem, both ways: the compiled program never faults, halts exactly when main finishes,
      and, unless main is void, halts with v in R0 exactly when main returns v. */
  lemma CompilerCorrect(prog: S.Program, lo: int, hi: int, codeObject: int, generation: int, s: State, v: Word)
    requires Compilable(prog) && Boot(s, lo, hi)
    requires 0 <= lo <= hi < TWO64 && lo % 8 == 0 && hi % 8 == 0
    requires WellDefined(prog, lo, hi)
    ensures Halts(Text(ProgramCode(prog), codeObject, generation), s) <==> Finishes(prog, lo, hi)
    ensures !MainIsVoid(prog) ==>
      (HaltsWith(Text(ProgramCode(prog), codeObject, generation), s, v) <==> Returns(prog, lo, hi, v))
    ensures forall n: nat :: Run(Text(ProgramCode(prog), codeObject, generation), s, n) != StepResult.Fault
  {
    hide Run, Sem.RunMain, ProgramCode, ProgramOk, ProgramFits;
    var t := Text(ProgramCode(prog), codeObject, generation);
    MainFound(prog);
    forall n: nat | !Run(t, s, n).Next?
      ensures Run(t, s, n).Halted? && Sem.RunMain(n + 1, prog, lo, hi).Done?
      ensures !MainIsVoid(prog) ==> ReturnsWith(prog, lo, hi, Run(t, s, n).s.regs[R0], n + 1)
    {
      var m := MainRuns(prog, lo, hi, codeObject, generation, s, n + 1);
      RunIsFinal(t, s, n, if m < n then n else m);
      if m < n {
        RunIsFinal(t, s, m, n);
      }
      if !MainIsVoid(prog) {
        ReturnsValue(prog, lo, hi, n + 1);
      }
    }
    if Finishes(prog, lo, hi) {
      var fuel: nat :| Sem.RunMain(fuel, prog, lo, hi).Done?;
      var n := MainRuns(prog, lo, hi, codeObject, generation, s, fuel);
      assert Run(t, s, n).Halted?;
    }
    if Returns(prog, lo, hi, v) {
      var fuel: nat :| ReturnsWith(prog, lo, hi, v, fuel);
      var n := MainRuns(prog, lo, hi, codeObject, generation, s, fuel);
      assert Run(t, s, n).Halted? && Run(t, s, n).s.regs[R0] == v;
    }
    if HaltsWith(t, s, v) && !MainIsVoid(prog) {
      var n: nat :| Run(t, s, n).Halted? && Run(t, s, n).s.regs[R0] == v;
      assert ReturnsWith(prog, lo, hi, Run(t, s, n).s.regs[R0], n + 1);
    }
  }

  // ---- Return coverage ----

  /** A body accepted by definitely_returns never falls through. */
  lemma {:induction false} NoFallThrough(fuel: nat, act: Sem.Activation, body: seq<S.Stmt>, slots: Sem.Slots)
    requires S.DefinitelyReturns(body)
    ensures !Sem.ExecAll(fuel, act, body, slots).Normal?
    decreases body, 0
  {
    var o := Sem.Exec(fuel, act, body[0], slots);
    if S.StmtDefinitelyReturns(body[0]) {
      StmtNoFallThrough(fuel, act, body[0], slots);
    } else if o.Normal? {
      NoFallThrough(fuel, act, body[1..], o.slots);
    }
  }

  lemma {:induction false} StmtNoFallThrough(fuel: nat, act: Sem.Activation, s: S.Stmt, slots: Sem.Slots)
    requires S.StmtDefinitelyReturns(s)
    ensures !Sem.Exec(fuel, act, s, slots).Normal?
    decreases s, 1
  {
    if s.If? {
      var a := Sem.Eval(fuel, act, Sem.Sp(act), s.cond, slots);
      if Sem.HasValue(a) {
        NoFallThrough(fuel, act, s.thn, a.slots);
        NoFallThrough(fuel, act, s.els, a.slots);
      }
    }
  }

  // ---- Programs of fewer than 2^21 words always fit ----

  lemma {:induction false} SmallStmts(body: seq<S.Stmt>, frame: seq<S.VarId>)
    requires StmtsOk(body, frame) && |StmtsCode(body, frame)| < TWO21
    ensures StmtsFit(body, frame)
    decreases body, 0
  {
    hide StmtCode;
    if body != [] {
      SmallStmt(body[0], frame);
      SmallStmts(body[1..], frame);
    }
  }

  lemma {:induction false} SmallStmt(s: S.Stmt, frame: seq<S.VarId>)
    requires StmtOk(s, frame) && |StmtCode(s, frame)| < TWO21
    ensures StmtFits(s, frame)
    decreases s, 1
  {
    hide ExprCode, StmtsCode, StmtsFit;
    match s {
      case If(c, thn, els) =>
        SmallStmts(thn, frame);
        if els == [] {
          EmptyFits(frame);
        } else {
          SmallStmts(els, frame);
        }
      case While(c, body) => SmallStmts(body, frame);
      case _ =>
    }
  }

  lemma EmptyFits(frame: seq<S.VarId>)
    ensures StmtsFit([], frame)
  {
  }

  lemma {:induction false} EntryInside(fs: S.Program, i: nat)
    requires FunctionsOk(fs) && i < |fs|
    ensures FunctionOk(fs[i]) && Entry(fs, i) + |FunctionCode(fs[i])| <= 2 + |FunctionsCode(fs)|
  {
    hide FunctionCode, FunctionOk;
    if i > 0 {
      EntryInside(fs[1..], i - 1);
    }
  }

  /** A program of fewer than 2^21 words is within every branch's range. */
  lemma {:induction false} SmallProgramFits(prog: S.Program)
    requires ProgramOk(prog) && |FunctionsCode(prog)| + 2 < TWO21
    ensures ProgramFits(prog)
  {
    hide FunctionCode, StmtsFit, StmtsOk;
    forall i | 0 <= i < |prog| && FunctionOk(prog[i])
      ensures StmtsFit(prog[i].body, Sem.Frame(prog[i]))
    {
      EntryInside(prog, i);
      BodyInside(prog[i]);
      SmallStmts(prog[i].body, Sem.Frame(prog[i]));
    }
    var items := StartCode() + FunctionsCode(prog);
    forall i | 0 <= i < |items| && items[i].CallTo?
      ensures -TWO21 <= Entry(prog, S.FindFunction(prog, items[i].name).value) - i < TWO21
    {
      EntryInside(prog, S.FindFunction(prog, items[i].name).value);
    }
  }

  lemma BodyInside(f: S.Function)
    requires FunctionOk(f)
    ensures |StmtsCode(f.body, Sem.Frame(f))| <= |FunctionCode(f)|
  {
  }
}
