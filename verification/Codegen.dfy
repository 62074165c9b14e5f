/** The AnkaCC64 backend: the code it means to emit, and the emitter that appends and
    back-patches it. */

module Code {
  import opened Words
  import opened Machine
  import S = Syntax
  import Semantics

  /** An instruction, or a CALL whose target is still a name. */
  datatype Item = I(instr: Instr) | CallTo(name: string)

  type Items = seq<Item>

  const IMM18_MIN: int := -131072
  const IMM18_MAX: int := 131071

  predicate FitsImm18(v: int) {
    IMM18_MIN <= v <= IMM18_MAX
  }

  const TWO21: int := 0x20_0000
  const TWO22: int := 0x40_0000

  /** Word positions are 32-bit signed integers. */
  const MAX_WORDS: int := 0x8000_0000

  /** A branch distance as its 22-bit field is read back. */
  function Wrap22(d: int): (r: int)
    ensures -TWO21 <= r < TWO21
    ensures -TWO21 <= d < TWO21 ==> r == d
  {
    var m := d % TWO22;
    if m < TWO21 then m else m - TWO22
  }

  function Br(cond: Cond, off: int): Items {
    [I(Branch(cond, Wrap22(off)))]
  }

  function Offset(frame: seq<S.VarId>, id: S.VarId): int
    requires id in frame
  {
    -8 * (S.SlotIndex(frame, id) + 1)
  }

  function Temp(dest: Reg): Reg {
    if dest == R5 then R6 else R5
  }

  /** Everything compile_expr panics on: undefined names and unrepresentable immediates. */
  predicate ExprOk(e: S.Expr, frame: seq<S.VarId>) {
    match e
    case IntLit(n) => FitsImm18(n)
    case Var(id) => id in frame && FitsImm18(Offset(frame, id))
    case AddrOf(id) => id in frame && FitsImm18(Offset(frame, id))
    case BinOp(_, l, r) => ExprOk(l, frame) && ExprOk(r, frame)
    case Deref(p) => ExprOk(p, frame)
    case Call(_, args) => ArgsOk(args, 4, frame)
    case Assign(id, v) => ExprOk(v, frame) && id in frame && FitsImm18(Offset(frame, id))
    case DerefAssign(p, v) => ExprOk(v, frame) && ExprOk(p, frame)
  }

  /** The first n arguments compile; later ones are never looked at. */
  predicate ArgsOk(args: seq<S.Expr>, n: nat, frame: seq<S.VarId>) {
    args == [] || n == 0 || (ExprOk(args[0], frame) && ArgsOk(args[1..], n - 1, frame))
  }

  function OpCode(op: S.BinOp, dest: Reg, tmp: Reg): Items {
    match op
    case Add => [I(Alu(Add, dest, dest, tmp))]
    case Sub => [I(Alu(Sub, dest, dest, tmp))]
    case Mul => [I(Alu(Mul, dest, dest, tmp))]
    case And => [I(Alu(And, dest, dest, tmp))]
    case Or => [I(Alu(Or, dest, dest, tmp))]
    case Shl => [I(Alu(Shl, dest, dest, tmp))]
    case Shr => [I(Alu(Shr, dest, dest, tmp))]
    case Lt => CompareCode(Ge, dest, tmp)
    case Le => CompareCode(Gt, dest, tmp)
    case Eq => CompareCode(Ne, dest, tmp)
    case Ne => CompareCode(Cond.Eq, dest, tmp)
  }

  function CompareCode(skip: Cond, dest: Reg, tmp: Reg): Items {
    [I(Cmp(dest, tmp)), I(Movi(dest, 0))] + Br(skip, 2) + [I(Movi(dest, 1))]
  }

  function ExprCode(e: S.Expr, dest: Reg, frame: seq<S.VarId>): (c: Items)
    requires ExprOk(e, frame)
    ensures |c| >= 1
    decreases e, 1
  {
    match e
    case IntLit(n) => [I(Movi(dest, n))]
    case Var(id) => [I(Ld(dest, FP, Offset(frame, id)))]
    case AddrOf(id) => [I(Lea(dest, FP, Offset(frame, id)))]
    case BinOp(op, l, r) =>
      ExprCode(l, dest, frame) + ExprCode(r, Temp(dest), frame) + OpCode(op, dest, Temp(dest))
    case Deref(p) => ExprCode(p, dest, frame) + [I(Ld(dest, dest, 0))]
    case Assign(id, v) => ExprCode(v, dest, frame) + [I(St(dest, FP, Offset(frame, id)))]
    case DerefAssign(p, v) =>
      ExprCode(v, dest, frame) + ExprCode(p, Temp(dest), frame) + [I(St(dest, Temp(dest), 0))]
    case Call(name, args) =>
      var argc := S.Min4(|args|);
      PushCode(args, 4, frame) + PopCode(argc, 0) + DropCode(argc) + [CallTo(name)] + ResultCode(dest)
  }

  function PushCode(args: seq<S.Expr>, n: nat, frame: seq<S.VarId>): Items
    requires ArgsOk(args, n, frame)
    decreases args, 0
  {
    if args == [] || n == 0 then [] else
    ExprCode(args[0], R4, frame) + PushOne() + PushCode(args[1..], n - 1, frame)
  }

  function PushOne(): Items {
    [I(AluImm(Sub, SP, SP, 8)), I(St(R4, SP, 0))]
  }

  /** Loads of R_i .. R_{argc-1}; argument 0 is deepest on the stack. */
  function PopCode(argc: nat, i: nat): Items
    requires i <= argc <= 4
    decreases argc - i
  {
    if i == argc then [] else [I(Ld(i, SP, (argc - 1 - i) * 8))] + PopCode(argc, i + 1)
  }

  function DropCode(argc: nat): Items {
    if argc > 0 then [I(AluImm(Add, SP, SP, argc * 8))] else []
  }

  function ResultCode(dest: Reg): Items {
    if dest != R0 then [I(Mov(dest, R0))] else []
  }

  function Epilogue(): Items {
    [I(Mov(SP, FP)), I(Ld(FP, SP, 0)), I(Ld(LR, SP, 8)), I(AluImm(Add, SP, SP, 16)), I(Ret)]
  }

  predicate RootOk(e: S.Expr, frame: seq<S.VarId>) {
    S.ScratchRegs(e) <= S.SCRATCH_REGS && ExprOk(e, frame)
  }

  predicate StmtOk(s: S.Stmt, frame: seq<S.VarId>) {
    match s
    case Return(e) => RootOk(e, frame)
    case ExprStmt(e) => RootOk(e, frame)
    case VarDecl(id, init) =>
      init.Some? ==> RootOk(init.value, frame) && id in frame && FitsImm18(Offset(frame, id))
    case If(c, thn, els) => RootOk(c, frame) && StmtsOk(thn, frame) && StmtsOk(els, frame)
    case While(c, body) => RootOk(c, frame) && StmtsOk(body, frame)
  }

  predicate StmtsOk(body: seq<S.Stmt>, frame: seq<S.VarId>) {
    body == [] || (StmtOk(body[0], frame) && StmtsOk(body[1..], frame))
  }

  function StmtCode(s: S.Stmt, frame: seq<S.VarId>): Items
    requires StmtOk(s, frame)
    decreases s, 1
  {
    match s
    case Return(e) => ExprCode(e, R0, frame) + Epilogue()
    case ExprStmt(e) => ExprCode(e, R4, frame)
    case VarDecl(id, init) =>
      if init.None? then [] else ExprCode(init.value, R4, frame) + [I(St(R4, FP, Offset(frame, id)))]
    case If(c, thn, els) =>
      var t := StmtsCode(thn, frame);
      if els == [] then TestCode(c, |t| + 1, frame) + t
      else
        var e := StmtsCode(els, frame);
        TestCode(c, |t| + 2, frame) + t + Br(Al, |e| + 1) + e
    case While(c, body) =>
      var b := StmtsCode(body, frame);
      var test := TestCode(c, |b| + 2, frame);
      test + b + Br(Al, -|test| - |b|)
  }

  /** Evaluate a condition into R4 and branch past `skip` words when it is zero. */
  function TestCode(c: S.Expr, skip: int, frame: seq<S.VarId>): Items
    requires ExprOk(c, frame)
  {
    ExprCode(c, R4, frame) + [I(CmpImm(R4, 0))] + Br(Cond.Eq, skip)
  }

  function StmtsCode(body: seq<S.Stmt>, frame: seq<S.VarId>): Items
    requires StmtsOk(body, frame)
    decreases body, 0
  {
    if body == [] then [] else StmtCode(body[0], frame) + StmtsCode(body[1..], frame)
  }

  /** Every branch of the statement fits its 22-bit field. */
  predicate StmtFits(s: S.Stmt, frame: seq<S.VarId>)
    requires StmtOk(s, frame)
    decreases s, 1
  {
    match s
    case If(c, thn, els) =>
      var t := |StmtsCode(thn, frame)|;
      && StmtsFit(thn, frame) && StmtsFit(els, frame)
      && (if els == [] then t + 1 < TWO21 else t + 2 < TWO21 && |StmtsCode(els, frame)| + 1 < TWO21)
    case While(c, body) =>
      var b := |StmtsCode(body, frame)|;
      StmtsFit(body, frame) && b + 2 < TWO21 && |TestCode(c, b + 2, frame)| + b <= TWO21
    case _ => true
  }

  predicate StmtsFit(body: seq<S.Stmt>, frame: seq<S.VarId>)
    requires StmtsOk(body, frame)
    decreases body, 0
  {
    body == [] || (StmtFits(body[0], frame) && StmtsFit(body[1..], frame))
  }

  /** Stores of R_i .. for the parameters that arrive in registers. */
  function ParamCode(n: nat, i: nat): Items
    requires i <= n <= 4
    decreases n - i
  {
    if i == n then [] else [I(St(i, FP, -8 * (i + 1)))] + ParamCode(n, i + 1)
  }

  /** Push LR and FP; FP = SP. */
  function EnterCode(): Items {
    [I(St(LR, SP, -8)), I(St(FP, SP, -16)), I(AluImm(Sub, SP, SP, 16)), I(Mov(FP, SP))]
  }

  function ReserveCode(k: nat): Items {
    if k > 0 then [I(AluImm(Sub, SP, SP, 8 * k))] else []
  }

  function Prologue(f: S.Function): Items {
    EnterCode() + (ParamCode(S.Min4(|f.params|), 0) + ReserveCode(|Semantics.Frame(f)|))
  }

  predicate FunctionOk(f: S.Function) {
    var frame := Semantics.Frame(f);
    && (|frame| > 0 ==> FitsImm18(8 * |frame|))
    && (f.isVoid || S.DefinitelyReturns(f.body))
    && StmtsOk(f.body, frame)
  }

  function FunctionCode(f: S.Function): Items
    requires FunctionOk(f)
  {
    Prologue(f) + (StmtsCode(f.body, Semantics.Frame(f)) + (if f.isVoid then Epilogue() else []))
  }

  predicate FunctionsOk(fs: S.Program) {
    fs == [] || (FunctionOk(fs[0]) && FunctionsOk(fs[1..]))
  }

  function FunctionsCode(fs: S.Program): Items
    requires FunctionsOk(fs)
  {
    if fs == [] then [] else FunctionCode(fs[0]) + FunctionsCode(fs[1..])
  }

  function StartCode(): Items {
    [CallTo("main"), I(Halt)]
  }

  /** Word address of function i. */
  function Entry(fs: S.Program, i: nat): nat
    requires FunctionsOk(fs) && i < |fs|
  {
    if i == 0 then |StartCode()| else |FunctionCode(fs[0])| + Entry(fs[1..], i - 1)
  }

  predicate Calls(items: Items, prog: S.Program) {
    forall i :: 0 <= i < |items| && items[i].CallTo? ==> S.FindFunction(prog, items[i].name).Some?
  }

  /** Everything the compiler panics on, over the whole program. */
  predicate ProgramOk(prog: S.Program) {
    FunctionsOk(prog) && Calls(StartCode() + FunctionsCode(prog), prog)
  }

  function ResolveItem(prog: S.Program, item: Item, pos: nat): Instr
    requires FunctionsOk(prog)
    requires item.CallTo? ==> S.FindFunction(prog, item.name).Some?
  {
    match item
    case I(instr) => instr
    case CallTo(name) => Instr.Call(Wrap22(Entry(prog, S.FindFunction(prog, name).value) - pos))
  }

  /** Every branch and call distance fits 22 bits, and word positions fit 31. */
  ghost predicate ProgramFits(prog: S.Program)
    requires ProgramOk(prog)
  {
    var items := StartCode() + FunctionsCode(prog);
    && |items| <= MAX_WORDS
    && (forall i :: 0 <= i < |prog| && FunctionOk(prog[i]) ==> StmtsFit(prog[i].body, Semantics.Frame(prog[i])))
    && (forall i :: 0 <= i < |items| && items[i].CallTo? ==>
          -TWO21 <= Entry(prog, S.FindFunction(prog, items[i].name).value) - i < TWO21)
  }

  /** The linked program: every CALL at its word offset. */
  function ProgramCode(prog: S.Program): seq<Instr>
    requires ProgramOk(prog)
  {
    var items := StartCode() + FunctionsCode(prog);
    seq(|items|, i requires 0 <= i < |items| => ResolveItem(prog, items[i], i))
  }
}
