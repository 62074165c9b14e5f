/** The AnkaCC64 source language, its two analyses and its meaning. */

module Syntax {
  import opened Words

  type VarId = nat

  datatype BinOp = Add | Sub | Mul | And | Or | Shl | Shr | Lt | Le | Eq | Ne

  datatype Expr =
    | IntLit(n: int)
    | Var(id: VarId)
    | BinOp(op: BinOp, lhs: Expr, rhs: Expr)
    | Call(name: string, args: seq<Expr>)
    | Deref(ptr: Expr)
    | AddrOf(id: VarId)
    | Assign(id: VarId, val: Expr)
    | DerefAssign(ptr: Expr, val: Expr)

  datatype Stmt =
    | Return(e: Expr)
    | ExprStmt(e: Expr)
    | If(cond: Expr, thn: seq<Stmt>, els: seq<Stmt>)
    | While(cond: Expr, body: seq<Stmt>)
    | VarDecl(id: VarId, init: Option<Expr>)

  datatype Function = Function(
    name: string, params: seq<VarId>, isVoid: bool, locals: seq<VarId>, body: seq<Stmt>)

  type Program = seq<Function>

  const SCRATCH_REGS := 3

  function Max(a: nat, b: nat): nat {
    if a > b then a else b
  }

  /** The calling convention passes at most four arguments. */
  function Min4(n: nat): nat {
    if n < 4 then n else 4
  }

  /** Scratch registers needed to evaluate an expression without clobbering a live intermediate. */
  function ScratchRegs(e: Expr): (d: nat)
    ensures d >= 1
  {
    match e
    case IntLit(_) => 1
    case Var(_) => 1
    case AddrOf(_) => 1
    case BinOp(_, l, r) => Max(ScratchRegs(l), 1 + ScratchRegs(r))
    case Deref(p) => ScratchRegs(p)
    case Call(_, args) => ScratchArgs(args)
    case Assign(_, v) => ScratchRegs(v)
    case DerefAssign(p, v) => Max(ScratchRegs(v), 1 + ScratchRegs(p))
  }

  function ScratchArgs(args: seq<Expr>): (d: nat)
    ensures d >= 1
  {
    if args == [] then 1 else Max(ScratchRegs(args[0]), ScratchArgs(args[1..]))
  }

  predicate CallFree(e: Expr) {
    match e
    case IntLit(_) => true
    case Var(_) => true
    case AddrOf(_) => true
    case BinOp(_, l, r) => CallFree(l) && CallFree(r)
    case Deref(p) => CallFree(p)
    case Call(_, args) => false
    case Assign(_, v) => CallFree(v)
    case DerefAssign(p, v) => CallFree(p) && CallFree(v)
  }

  /** Calls only at the root, in arguments, in left operands and in stored or dereferenced
      values, each of a named function and with at most four arguments. */
  ghost predicate SafeCalls(e: Expr, names: iset<string>) {
    match e
    case IntLit(_) => true
    case Var(_) => true
    case AddrOf(_) => true
    case BinOp(_, l, r) => SafeCalls(l, names) && CallFree(r)
    case Deref(p) => SafeCalls(p, names)
    case Call(name, args) => name in names && |args| <= 4 && SafeCallsAll(args, names)
    case Assign(_, v) => SafeCalls(v, names)
    case DerefAssign(p, v) => CallFree(p) && SafeCalls(v, names)
  }

  ghost predicate SafeCallsAll(args: seq<Expr>, names: iset<string>) {
    args == [] || (SafeCalls(args[0], names) && SafeCallsAll(args[1..], names))
  }

  predicate DefinitelyReturns(body: seq<Stmt>) {
    body != [] && (StmtDefinitelyReturns(body[0]) || DefinitelyReturns(body[1..]))
  }

  predicate StmtDefinitelyReturns(s: Stmt) {
    match s
    case Return(_) => true
    case If(_, thn, els) => DefinitelyReturns(thn) && DefinitelyReturns(els)
    case _ => false
  }

  /** Position of a variable's stack slot: the first declaration of the name counts. */
  function SlotIndex(frame: seq<VarId>, id: VarId): (i: nat)
    requires id in frame
    ensures i < |frame| && frame[i] == id
    ensures forall j :: 0 <= j < i ==> frame[j] != id
  {
    if frame[0] == id then 0 else 1 + SlotIndex(frame[1..], id)
  }

  /** The first function of that name, as an index. */
  function FindFunction(prog: Program, name: string): (r: Option<nat>)
    ensures r.Some? ==> r.value < |prog| && prog[r.value].name == name
  {
    if prog == [] then None
    else if prog[0].name == name then Some(0)
    else
      var r := FindFunction(prog[1..], name);
      if r.Some? then Some(r.value + 1) else None
  }
}

module Semantics {
  import opened Words
  import opened Syntax
  import Memory

  /** Meaning of a binary operator on two's complement 64-bit integers. */
  function BinVal(op: BinOp, a: Word, b: Word): Word {
    match op
    case Add => Wrap(Signed(a) + Signed(b))
    case Sub => Wrap(Signed(a) - Signed(b))
    case Mul => Wrap(Signed(a) * Signed(b))
    case And => BitAnd(a, b)
    case Or => Wrap(BitOr(a, b))
    case Shl => Wrap(a * Pow2(b % 64))
    case Shr => Wrap(a / Pow2(b % 64))
    case Lt => if Signed(a) < Signed(b) then 1 else 0
    case Le => if Signed(a) <= Signed(b) then 1 else 0
    case Eq => if a == b then 1 else 0
    case Ne => if a != b then 1 else 0
  }

  // ---- Call-free expressions over the machine's own memory; any pointer may be followed ----

  datatype Shared = Value(v: Word, mem: Memory.Mem) | Fault

  function SlotAddress(frame: seq<VarId>, fp: Word, id: VarId): Word
    requires id in frame
  {
    Wrap(fp - 8 * (SlotIndex(frame, id) + 1))
  }

  predicate Defined(e: Expr, frame: seq<VarId>) {
    match e
    case IntLit(_) => true
    case Var(id) => id in frame
    case AddrOf(id) => id in frame
    case BinOp(_, l, r) => Defined(l, frame) && Defined(r, frame)
    case Deref(p) => Defined(p, frame)
    case Call(_, args) => DefinedAll(args, frame)
    case Assign(id, v) => id in frame && Defined(v, frame)
    case DerefAssign(p, v) => Defined(p, frame) && Defined(v, frame)
  }

  predicate DefinedAll(args: seq<Expr>, frame: seq<VarId>) {
    args == [] || (Defined(args[0], frame) && DefinedAll(args[1..], frame))
  }

  function Fetch(mem: Memory.Mem, a: Word): Shared {
    if Memory.Mapped(mem, a) then Value(Memory.Load(mem, a), mem) else Fault
  }

  function Put(mem: Memory.Mem, a: Word, v: Word): Shared {
    if Memory.Mapped(mem, a) then Value(v, Memory.Store(mem, a, v)) else Fault
  }

  /** Left operand first; the stored value before the pointer it is stored through. */
  function EvalShared(e: Expr, frame: seq<VarId>, fp: Word, mem: Memory.Mem): Shared
    requires CallFree(e) && Defined(e, frame)
  {
    match e
    case IntLit(n) => Value(Wrap(n), mem)
    case Var(id) => Fetch(mem, SlotAddress(frame, fp, id))
    case AddrOf(id) => Value(SlotAddress(frame, fp, id), mem)
    case BinOp(op, l, r) =>
      var a := EvalShared(l, frame, fp, mem);
      if a.Fault? then Fault else
      var b := EvalShared(r, frame, fp, a.mem);
      if b.Fault? then Fault else Value(BinVal(op, a.v, b.v), b.mem)
    case Deref(p) =>
      var a := EvalShared(p, frame, fp, mem);
      if a.Fault? then Fault else Fetch(a.mem, a.v)
    case Assign(id, v) =>
      var a := EvalShared(v, frame, fp, mem);
      if a.Fault? then Fault else Put(a.mem, SlotAddress(frame, fp, id), a.v)
    case DerefAssign(p, v) =>
      var a := EvalShared(v, frame, fp, mem);
      if a.Fault? then Fault else
      var b := EvalShared(p, frame, fp, a.mem);
      if b.Fault? then Fault else Put(b.mem, b.v, a.v)
  }

  /** A store or an operation evaluates its two parts in turn. */
  lemma SharedSteps(e: Expr, x: Expr, y: Expr, frame: seq<VarId>, fp: Word, mem: Memory.Mem)
    requires (e.BinOp? && x == e.lhs && y == e.rhs) || (e.DerefAssign? && x == e.val && y == e.ptr)
    requires CallFree(e) && Defined(e, frame)
    ensures CallFree(x) && CallFree(y) && Defined(x, frame) && Defined(y, frame)
    ensures EvalShared(e, frame, fp, mem) ==
      var a := EvalShared(x, frame, fp, mem);
      if a.Fault? then Fault else
      var b := EvalShared(y, frame, fp, a.mem);
      if b.Fault? then Fault else
      if e.BinOp? then Value(BinVal(e.op, a.v, b.v), b.mem) else Put(b.mem, b.v, a.v)
  {
  }

  // ---- Whole programs over a memory of live variable slots ----

  /** Address of each live variable to its value; None is uninitialised. */
  type Slots = map<int, Option<Word>>

  /** One activation: lo is the stack limit, frame the variables in slot order below fp. */
  datatype Activation = Activation(prog: Program, lo: int, frame: seq<VarId>, fp: int)

  /** Undefined behaviour (wild pointer, uninitialised read, stack overflow, use of a void
      value, unknown function) is Stuck. */
  datatype Result = Done(value: Option<Word>, slots: Slots) | Stuck | OutOfFuel
  datatype ArgResult = Args(values: seq<Word>, slots: Slots) | ArgStuck | ArgOutOfFuel
  datatype Outcome = Normal(slots: Slots) | Returned(value: Word, slots: Slots) | StmtStuck | StmtOutOfFuel

  function Slot(act: Activation, id: VarId): int
    requires id in act.frame
  {
    act.fp - 8 * (SlotIndex(act.frame, id) + 1)
  }

  function ReadSlot(slots: Slots, a: int): Result {
    if a in slots && slots[a].Some? then Done(slots[a], slots) else Stuck
  }

  function WriteSlot(slots: Slots, a: int, v: Word): Result {
    if a in slots then Done(Some(v), slots[a := Some(v)]) else Stuck
  }

  predicate HasValue(r: Result) {
    r.Done? && r.value.Some?
  }

  /** What a failed or valueless operand makes of the whole. */
  function Abort(r: Result): Result {
    if r.OutOfFuel? then OutOfFuel else Stuck
  }

  /** sp is the stack pointer during the evaluation: below it nothing is live. */
  function Eval(fuel: nat, act: Activation, sp: int, e: Expr, slots: Slots): Result
    decreases fuel, e, 1
  {
    match e
    case IntLit(n) => Done(Some(Wrap(n)), slots)
    case Var(id) => if id in act.frame then ReadSlot(slots, Slot(act, id)) else Stuck
    case AddrOf(id) => if id in act.frame then Done(Some(Wrap(Slot(act, id))), slots) else Stuck
    case BinOp(op, l, r) =>
      var a := Eval(fuel, act, sp, l, slots);
      if !HasValue(a) then Abort(a) else
      var b := Eval(fuel, act, sp, r, a.slots);
      if !HasValue(b) then Abort(b) else Done(Some(BinVal(op, a.value.value, b.value.value)), b.slots)
    case Deref(p) =>
      var a := Eval(fuel, act, sp, p, slots);
      if !HasValue(a) then Abort(a) else ReadSlot(a.slots, a.value.value)
    case Assign(id, v) =>
      var a := Eval(fuel, act, sp, v, slots);
      if !HasValue(a) then Abort(a)
      else if id in act.frame then WriteSlot(a.slots, Slot(act, id), a.value.value) else Stuck
    case DerefAssign(p, v) =>
      var a := Eval(fuel, act, sp, v, slots);
      if !HasValue(a) then Abort(a) else
      var b := Eval(fuel, act, sp, p, a.slots);
      if !HasValue(b) then Abort(b) else WriteSlot(b.slots, b.value.value, a.value.value)
    case Call(name, args) =>
      match EvalArgs(fuel, act, sp, args, slots)
      case ArgStuck => Stuck
      case ArgOutOfFuel => OutOfFuel
      case Args(values, slots1) =>
        if fuel == 0 then OutOfFuel else Invoke(fuel - 1, act.prog, act.lo, sp, name, values, slots1)
  }

  /** Arguments left to right; each evaluated value occupies one more stack word. */
  function EvalArgs(fuel: nat, act: Activation, sp: int, args: seq<Expr>, slots: Slots): ArgResult
    decreases fuel, args, 0
  {
    if args == [] then Args([], slots) else
    var a := Eval(fuel, act, sp, args[0], slots);
    if a.OutOfFuel? then ArgOutOfFuel
    else if !HasValue(a) || sp - 8 < act.lo then ArgStuck
    else
      match EvalArgs(fuel, act, sp - 8, args[1..], a.slots)
      case Args(vs, slots2) => Args([a.value.value] + vs, slots2)
      case ArgStuck => ArgStuck
      case ArgOutOfFuel => ArgOutOfFuel
  }

  /** The callee's slots lie below two saved words; parameters without an argument, and
      locals, start uninitialised. */
  function NewSlots(fp: int, k: nat, values: seq<Word>): (s: Slots)
    ensures forall a :: a in s <==> (fp - 8 * k <= a < fp && (fp - a) % 8 == 0)
  {
    if k == 0 then map[] else
    NewSlots(fp, k - 1, values)[fp - 8 * k := if k <= |values| then Some(values[k - 1]) else None]
  }

  function Keep(slots: Slots, live: Slots): Slots {
    map a | a in slots && a in live :: slots[a]
  }

  function Frame(f: Function): seq<VarId> {
    f.params + f.locals
  }

  /** Values the prologue stores: at most four, and no more than there are parameters. */
  function Bound(f: Function, values: seq<Word>): seq<Word> {
    var n := if |values| <= |f.params| then |values| else |f.params|;
    values[..n]
  }

  function Invoke(fuel: nat, prog: Program, lo: int, sp: int, name: string, values: seq<Word>, slots: Slots): Result
    decreases fuel, prog, 3
  {
    var i := FindFunction(prog, name);
    if i.None? then Stuck else
    var f := prog[i.value];
    var fp := sp - 16;
    var k := |Frame(f)|;
    if fp - 8 * k < lo then Stuck else
    match ExecAll(fuel, Activation(prog, lo, Frame(f), fp), f.body, slots + NewSlots(fp, k, Bound(f, values)))
    case Normal(s) => if f.isVoid then Done(None, Keep(s, slots)) else Stuck
    case Returned(v, s) => Done(Some(v), Keep(s, slots))
    case StmtStuck => Stuck
    case StmtOutOfFuel => OutOfFuel
  }

  function Sp(act: Activation): int {
    act.fp - 8 * |act.frame|
  }

  function Exec(fuel: nat, act: Activation, s: Stmt, slots: Slots): Outcome
    decreases fuel, s, 2
  {
    match s
    case Return(e) =>
      var a := Eval(fuel, act, Sp(act), e, slots);
      if HasValue(a) then Returned(a.value.value, a.slots)
      else if a.OutOfFuel? then StmtOutOfFuel else StmtStuck
    case ExprStmt(e) =>
      var a := Eval(fuel, act, Sp(act), e, slots);
      if a.Done? then Normal(a.slots) else if a.OutOfFuel? then StmtOutOfFuel else StmtStuck
    case VarDecl(id, init) =>
      if init.None? then Normal(slots) else
      var a := Eval(fuel, act, Sp(act), init.value, slots);
      if a.OutOfFuel? then StmtOutOfFuel
      else if !HasValue(a) || id !in act.frame then StmtStuck
      else
        var b := WriteSlot(a.slots, Slot(act, id), a.value.value);
        if b.Done? then Normal(b.slots) else StmtStuck
    case If(cond, thn, els) =>
      var a := Eval(fuel, act, Sp(act), cond, slots);
      if a.OutOfFuel? then StmtOutOfFuel
      else if !HasValue(a) then StmtStuck
      else ExecAll(fuel, act, if a.value.value != 0 then thn else els, a.slots)
    case While(cond, body) =>
      var a := Eval(fuel, act, Sp(act), cond, slots);
      if a.OutOfFuel? then StmtOutOfFuel
      else if !HasValue(a) then StmtStuck
      else if a.value.value == 0 then Normal(a.slots)
      else if fuel == 0 then StmtOutOfFuel
      else
        var o := ExecAll(fuel - 1, act, body, a.slots);
        if o.Normal? then Exec(fuel - 1, act, s, o.slots) else o
  }

  function ExecAll(fuel: nat, act: Activation, body: seq<Stmt>, slots: Slots): Outcome
    decreases fuel, body, 1
  {
    if body == [] then Normal(slots) else
    var o := Exec(fuel, act, body[0], slots);
    if o.Normal? then ExecAll(fuel, act, body[1..], o.slots) else o
  }

  /** The whole program: main, called on an empty stack [lo, hi). */
  function RunMain(fuel: nat, prog: Program, lo: int, hi: int): Result {
    Invoke(fuel, prog, lo, hi, "main", [], map[])
  }
}
