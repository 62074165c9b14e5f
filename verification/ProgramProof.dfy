/** Compiled statements, functions and calls do what the source program does. */

module Stack {
  import opened Words
  import opened Memory
  import opened Machine
  import opened Code
  import opened ExprProof
  import S = Syntax
  import Sem = Semantics

  /** A linked text, the names of functions that call only one another and only in supported
      positions, and the mapped stack [lo, hi). */
  datatype Env = Env(t: Text, entries: Entries, prog: S.Program, safe: iset<string>, lo: int, hi: int)

  ghost predicate SafeBody(body: seq<S.Stmt>, names: iset<string>) {
    body == [] || (SafeStmt(body[0], names) && SafeBody(body[1..], names))
  }

  /** Every call in the statement is of a named function and in a position the backend supports. */
  ghost predicate SafeStmt(s: S.Stmt, names: iset<string>) {
    match s
    case Return(e) => S.SafeCalls(e, names)
    case ExprStmt(e) => S.SafeCalls(e, names)
    case VarDecl(_, init) => init.Some? ==> S.SafeCalls(init.value, names)
    case If(c, thn, els) => S.SafeCalls(c, names) && SafeBody(thn, names) && SafeBody(els, names)
    case While(c, body) => S.SafeCalls(c, names) && SafeBody(body, names)
  }

  /** The first function of that name stands at its entry. */
  ghost predicate FunctionLinked(env: Env, name: string) {
    var i := S.FindFunction(env.prog, name);
    i.Some? ==>
      && FunctionOk(env.prog[i.value])
      && StmtsFit(env.prog[i.value].body, Sem.Frame(env.prog[i.value]))
      && (name in env.safe ==> SafeBody(env.prog[i.value].body, env.safe))
      && name in env.entries
      && Placed(env.t, env.entries, env.entries[name], FunctionCode(env.prog[i.value]))
  }

  ghost predicate Linked(env: Env) {
    && |env.t.code| <= MAX_WORDS
    && 0 <= env.lo <= env.hi < TWO64 && env.lo % 8 == 0 && env.hi % 8 == 0
    && forall name :: FunctionLinked(env, name)
  }

  /** All live slots lie between the stack pointer and the stack's top. */
  predicate Layout(slots: Sem.Slots, sp: int, hi: int) {
    forall a :: a in slots ==> sp <= a && a + 8 <= hi && a % 8 == 0
  }

  /** Memory holds every initialised slot's value. */
  predicate Agrees(slots: Sem.Slots, m: Mem) {
    forall a :: a in slots && slots[a].Some? ==> Load(m, a) == slots[a].value
  }

  /** No stack word at or above sp has changed, except live slots. */
  ghost predicate Preserved(m: Mem, m': Mem, slots: Sem.Slots, sp: int) {
    && m'.lo == m.lo && m'.hi == m.hi
    && forall a :: sp <= a && a % 8 == 0 && a !in slots ==> Load(m', a) == Load(m, a)
  }

  ghost predicate Grounded(env: Env, sp: int, slots: Sem.Slots, s: State) {
    && s.mem.lo == env.lo && s.mem.hi == env.hi
    && env.lo <= sp <= env.hi && sp % 8 == 0
    && s.regs[SP] == sp
    && Layout(slots, sp, env.hi)
    && Agrees(slots, s.mem)
  }

  /** The machine is inside activation `act` with stack pointer sp. */
  ghost predicate Ready(env: Env, act: Sem.Activation, sp: int, slots: Sem.Slots, s: State) {
    && Grounded(env, sp, slots, s)
    && act.prog == env.prog && act.lo == env.lo
    && act.fp % 8 == 0 && sp <= Sem.Sp(act) && act.fp + 16 <= env.hi
    && s.regs[FP] == act.fp
    && act.fp !in slots && act.fp + 8 !in slots
  }

  lemma StoreSlot(env: Env, sp: int, slots: Sem.Slots, m: Mem, a: int, v: Word)
    requires Layout(slots, sp, env.hi) && Agrees(slots, m) && a in slots
    ensures Agrees(slots[a := Some(v)], Store(m, a, v))
    ensures Preserved(m, Store(m, a, v), slots, sp)
  {
    hide Load, Store;
    LoadStoreSame(m, a, v);
    forall b | b % 8 == 0 && b != a ensures Load(Store(m, a, v), b) == Load(m, b) {
      LoadStoreOther(m, a, v, b);
    }
    StoreBounds(m, a, v);
  }

  lemma StoreBounds(m: Mem, a: int, v: Word)
    ensures Store(m, a, v).lo == m.lo && Store(m, a, v).hi == m.hi
  {
  }

  /** A store below every live slot, such as a push. */
  lemma StoreBelow(slots: Sem.Slots, sp: int, hi: int, m: Mem, a: int, v: Word)
    requires Layout(slots, sp, hi) && Agrees(slots, m) && a + 8 <= sp && a % 8 == 0
    ensures Agrees(slots, Store(m, a, v))
    ensures Preserved(m, Store(m, a, v), slots, sp)
  {
    hide Load, Store;
    forall b | sp <= b ensures Load(Store(m, a, v), b) == Load(m, b) {
      LoadStoreOther(m, a, v, b);
    }
    StoreBounds(m, a, v);
  }

  lemma PreservedTrans(m: Mem, m1: Mem, m2: Mem, slots: Sem.Slots, slots1: Sem.Slots, sp: int, sp1: int)
    requires Preserved(m, m1, slots, sp) && Preserved(m1, m2, slots1, sp1)
    requires sp1 <= sp && forall a :: a in slots1 && sp <= a ==> a in slots
    ensures Preserved(m, m2, slots, sp)
  {
    hide Load;
  }

  /** What a slot evaluation from (slots, m) and a memory evaluation have in common. */
  ghost predicate Mirrors(sp: int, slots: Sem.Slots, m: Mem, r: Sem.Result, sh: Sem.Shared) {
    && r != Sem.OutOfFuel
    && (r.Done? ==>
      && Sem.HasValue(r) && r.slots.Keys == slots.Keys
      && sh.Value? && sh.v == r.value.value
      && Agrees(r.slots, sh.mem) && Preserved(m, sh.mem, slots, sp))
  }

  predicate InStack(env: Env, sp: int, slots: Sem.Slots, m: Mem) {
    && 0 <= env.lo <= sp && env.hi < TWO64
    && m.lo == env.lo && m.hi == env.hi
    && Layout(slots, sp, env.hi) && Agrees(slots, m)
  }

  lemma MirrorPure(env: Env, sp: int, slots: Sem.Slots, m: Mem, v: Word)
    requires InStack(env, sp, slots, m)
    ensures Mirrors(sp, slots, m, Sem.Done(Some(v), slots), Sem.Value(v, m))
  {
    hide Load;
  }

  lemma MirrorRead(env: Env, sp: int, slots: Sem.Slots, m: Mem, a: int)
    requires InStack(env, sp, slots, m)
    ensures Mirrors(sp, slots, m, Sem.ReadSlot(slots, a), Sem.Fetch(m, Wrap(a)))
  {
    hide Load;
  }

  lemma MirrorWrite(env: Env, sp: int, slots: Sem.Slots, m: Mem, a: int, v: Word)
    requires InStack(env, sp, slots, m)
    ensures Mirrors(sp, slots, m, Sem.WriteSlot(slots, a, v), Sem.Put(m, Wrap(a), v))
  {
    hide Load, Store;
    if a in slots {
      StoreSlot(env, sp, slots, m, a, v);
      assert slots[a := Some(v)].Keys == slots.Keys;
    }
  }

  lemma MirrorInStack(env: Env, sp: int, slots: Sem.Slots, m: Mem, r: Sem.Result, sh: Sem.Shared)
    requires InStack(env, sp, slots, m) && Mirrors(sp, slots, m, r, sh) && r.Done?
    ensures InStack(env, sp, r.slots, sh.mem)
  {
    hide Load;
  }

  lemma MirrorThen(sp: int, slots: Sem.Slots, m: Mem, r: Sem.Result, sh: Sem.Shared, r2: Sem.Result, sh2: Sem.Shared)
    requires Mirrors(sp, slots, m, r, sh) && r.Done? && Mirrors(sp, r.slots, sh.mem, r2, sh2)
    ensures Mirrors(sp, slots, m, r2, sh2)
  {
    hide Load;
  }

  /** A call-free evaluation over slots is the same evaluation over machine memory. */
  lemma SlotsAreShared(env: Env, fuel: nat, act: Sem.Activation, sp: int, e: S.Expr, slots: Sem.Slots, m: Mem)
    requires S.CallFree(e) && ExprOk(e, act.frame) && Sem.Defined(e, act.frame)
    requires InStack(env, sp, slots, m) && 0 <= act.fp < TWO64
    ensures Mirrors(sp, slots, m, Sem.Eval(fuel, act, sp, e, slots), Sem.EvalShared(e, act.frame, act.fp, m))
    decreases e, 1
  {
    hide Load, Store, Sem.BinVal, InStack;
    match e {
      case IntLit(n) => MirrorPure(env, sp, slots, m, Wrap(n));
      case AddrOf(id) => MirrorPure(env, sp, slots, m, Wrap(Sem.Slot(act, id)));
      case Var(id) => MirrorRead(env, sp, slots, m, Sem.Slot(act, id));
      case Deref(p) =>
        SlotsAreShared(env, fuel, act, sp, p, slots, m);
        var a, sa := Sem.Eval(fuel, act, sp, p, slots), Sem.EvalShared(p, act.frame, act.fp, m);
        if a.Done? {
          MirrorInStack(env, sp, slots, m, a, sa);
          MirrorRead(env, sp, a.slots, sa.mem, a.value.value);
          MirrorThen(sp, slots, m, a, sa, Sem.ReadSlot(a.slots, sa.v), Sem.Fetch(sa.mem, sa.v));
        }
      case Assign(id, v) =>
        SlotsAreShared(env, fuel, act, sp, v, slots, m);
        var a, sa := Sem.Eval(fuel, act, sp, v, slots), Sem.EvalShared(v, act.frame, act.fp, m);
        if a.Done? {
          var slot := Sem.Slot(act, id);
          MirrorInStack(env, sp, slots, m, a, sa);
          MirrorWrite(env, sp, a.slots, sa.mem, slot, sa.v);
          MirrorThen(sp, slots, m, a, sa, Sem.WriteSlot(a.slots, slot, sa.v), Sem.Put(sa.mem, Wrap(slot), sa.v));
        }
      case BinOp(_, _, _) => TwoAreShared(env, fuel, act, sp, e, e.lhs, e.rhs, slots, m);
      case DerefAssign(_, _) => TwoAreShared(env, fuel, act, sp, e, e.val, e.ptr, slots, m);
    }
  }

  lemma SlotSteps(fuel: nat, act: Sem.Activation, sp: int, e: S.Expr, x: S.Expr, y: S.Expr, slots: Sem.Slots)
    requires (e.BinOp? && x == e.lhs && y == e.rhs) || (e.DerefAssign? && x == e.val && y == e.ptr)
    ensures Sem.Eval(fuel, act, sp, e, slots) ==
      var a := Sem.Eval(fuel, act, sp, x, slots);
      if !Sem.HasValue(a) then Sem.Abort(a) else
      var b := Sem.Eval(fuel, act, sp, y, a.slots);
      if !Sem.HasValue(b) then Sem.Abort(b) else
      if e.BinOp? then Sem.Done(Some(Sem.BinVal(e.op, a.value.value, b.value.value)), b.slots)
      else Sem.WriteSlot(b.slots, b.value.value, a.value.value)
  {
  }

  lemma OneStep(fuel: nat, act: Sem.Activation, sp: int, e: S.Expr, slots: Sem.Slots)
    requires e.Deref? || e.Assign?
    ensures Sem.Eval(fuel, act, sp, e, slots) ==
      var a := Sem.Eval(fuel, act, sp, if e.Deref? then e.ptr else e.val, slots);
      if !Sem.HasValue(a) then Sem.Abort(a)
      else if e.Deref? then Sem.ReadSlot(a.slots, a.value.value)
      else if e.id in act.frame then Sem.WriteSlot(a.slots, Sem.Slot(act, e.id), a.value.value) else Sem.Stuck
  {
  }

  lemma TwoAreShared(env: Env, fuel: nat, act: Sem.Activation, sp: int, e: S.Expr, x: S.Expr, y: S.Expr, slots: Sem.Slots, m: Mem)
    requires (e.BinOp? && x == e.lhs && y == e.rhs) || (e.DerefAssign? && x == e.val && y == e.ptr)
    requires S.CallFree(e) && ExprOk(e, act.frame) && Sem.Defined(e, act.frame)
    requires InStack(env, sp, slots, m) && 0 <= act.fp < TWO64
    ensures Mirrors(sp, slots, m, Sem.Eval(fuel, act, sp, e, slots), Sem.EvalShared(e, act.frame, act.fp, m))
    decreases e, 0
  {
    hide Load, Store, Sem.BinVal, InStack, Sem.Eval, Sem.EvalShared;
    SlotSteps(fuel, act, sp, e, x, y, slots);
    Sem.SharedSteps(e, x, y, act.frame, act.fp, m);
    SlotsAreShared(env, fuel, act, sp, x, slots, m);
    var a, sa := Sem.Eval(fuel, act, sp, x, slots), Sem.EvalShared(x, act.frame, act.fp, m);
    if a.Done? {
      MirrorInStack(env, sp, slots, m, a, sa);
      SlotsAreShared(env, fuel, act, sp, y, a.slots, sa.mem);
      var b, sb := Sem.Eval(fuel, act, sp, y, a.slots), Sem.EvalShared(y, act.frame, act.fp, sa.mem);
      MirrorThen(sp, slots, m, a, sa, b, sb);
      if b.Done? && e.DerefAssign? {
        MirrorInStack(env, sp, a.slots, sa.mem, b, sb);
        MirrorWrite(env, sp, b.slots, sb.mem, sb.v, sa.v);
        MirrorThen(sp, slots, m, b, sb, Sem.WriteSlot(b.slots, sb.v, sa.v), Sem.Put(sb.mem, sb.v, sa.v));
      }
    }
  }
}

module ProgramProof {
  import opened Words
  import opened Memory
  import opened Machine
  import opened Code
  import opened ExprProof
  import opened Stack
  import S = Syntax
  import Sem = Semantics

  /** State after n cycles has finished the expression whose code ends at `end`. */
  ghost predicate ExprDone(env: Env, sp: int, slots: Sem.Slots, s: State, s': State, end: int, dest: Reg, value: Option<Word>, slots': Sem.Slots) {
    && s'.pc == end && s'.retStack == s.retStack
    && s'.regs[FP] == s.regs[FP] && s'.regs[SP] == s.regs[SP]
    && (value.Some? ==> s'.regs[dest] == value.value)
    && slots'.Keys == slots.Keys
    && Agrees(slots', s'.mem)
    && Preserved(s.mem, s'.mem, slots, sp)
  }

  ghost predicate EvalPost(env: Env, fuel: nat, sp: int, slots: Sem.Slots, s: State, n: nat, end: int, dest: Reg, r: Sem.Result) {
    var o := Run(env.t, s, n);
    match r
    case Stuck => true
    case OutOfFuel => o.Next? && n >= fuel
    case Done(v, slots') => o.Next? && n >= 1 && ExprDone(env, sp, slots, s, o.s, end, dest, v, slots')
  }

  /** The call an expression evaluates before everything else: the one at the end of its left spine. */
  function SpineCall(e: S.Expr): S.Expr {
    match e
    case BinOp(_, l, _) => SpineCall(l)
    case Deref(p) => SpineCall(p)
    case Assign(_, v) => SpineCall(v)
    case DerefAssign(_, v) => SpineCall(v)
    case _ => e
  }

  /** After an expression with a call, into any register but R0, R0 still holds what that call returned. */
  ghost predicate SpineKept(env: Env, fuel: nat, act: Sem.Activation, sp: int, slots: Sem.Slots, s: State, n: nat, e: S.Expr, dest: Reg) {
    !S.CallFree(e) && dest != R0 && Sem.HasValue(Sem.Eval(fuel, act, sp, e, slots)) ==>
      var u := Sem.Eval(fuel, act, sp, SpineCall(e), slots);
      Sem.HasValue(u) && Run(env.t, s, n).Next? && Run(env.t, s, n).s.regs[R0] == u.value.value
  }

  /** What the code of an expression may assume. */
  ghost predicate EvalPre(env: Env, act: Sem.Activation, sp: int, slots: Sem.Slots, s: State, base: int, e: S.Expr, dest: Reg) {
    && Linked(env) && Ready(env, act, sp, slots, s) && s.pc == base
    && S.SafeCalls(e, env.safe) && ExprOk(e, act.frame)
    && S.ScratchRegs(e) <= Available(dest) && dest < FP
    && Placed(env.t, env.entries, base, ExprCode(e, dest, act.frame))
  }

  lemma {:induction false} CallFreeIsSafe(e: S.Expr, names: iset<string>)
    requires S.CallFree(e)
    ensures S.SafeCalls(e, names)
  {
    match e {
      case BinOp(_, l, r) => CallFreeIsSafe(l, names);
      case Deref(p) => CallFreeIsSafe(p, names);
      case Assign(_, v) => CallFreeIsSafe(v, names);
      case DerefAssign(p, v) => CallFreeIsSafe(v, names);
      case _ =>
    }
  }

  lemma PureRuns(env: Env, fuel: nat, act: Sem.Activation, sp: int, slots: Sem.Slots, s: State, base: int, e: S.Expr, dest: Reg) returns (n: nat)
    requires EvalPre(env, act, sp, slots, s, base, e, dest) && S.CallFree(e)
    ensures EvalPost(env, fuel, sp, slots, s, n, base + |ExprCode(e, dest, act.frame)|, dest, Sem.Eval(fuel, act, sp, e, slots))
    ensures Run(env.t, s, n).Next? ==> Untouched(s, Run(env.t, s, n).s, dest)
    ensures Sem.Eval(fuel, act, sp, e, slots) != Sem.OutOfFuel
  {
    hide Run, Placed, Load, Sem.EvalShared, Sem.Eval, ExprCode, FunctionLinked;
    OkIsDefined(e, act.frame);
    n := ExprRuns(env.t, env.entries, base, e, dest, act.frame, s);
    SlotsAreShared(env, fuel, act, sp, e, slots, s.mem);
  }

  lemma StillReady(env: Env, act: Sem.Activation, sp: int, slots: Sem.Slots, s: State, s1: State, end: int, dest: Reg, v: Option<Word>, slots1: Sem.Slots)
    requires Ready(env, act, sp, slots, s) && ExprDone(env, sp, slots, s, s1, end, dest, v, slots1)
    ensures Ready(env, act, sp, slots1, s1)
  {
    hide Load;
  }

  lemma DoneTrans(env: Env, sp: int, slots: Sem.Slots, s: State, s1: State, e1: int, d1: Reg, v1: Option<Word>, slots1: Sem.Slots,
                  s2: State, e2: int, d2: Reg, v2: Option<Word>, slots2: Sem.Slots)
    requires ExprDone(env, sp, slots, s, s1, e1, d1, v1, slots1)
    requires ExprDone(env, sp, slots1, s1, s2, e2, d2, v2, slots2)
    ensures ExprDone(env, sp, slots, s, s2, e2, d2, v2, slots2)
  {
    hide Load;
    PreservedTrans(s.mem, s1.mem, s2.mem, slots, slots1, sp, sp);
  }

  /** One instruction that only sets a register. */
  lemma DoneSet(env: Env, sp: int, slots: Sem.Slots, s: State, s1: State, e1: int, d1: Reg, v1: Option<Word>, slots1: Sem.Slots,
                s2: State, dest: Reg, v: Word)
    requires ExprDone(env, sp, slots, s, s1, e1, d1, v1, slots1) && dest < FP
    requires s2 == s1.(pc := s2.pc, flags := s2.flags, regs := s1.regs[dest := v])
    ensures ExprDone(env, sp, slots, s, s2, s2.pc, dest, Some(v), slots1)
  {
    hide Load;
  }

  /** A store to a live slot. */
  lemma DoneStore(env: Env, act: Sem.Activation, sp: int, slots: Sem.Slots, s: State, s1: State, e1: int, d1: Reg, v1: Option<Word>, slots1: Sem.Slots,
                  s2: State, a: int, dest: Reg, v: Word)
    requires Ready(env, act, sp, slots, s)
    requires ExprDone(env, sp, slots, s, s1, e1, d1, v1, slots1) && s1.regs[dest] == v
    requires a in slots1 && s2 == Advance(s1.(mem := Store(s1.mem, a, v)))
    ensures ExprDone(env, sp, slots, s, s2, s2.pc, dest, Some(v), slots1[a := Some(v)])
  {
    hide Load, Store;
    StoreSlot(env, sp, slots1, s1.mem, a, v);
    PreservedTrans(s.mem, s1.mem, s2.mem, slots, slots1, sp, sp);
    assert slots1[a := Some(v)].Keys == slots1.Keys;
  }

  lemma EvalRuns(env: Env, fuel: nat, act: Sem.Activation, sp: int, slots: Sem.Slots, s: State, base: int, e: S.Expr, dest: Reg) returns (n: nat)
    requires EvalPre(env, act, sp, slots, s, base, e, dest)
    ensures EvalPost(env, fuel, sp, slots, s, n, base + |ExprCode(e, dest, act.frame)|, dest, Sem.Eval(fuel, act, sp, e, slots))
    ensures SpineKept(env, fuel, act, sp, slots, s, n, e, dest)
    decreases fuel, e, 2
  {
    hide Run, Placed, Load, Sem.Eval, ExprCode, Linked, Ready, ExprDone;
    if S.CallFree(e) {
      n := PureRuns(env, fuel, act, sp, slots, s, base, e, dest);
    } else {
      match e {
        case BinOp(_, _, _) => n := EvalBin(env, fuel, act, sp, slots, s, base, e, dest);
        case Deref(_) => n := EvalDeref(env, fuel, act, sp, slots, s, base, e, dest);
        case Assign(_, _) => n := EvalAssign(env, fuel, act, sp, slots, s, base, e, dest);
        case DerefAssign(_, _) => n := EvalStore(env, fuel, act, sp, slots, s, base, e, dest);
        case Call(_, _) => n := EvalCall(env, fuel, act, sp, slots, s, base, e, dest);
      }
    }
  }

  lemma EvalBin(env: Env, fuel: nat, act: Sem.Activation, sp: int, slots: Sem.Slots, s: State, base: int, e: S.Expr, dest: Reg) returns (n: nat)
    requires EvalPre(env, act, sp, slots, s, base, e, dest) && e.BinOp? && !S.CallFree(e)
    ensures EvalPost(env, fuel, sp, slots, s, n, base + |ExprCode(e, dest, act.frame)|, dest, Sem.Eval(fuel, act, sp, e, slots))
    ensures SpineKept(env, fuel, act, sp, slots, s, n, e, dest)
    decreases fuel, e, 0
  {
    hide Run, Placed, Load, Linked, Ready, ExprDone, Sem.BinVal, OpCode, ExprCode;
    var BinOp(op, l, r) := e;
    var tmp := Temp(dest);
    var cl, cr, co := ExprCode(l, dest, act.frame), ExprCode(r, tmp, act.frame), OpCode(op, dest, tmp);
    BinCode(e, dest, act.frame);
    PlacedSplit(env.t, env.entries, base, cl, cr + co);
    PlacedSplit(env.t, env.entries, base + |cl|, cr, co);
    n := EvalRuns(env, fuel, act, sp, slots, s, base, l, dest);
    var a := Sem.Eval(fuel, act, sp, l, slots);
    if Sem.HasValue(a) {
      var s1 := Run(env.t, s, n).s;
      assert ExprDone(env, sp, slots, s, s1, base + |cl|, dest, a.value, a.slots);
      StillReady(env, act, sp, slots, s, s1, base + |cl|, dest, a.value, a.slots);
      DoneFacts(env, sp, slots, s, s1, base + |cl|, dest, a.value, a.slots);
      CallFreeIsSafe(r, env.safe);
      var m := PureRuns(env, fuel, act, sp, a.slots, s1, base + |cl|, r, tmp);
      RunThen(env.t, s, n, m);
      n := n + m;
      var b := Sem.Eval(fuel, act, sp, r, a.slots);
      if Sem.HasValue(b) {
        var s2 := Run(env.t, s, n).s;
        DoneTrans(env, sp, slots, s, s1, base + |cl|, dest, a.value, a.slots, s2, base + |cl| + |cr|, tmp, b.value, b.slots);
        DoneFacts(env, sp, slots, s, s2, base + |cl| + |cr|, tmp, b.value, b.slots);
        var k := OpRuns(env.t, env.entries, base + |cl| + |cr|, op, dest, s2);
        RunThen(env.t, s, n, k);
        n := n + k;
        DoneSet(env, sp, slots, s, s2, base + |cl| + |cr|, tmp, b.value, b.slots, Run(env.t, s, n).s, dest, Sem.BinVal(op, a.value.value, b.value.value));
      }
    }
  }

  lemma DoneFacts(env: Env, sp: int, slots: Sem.Slots, s: State, s1: State, end: int, dest: Reg, v: Option<Word>, slots1: Sem.Slots)
    requires ExprDone(env, sp, slots, s, s1, end, dest, v, slots1)
    ensures s1.pc == end && (v.Some? ==> s1.regs[dest] == v.value) && s1.regs[FP] == s.regs[FP]
  {
  }

  lemma SlotMapped(env: Env, act: Sem.Activation, sp: int, slots: Sem.Slots, s: State, a: int)
    requires Linked(env) && Ready(env, act, sp, slots, s) && a in slots
    ensures 0 <= a < TWO64 && Mapped(s.mem, a) && s.regs[FP] == act.fp
    ensures slots[a].Some? ==> Load(s.mem, a) == slots[a].value
  {
    hide Load;
  }

  lemma EvalDeref(env: Env, fuel: nat, act: Sem.Activation, sp: int, slots: Sem.Slots, s: State, base: int, e: S.Expr, dest: Reg) returns (n: nat)
    requires EvalPre(env, act, sp, slots, s, base, e, dest) && e.Deref? && !S.CallFree(e)
    ensures EvalPost(env, fuel, sp, slots, s, n, base + |ExprCode(e, dest, act.frame)|, dest, Sem.Eval(fuel, act, sp, e, slots))
    ensures SpineKept(env, fuel, act, sp, slots, s, n, e, dest)
    decreases fuel, e, 0
  {
    hide Run, Placed, Load, Linked, Ready, ExprDone, Sem.Eval;
    OneStep(fuel, act, sp, e, slots);
    var cp := ExprCode(e.ptr, dest, act.frame);
    PlacedSplit(env.t, env.entries, base, cp, [I(Ld(dest, dest, 0))]);
    n := EvalRuns(env, fuel, act, sp, slots, s, base, e.ptr, dest);
    var a := Sem.Eval(fuel, act, sp, e.ptr, slots);
    if Sem.HasValue(a) && Sem.ReadSlot(a.slots, a.value.value).Done? {
      var s1 := Run(env.t, s, n).s;
      StillReady(env, act, sp, slots, s, s1, base + |cp|, dest, a.value, a.slots);
      DoneFacts(env, sp, slots, s, s1, base + |cp|, dest, a.value, a.slots);
      SlotMapped(env, act, sp, a.slots, s1, a.value.value);
      LoadRuns(env.t, env.entries, base + |cp|, dest, dest, 0, s, n);
      n := n + 1;
      DoneSet(env, sp, slots, s, s1, base + |cp|, dest, a.value, a.slots, Run(env.t, s, n).s, dest, a.slots[a.value.value].value);
    }
  }

  lemma EvalAssign(env: Env, fuel: nat, act: Sem.Activation, sp: int, slots: Sem.Slots, s: State, base: int, e: S.Expr, dest: Reg) returns (n: nat)
    requires EvalPre(env, act, sp, slots, s, base, e, dest) && e.Assign? && !S.CallFree(e)
    ensures EvalPost(env, fuel, sp, slots, s, n, base + |ExprCode(e, dest, act.frame)|, dest, Sem.Eval(fuel, act, sp, e, slots))
    ensures SpineKept(env, fuel, act, sp, slots, s, n, e, dest)
    decreases fuel, e, 0
  {
    hide Run, Placed, Load, Store, Linked, Ready, ExprDone, Sem.Eval;
    OneStep(fuel, act, sp, e, slots);
    var cv, off, slot := ExprCode(e.val, dest, act.frame), Offset(act.frame, e.id), Sem.Slot(act, e.id);
    PlacedSplit(env.t, env.entries, base, cv, [I(St(dest, FP, off))]);
    n := EvalRuns(env, fuel, act, sp, slots, s, base, e.val, dest);
    var a := Sem.Eval(fuel, act, sp, e.val, slots);
    if Sem.HasValue(a) && slot in a.slots {
      var s1 := Run(env.t, s, n).s;
      StillReady(env, act, sp, slots, s, s1, base + |cv|, dest, a.value, a.slots);
      DoneFacts(env, sp, slots, s, s1, base + |cv|, dest, a.value, a.slots);
      SlotMapped(env, act, sp, a.slots, s1, slot);
      SaveRuns(env.t, env.entries, base + |cv|, dest, FP, off, s, n);
      n := n + 1;
      DoneStore(env, act, sp, slots, s, s1, base + |cv|, dest, a.value, a.slots, Run(env.t, s, n).s, slot, dest, a.value.value);
    }
  }

  lemma EvalStore(env: Env, fuel: nat, act: Sem.Activation, sp: int, slots: Sem.Slots, s: State, base: int, e: S.Expr, dest: Reg) returns (n: nat)
    requires EvalPre(env, act, sp, slots, s, base, e, dest) && e.DerefAssign? && !S.CallFree(e)
    ensures EvalPost(env, fuel, sp, slots, s, n, base + |ExprCode(e, dest, act.frame)|, dest, Sem.Eval(fuel, act, sp, e, slots))
    ensures SpineKept(env, fuel, act, sp, slots, s, n, e, dest)
    decreases fuel, e, 0
  {
    hide Run, Placed, Load, Store, Linked, Ready, ExprDone, ExprCode, Sem.Eval;
    SlotSteps(fuel, act, sp, e, e.val, e.ptr, slots);
    var DerefAssign(p, v) := e;
    var tmp := Temp(dest);
    var cv, cp, co := ExprCode(v, dest, act.frame), ExprCode(p, tmp, act.frame), [I(St(dest, tmp, 0))];
    StoreCode(e, dest, act.frame);
    PlacedSplit(env.t, env.entries, base, cv, cp + co);
    PlacedSplit(env.t, env.entries, base + |cv|, cp, co);
    n := EvalRuns(env, fuel, act, sp, slots, s, base, v, dest);
    var a := Sem.Eval(fuel, act, sp, v, slots);
    if Sem.HasValue(a) {
      var s1 := Run(env.t, s, n).s;
      StillReady(env, act, sp, slots, s, s1, base + |cv|, dest, a.value, a.slots);
      DoneFacts(env, sp, slots, s, s1, base + |cv|, dest, a.value, a.slots);
      CallFreeIsSafe(p, env.safe);
      var m := PureRuns(env, fuel, act, sp, a.slots, s1, base + |cv|, p, tmp);
      RunThen(env.t, s, n, m);
      n := n + m;
      var b := Sem.Eval(fuel, act, sp, p, a.slots);
      if Sem.HasValue(b) && b.value.value in b.slots {
        var s2 := Run(env.t, s, n).s;
        var mid := base + |cv| + |cp|;
        DoneTrans(env, sp, slots, s, s1, base + |cv|, dest, a.value, a.slots, s2, mid, tmp, b.value, b.slots);
        StillReady(env, act, sp, slots, s, s2, mid, tmp, b.value, b.slots);
        DoneFacts(env, sp, slots, s, s2, mid, tmp, b.value, b.slots);
        SlotMapped(env, act, sp, b.slots, s2, b.value.value);
        SaveRuns(env.t, env.entries, mid, dest, tmp, 0, s, n);
        n := n + 1;
        DoneStore(env, act, sp, slots, s, s2, mid, tmp, b.value, b.slots, Run(env.t, s, n).s, b.value.value, dest, a.value.value);
      }
    }
  }

  // ---- Calls ----

  function Authority(env: Env, ret: int): ReturnAuthority
    requires 0 <= ret <= MAX_WORDS
  {
    ReturnAuthority(env.t.codeObject, env.t.generation, 4 * ret)
  }

  /** R4 after the arguments have been pushed through it. */
  function AfterArgs(r4: Word, values: seq<Word>): Word {
    if values == [] then r4 else values[|values| - 1]
  }

  ghost predicate ArgsDone(env: Env, sp: int, slots: Sem.Slots, s: State, s': State, end: int, values: seq<Word>, slots': Sem.Slots) {
    && s'.pc == end && s'.retStack == s.retStack
    && s'.regs[FP] == s.regs[FP] && s'.regs[SP] == sp - 8 * |values| >= env.lo
    && s'.regs[R4] == AfterArgs(s.regs[R4], values)
    && slots'.Keys == slots.Keys
    && Agrees(slots', s'.mem)
    && Preserved(s.mem, s'.mem, slots, sp)
    && forall j :: 0 <= j < |values| ==> Load(s'.mem, sp - 8 * (j + 1)) == values[j]
  }

  ghost predicate ArgsPost(env: Env, fuel: nat, sp: int, slots: Sem.Slots, s: State, n: nat, end: int, count: nat, r: Sem.ArgResult) {
    var o := Run(env.t, s, n);
    match r
    case ArgStuck => true
    case ArgOutOfFuel => o.Next? && n >= fuel
    case Args(values, slots') => o.Next? && |values| == count && ArgsDone(env, sp, slots, s, o.s, end, values, slots')
  }

  ghost predicate ArgsPre(env: Env, act: Sem.Activation, sp: int, slots: Sem.Slots, s: State, base: int, args: seq<S.Expr>, limit: nat) {
    && Linked(env) && Ready(env, act, sp, slots, s) && s.pc == base
    && |args| <= limit && S.SafeCallsAll(args, env.safe) && ArgsOk(args, limit, act.frame)
    && S.ScratchArgs(args) <= 3
    && Placed(env.t, env.entries, base, PushCode(args, limit, act.frame))
  }

  lemma PushSteps(env: Env, sp: int, s: State, base: int)
    requires s.pc == base && s.regs[SP] == sp && 8 <= sp && Mapped(s.mem, sp - 8)
    requires Placed(env.t, env.entries, base, PushOne())
    ensures var o := Run(env.t, s, 2);
      && o.Next? && o.s.pc == base + 2 && o.s.retStack == s.retStack
      && o.s.regs == s.regs[SP := sp - 8] && o.s.mem == Store(s.mem, sp - 8, s.regs[R4])
  {
    hide Run, Placed, Load, Store, AluFlags;
    assert PushOne() == [I(AluImm(Sub, SP, SP, 8))] + [I(St(R4, SP, 0))];
    PlacedSplit(env.t, env.entries, base, [I(AluImm(Sub, SP, SP, 8))], [I(St(R4, SP, 0))]);
    RunOne(env.t, env.entries, base, AluImm(Sub, SP, SP, 8), s);
    SaveRuns(env.t, env.entries, base + 1, R4, SP, 0, s, 1);
  }

  /** SP -= 8; [SP] = R4, after a finished argument. */
  lemma PushRuns(env: Env, act: Sem.Activation, sp: int, slots: Sem.Slots, s: State, base: int)
    requires Linked(env) && Ready(env, act, sp, slots, s) && s.pc == base
    requires Placed(env.t, env.entries, base, PushOne()) && env.lo <= sp - 8
    ensures var o := Run(env.t, s, 2);
      && o.Next? && o.s.pc == base + 2 && o.s.retStack == s.retStack
      && o.s.regs == s.regs[SP := sp - 8]
      && o.s.mem == Store(s.mem, sp - 8, s.regs[R4])
      && Ready(env, act, sp - 8, slots, o.s)
      && Preserved(s.mem, o.s.mem, slots, sp)
      && Load(o.s.mem, sp - 8) == s.regs[R4]
      && sp - 8 !in slots
  {
    hide Run, Placed, Load, Store, FunctionLinked, Execute;
    PushSteps(env, sp, s, base);
    StoreBelow(slots, sp, env.hi, s.mem, sp - 8, s.regs[R4]);
    LoadStoreSame(s.mem, sp - 8, s.regs[R4]);
  }

  lemma ArgsRun(env: Env, fuel: nat, act: Sem.Activation, sp: int, slots: Sem.Slots, s: State, base: int, args: seq<S.Expr>, limit: nat) returns (n: nat)
    requires ArgsPre(env, act, sp, slots, s, base, args, limit)
    ensures ArgsPost(env, fuel, sp, slots, s, n, base + |PushCode(args, limit, act.frame)|, |args|, Sem.EvalArgs(fuel, act, sp, args, slots))
    decreases fuel, args, 0
  {
    hide Run, Placed, Load, Store, FunctionLinked, ExprDone, ExprCode, PushOne, Sem.Eval;
    if args == [] {
      RunNone(env.t, s);
      n := 0;
    } else {
      var c, push, rest := ExprCode(args[0], R4, act.frame), PushOne(), PushCode(args[1..], limit - 1, act.frame);
      assert PushCode(args, limit, act.frame) == c + (push + rest);
      PlacedSplit(env.t, env.entries, base, c, push + rest);
      PlacedSplit(env.t, env.entries, base + |c|, push, rest);
      n := EvalRuns(env, fuel, act, sp, slots, s, base, args[0], R4);
      var a := Sem.Eval(fuel, act, sp, args[0], slots);
      if Sem.HasValue(a) && env.lo <= sp - 8 {
        var s1 := Run(env.t, s, n).s;
        StillReady(env, act, sp, slots, s, s1, base + |c|, R4, a.value, a.slots);
        DoneFacts(env, sp, slots, s, s1, base + |c|, R4, a.value, a.slots);
        PushRuns(env, act, sp, a.slots, s1, base + |c|);
        RunThen(env.t, s, n, 2);
        n := n + 2;
        var s2 := Run(env.t, s, n).s;
        PushLength();
        var m := ArgsRun(env, fuel, act, sp - 8, a.slots, s2, base + |c| + 2, args[1..], limit - 1);
        RunThen(env.t, s, n, m);
        n := n + m;
        var r := Sem.EvalArgs(fuel, act, sp - 8, args[1..], a.slots);
        if r.Args? {
          ArgsTrans(env, sp, slots, s, s1, base + |c|, a.value, a.slots, s2, Run(env.t, s, n).s, base + |c| + 2 + |rest|, r.values, r.slots);
        }
      }
    }
  }

  lemma PushLength()
    ensures |PushOne()| == 2
  {
  }

  lemma ArgsTrans(env: Env, sp: int, slots: Sem.Slots, s: State, s1: State, mid: int, v: Option<Word>, slots1: Sem.Slots,
                  s2: State, s3: State, end: int, values: seq<Word>, slots2: Sem.Slots)
    requires ExprDone(env, sp, slots, s, s1, mid, R4, v, slots1) && v.Some?
    requires 8 <= sp < TWO64 && s2.retStack == s1.retStack && s2.regs == s1.regs[SP := sp - 8]
    requires Preserved(s1.mem, s2.mem, slots1, sp) && Load(s2.mem, sp - 8) == s1.regs[R4]
    requires sp % 8 == 0 && sp - 8 !in slots1
    requires ArgsDone(env, sp - 8, slots1, s2, s3, end, values, slots2)
    ensures ArgsDone(env, sp, slots, s, s3, end, [v.value] + values, slots2)
  {
    hide Load;
    PreservedTrans(s.mem, s1.mem, s2.mem, slots, slots1, sp, sp);
    PreservedTrans(s.mem, s2.mem, s3.mem, slots, slots1, sp, sp - 8);
    var all := [v.value] + values;
    forall j | 0 <= j < |all| ensures Load(s3.mem, sp - 8 * (j + 1)) == all[j] {
      if j == 0 {
        assert Load(s3.mem, sp - 8) == Load(s2.mem, sp - 8);
      } else {
        assert Load(s3.mem, sp - 8 - 8 * ((j - 1) + 1)) == values[j - 1];
      }
    }
  }

  /** R_i .. R_{argc-1} are loaded from the stack, the deepest word first. */
  lemma PopRuns(env: Env, argc: nat, i: nat, s: State, base: int)
    requires i <= argc <= 4 && s.pc == base
    requires Placed(env.t, env.entries, base, PopCode(argc, i))
    requires s.mem.lo <= s.regs[SP] && s.regs[SP] + 8 * argc <= s.mem.hi < TWO64
    ensures |PopCode(argc, i)| == argc - i
    ensures var o := Run(env.t, s, argc - i);
      && o.Next? && o.s.pc == base + argc - i && o.s.retStack == s.retStack && o.s.mem == s.mem
      && (forall r: Reg :: r < i || argc <= r ==> o.s.regs[r] == s.regs[r])
      && (forall j: Reg :: i <= j < argc ==> o.s.regs[j] == Load(s.mem, s.regs[SP] + (argc - 1 - j) * 8))
    decreases argc - i
  {
    hide Run, Placed, Load, Execute;
    RunNone(env.t, s);
    if i < argc {
      var ld := Ld(i, SP, (argc - 1 - i) * 8);
      PlacedSplit(env.t, env.entries, base, [I(ld)], PopCode(argc, i + 1));
      LoadRuns(env.t, env.entries, base, i, SP, (argc - 1 - i) * 8, s, 0);
      PopRuns(env, argc, i + 1, Run(env.t, s, 1).s, base + 1);
      RunThen(env.t, s, 1, argc - i - 1);
    }
  }

  lemma DropRuns(env: Env, argc: nat, s: State, base: int) returns (n: nat)
    requires argc <= 4 && s.pc == base && Placed(env.t, env.entries, base, DropCode(argc))
    requires s.regs[SP] + 8 * argc < TWO64
    ensures var o := Run(env.t, s, n);
      && o.Next? && o.s == s.(pc := base + |DropCode(argc)|, flags := o.s.flags, regs := s.regs[SP := s.regs[SP] + 8 * argc])
  {
    hide Run, Placed;
    RunNone(env.t, s);
    n := 0;
    if argc > 0 {
      RunOne(env.t, env.entries, base, AluImm(Add, SP, SP, argc * 8), s);
      n := 1;
    } else {
      assert s.regs[SP := s.regs[SP]] == s.regs;
    }
  }

  /** Arguments stand in R0.. and the stack pointer is back, one word before the CALL. */
  ghost predicate CallReady(env: Env, act: Sem.Activation, sp: int, slots: Sem.Slots, s: State, s': State, end: int, values: seq<Word>, slots': Sem.Slots) {
    && s'.pc == end && s'.retStack == s.retStack
    && Ready(env, act, sp, slots', s')
    && slots'.Keys == slots.Keys
    && Preserved(s.mem, s'.mem, slots, sp)
    && s'.regs[R4] == AfterArgs(s.regs[R4], values)
    && |values| <= 4 && forall j: Reg :: j < |values| ==> s'.regs[j] == values[j]
  }

  lemma PopToRegisters(env: Env, act: Sem.Activation, sp: int, slots: Sem.Slots, s: State, s1: State, base: int, values: seq<Word>, slots1: Sem.Slots) returns (n: nat)
    requires Linked(env) && Ready(env, act, sp, slots, s) && |values| <= 4
    requires ArgsDone(env, sp, slots, s, s1, base, values, slots1)
    requires Placed(env.t, env.entries, base, PopCode(|values|, 0) + DropCode(|values|))
    ensures var o := Run(env.t, s1, n);
      o.Next? && CallReady(env, act, sp, slots, s, o.s, base + |PopCode(|values|, 0) + DropCode(|values|)|, values, slots1)
  {
    hide Run, Placed, Load, FunctionLinked;
    var argc := |values|;
    PlacedSplit(env.t, env.entries, base, PopCode(argc, 0), DropCode(argc));
    PopRuns(env, argc, 0, s1, base);
    var s2 := Run(env.t, s1, argc).s;
    var m := DropRuns(env, argc, s2, base + argc);
    RunThen(env.t, s1, argc, m);
    n := argc + m;
    forall j: Reg | j < argc ensures s2.regs[j] == values[j] {
      assert Load(s1.mem, sp - 8 * (j + 1)) == values[j];
    }
  }

  ghost predicate InvokePre(env: Env, sp: int, slots: Sem.Slots, s: State, name: string, values: seq<Word>, ret: int) {
    && Linked(env) && Grounded(env, sp, slots, s)
    && S.FindFunction(env.prog, name).Some?
    && name in env.entries && s.pc == env.entries[name]
    && 0 <= ret <= MAX_WORDS && s.regs[LR] == 4 * ret
    && s.retStack != [] && s.retStack[|s.retStack| - 1] == Authority(env, ret)
    && |values| <= 4 && forall j: Reg :: j < |values| ==> s.regs[j] == values[j]
  }

  /** Back at the return address with the stack as it was. */
  ghost predicate InvokeDone(env: Env, sp: int, slots: Sem.Slots, s: State, s': State, ret: int, value: Option<Word>, slots': Sem.Slots) {
    && s'.pc == ret && s.retStack != [] && s'.retStack == s.retStack[..|s.retStack| - 1]
    && s'.regs[FP] == s.regs[FP] && s'.regs[SP] == sp
    && (value.Some? ==> s'.regs[R0] == value.value)
    && slots'.Keys == slots.Keys
    && Agrees(slots', s'.mem)
    && Preserved(s.mem, s'.mem, slots, sp)
  }

  ghost predicate InvokePost(env: Env, fuel: nat, sp: int, slots: Sem.Slots, s: State, n: nat, ret: int, r: Sem.Result) {
    var o := Run(env.t, s, n);
    match r
    case Stuck => true
    case OutOfFuel => o.Next? && n >= fuel
    case Done(v, slots') => o.Next? && InvokeDone(env, sp, slots, s, o.s, ret, v, slots')
  }

  /** CALL enters the function with its return authority minted. */
  lemma CallStep(env: Env, sp: int, slots: Sem.Slots, s: State, name: string, values: seq<Word>)
    requires Linked(env) && Grounded(env, sp, slots, s)
    requires |values| <= 4 && forall j: Reg :: j < |values| ==> s.regs[j] == values[j]
    requires Placed(env.t, env.entries, s.pc, [CallTo(name)]) && S.FindFunction(env.prog, name).Some?
    ensures var o := Run(env.t, s, 1);
      && o.Next? && 0 <= s.pc + 1 <= MAX_WORDS && InvokePre(env, sp, slots, o.s, name, values, s.pc + 1)
      && o.s.retStack == s.retStack + [Authority(env, s.pc + 1)]
      && o.s.mem == s.mem && o.s.regs[FP] == s.regs[FP] && o.s.regs[R4] == s.regs[R4]
  {
    hide Load, FunctionCode;
    assert FunctionLinked(env, name);
    assert Matches(env.entries, [CallTo(name)][0], s.pc, env.t.code[s.pc]);
    FunctionNonempty(env.prog[S.FindFunction(env.prog, name).value]);
    assert Run(env.t, s, 1) == Step(env.t, s) by {
      assert Step(env.t, s).Next? ==> Run(env.t, Step(env.t, s).s, 0) == Next(Step(env.t, s).s);
    }
  }

  lemma CallReadyFacts(env: Env, act: Sem.Activation, sp: int, slots: Sem.Slots, s: State, s1: State, at: int, values: seq<Word>, slots1: Sem.Slots)
    requires CallReady(env, act, sp, slots, s, s1, at, values, slots1)
    ensures Grounded(env, sp, slots1, s1) && s1.pc == at
    ensures |values| <= 4 && forall j: Reg :: j < |values| ==> s1.regs[j] == values[j]
    ensures s1.regs[R4] == AfterArgs(s.regs[R4], values)
  {
    hide Load;
  }

  lemma FunctionNonempty(f: S.Function)
    requires FunctionOk(f)
    ensures |FunctionCode(f)| >= 1
  {
  }

  function CallWord(base: int, args: seq<S.Expr>, frame: seq<S.VarId>): int
    requires ArgsOk(args, 4, frame) && |args| <= 4
  {
    base + |PushCode(args, 4, frame)| + |PopCode(|args|, 0) + DropCode(|args|)|
  }

  lemma CallCode(e: S.Expr, dest: Reg, frame: seq<S.VarId>)
    requires e.Call? && ExprOk(e, frame) && |e.args| <= 4
    ensures ExprCode(e, dest, frame)
      == PushCode(e.args, 4, frame) + ((PopCode(|e.args|, 0) + DropCode(|e.args|)) + ([CallTo(e.name)] + ResultCode(dest)))
  {
  }

  lemma CallSetup(env: Env, fuel: nat, act: Sem.Activation, sp: int, slots: Sem.Slots, s: State, base: int, e: S.Expr, dest: Reg) returns (n: nat)
    requires EvalPre(env, act, sp, slots, s, base, e, dest) && e.Call?
    ensures var r := Sem.EvalArgs(fuel, act, sp, e.args, slots); var o := Run(env.t, s, n);
      && (r.ArgOutOfFuel? ==> o.Next? && n >= fuel)
      && (r.Args? ==> o.Next? && CallReady(env, act, sp, slots, s, o.s, CallWord(base, e.args, act.frame), r.values, r.slots))
    decreases fuel, e, 0
  {
    hide Run, Placed, Load, Linked, Ready, ArgsDone, CallReady, PushCode, PopCode, DropCode, ExprCode, Sem.EvalArgs;
    var args := e.args;
    var push, pop, tail := PushCode(args, 4, act.frame), PopCode(|args|, 0) + DropCode(|args|), [CallTo(e.name)] + ResultCode(dest);
    CallCode(e, dest, act.frame);
    PlacedSplit(env.t, env.entries, base, push, pop + tail);
    PlacedSplit(env.t, env.entries, base + |push|, pop, tail);
    n := ArgsRun(env, fuel, act, sp, slots, s, base, args, 4);
    var r := Sem.EvalArgs(fuel, act, sp, args, slots);
    if r.Args? {
      var m := PopToRegisters(env, act, sp, slots, s, Run(env.t, s, n).s, base + |push|, r.values, r.slots);
      RunThen(env.t, s, n, m);
      n := n + m;
    }
  }

  lemma EvalCall(env: Env, fuel: nat, act: Sem.Activation, sp: int, slots: Sem.Slots, s: State, base: int, e: S.Expr, dest: Reg) returns (n: nat)
    requires EvalPre(env, act, sp, slots, s, base, e, dest) && e.Call?
    ensures EvalPost(env, fuel, sp, slots, s, n, base + |ExprCode(e, dest, act.frame)|, dest, Sem.Eval(fuel, act, sp, e, slots))
    ensures var r := Sem.Eval(fuel, act, sp, e, slots); Sem.HasValue(r) ==> Run(env.t, s, n).s.regs[R0] == r.value.value
    decreases fuel, e, 1
  {
    hide Run, Placed, Load, Linked, Ready, Grounded, CallReady, InvokePre, InvokeDone, ExprDone, PushCode, PopCode, DropCode, ExprCode;
    var Call(name, args) := e;
    var at := CallWord(base, args, act.frame);
    CallCode(e, dest, act.frame);
    PlacedSplit(env.t, env.entries, base, PushCode(args, 4, act.frame), (PopCode(|args|, 0) + DropCode(|args|)) + ([CallTo(name)] + ResultCode(dest)));
    PlacedSplit(env.t, env.entries, base + |PushCode(args, 4, act.frame)|, PopCode(|args|, 0) + DropCode(|args|), [CallTo(name)] + ResultCode(dest));
    PlacedSplit(env.t, env.entries, at, [CallTo(name)], ResultCode(dest));
    n := CallSetup(env, fuel, act, sp, slots, s, base, e, dest);
    var r := Sem.EvalArgs(fuel, act, sp, args, slots);
    ReadyFacts(env, act, sp, slots, s);
    if r.Args? && fuel > 0 && S.FindFunction(env.prog, name).Some? {
      var s2 := Run(env.t, s, n).s;
      CallReadyFacts(env, act, sp, slots, s, s2, at, r.values, r.slots);
      CallStep(env, sp, r.slots, s2, name, r.values);
      RunThen(env.t, s, n, 1);
      n := n + 1;
      var s3 := Run(env.t, s, n).s;
      var k := InvokeRuns(env, fuel - 1, sp, r.slots, s3, name, r.values, at + 1);
      RunThen(env.t, s, n, k);
      n := n + k;
      var v := Sem.Invoke(fuel - 1, env.prog, env.lo, sp, name, r.values, r.slots);
      if v.Done? {
        n := CallResult(env, act, sp, slots, s, s2, s3, at, r.values, r.slots, n, dest, v.value, v.slots);
      }
    }
  }

  lemma ReadyFacts(env: Env, act: Sem.Activation, sp: int, slots: Sem.Slots, s: State)
    requires Ready(env, act, sp, slots, s)
    ensures act.prog == env.prog && act.lo == env.lo
  {
  }

  lemma CallResult(env: Env, act: Sem.Activation, sp: int, slots: Sem.Slots, s: State, s2: State, s3: State, at: int, values: seq<Word>, slots2: Sem.Slots,
                   k: nat, dest: Reg, v: Option<Word>, slots': Sem.Slots) returns (n: nat)
    requires Ready(env, act, sp, slots, s) && CallReady(env, act, sp, slots, s, s2, at, values, slots2)
    requires 0 <= at + 1 <= MAX_WORDS && s3.retStack == s2.retStack + [Authority(env, at + 1)]
    requires s3.mem == s2.mem && s3.regs[FP] == s2.regs[FP]
    requires Run(env.t, s, k).Next? && InvokeDone(env, sp, slots2, s3, Run(env.t, s, k).s, at + 1, v, slots')
    requires Placed(env.t, env.entries, at + 1, ResultCode(dest)) && dest < FP && k >= 1
    ensures n >= k && Run(env.t, s, n).Next?
    ensures ExprDone(env, sp, slots, s, Run(env.t, s, n).s, at + 1 + |ResultCode(dest)|, dest, v, slots')
    ensures v.Some? ==> Run(env.t, s, n).s.regs[R0] == v.value
    ensures dest != R4 ==> Run(env.t, s, n).s.regs[R4] == Run(env.t, s, k).s.regs[R4]
  {
    hide Run, Placed, Load;
    n := k;
    var s4 := Run(env.t, s, k).s;
    assert s4.retStack == s2.retStack;
    PreservedTrans(s.mem, s3.mem, s4.mem, slots, slots2, sp, sp);
    if dest != R0 {
      RunMore(env.t, env.entries, at + 1, Mov(dest, R0), s, k);
      n := k + 1;
    }
  }

  // ---- Function entry and exit ----

  lemma EnterRuns(env: Env, sp: int, slots: Sem.Slots, s: State, base: int)
    requires Linked(env) && Grounded(env, sp, slots, s) && s.pc == base && env.lo <= sp - 16
    requires Placed(env.t, env.entries, base, EnterCode())
    ensures var o := Run(env.t, s, 4);
      && o.Next? && o.s.pc == base + 4 && o.s.retStack == s.retStack
      && o.s.regs == s.regs[SP := sp - 16][FP := sp - 16]
      && o.s.mem == Store(Store(s.mem, sp - 8, s.regs[LR]), sp - 16, s.regs[FP])
  {
    hide Run, Placed, Load, Store, FunctionLinked, Layout, Agrees;
    var c0, c1, c2, c3 := St(LR, SP, -8), St(FP, SP, -16), AluImm(Sub, SP, SP, 16), Mov(FP, SP);
    assert EnterCode() == [I(c0)] + ([I(c1)] + ([I(c2)] + [I(c3)]));
    PlacedSplit(env.t, env.entries, base, [I(c0)], [I(c1)] + ([I(c2)] + [I(c3)]));
    PlacedSplit(env.t, env.entries, base + 1, [I(c1)], [I(c2)] + [I(c3)]);
    PlacedSplit(env.t, env.entries, base + 2, [I(c2)], [I(c3)]);
    RunNone(env.t, s);
    SaveRuns(env.t, env.entries, base, LR, SP, -8, s, 0);
    StoreBounds(s.mem, sp - 8, s.regs[LR]);
    SaveRuns(env.t, env.entries, base + 1, FP, SP, -16, s, 1);
    RunMore(env.t, env.entries, base + 2, c2, s, 2);
    RunMore(env.t, env.entries, base + 3, c3, s, 3);
  }

  /** R_i .. are stored to the parameter slots; no other word changes. */
  lemma ParamRuns(env: Env, n: nat, i: nat, s: State, base: int)
    requires i <= n <= 4 && s.pc == base && Placed(env.t, env.entries, base, ParamCode(n, i))
    requires 0 <= s.mem.lo <= s.regs[FP] - 8 * n && s.regs[FP] <= s.mem.hi < TWO64 && s.regs[FP] % 8 == 0
    ensures |ParamCode(n, i)| == n - i
    ensures var o := Run(env.t, s, n - i);
      && o.Next? && o.s.pc == base + n - i && o.s.retStack == s.retStack && o.s.regs == s.regs
      && o.s.mem.lo == s.mem.lo && o.s.mem.hi == s.mem.hi
      && (forall j: Reg :: i <= j < n ==> Load(o.s.mem, s.regs[FP] - 8 * (j + 1)) == s.regs[j])
      && (forall a :: a % 8 == 0 && (a <= s.regs[FP] - 8 * (n + 1) || s.regs[FP] - 8 * i <= a) ==> Load(o.s.mem, a) == Load(s.mem, a))
    decreases n - i
  {
    hide Run, Placed, Load, Store, Execute;
    RunNone(env.t, s);
    if i < n {
      var fp := s.regs[FP];
      var st := St(i, FP, -8 * (i + 1));
      PlacedSplit(env.t, env.entries, base, [I(st)], ParamCode(n, i + 1));
      SaveRuns(env.t, env.entries, base, i, FP, -8 * (i + 1), s, 0);
      var s1 := Run(env.t, s, 1).s;
      StoreBounds(s.mem, fp - 8 * (i + 1), s.regs[i]);
      LoadStoreSame(s.mem, fp - 8 * (i + 1), s.regs[i]);
      forall a | a % 8 == 0 && a != fp - 8 * (i + 1) ensures Load(s1.mem, a) == Load(s.mem, a) {
        LoadStoreOther(s.mem, fp - 8 * (i + 1), s.regs[i], a);
      }
      ParamRuns(env, n, i + 1, s1, base + 1);
      RunThen(env.t, s, 1, n - i - 1);
    }
  }

  lemma ReserveRuns(env: Env, k: nat, s: State, base: int) returns (n: nat)
    requires s.pc == base && Placed(env.t, env.entries, base, ReserveCode(k)) && 8 * k <= s.regs[SP]
    ensures var o := Run(env.t, s, n);
      && o.Next? && o.s == s.(pc := base + |ReserveCode(k)|, flags := o.s.flags, regs := s.regs[SP := s.regs[SP] - 8 * k])
  {
    hide Run, Placed;
    RunNone(env.t, s);
    n := 0;
    if k > 0 {
      RunOne(env.t, env.entries, base, AluImm(Sub, SP, SP, 8 * k), s);
      n := 1;
    } else {
      assert s.regs[SP := s.regs[SP]] == s.regs;
    }
  }

  lemma {:induction false} NewSlotAt(fp: int, k: nat, values: seq<Word>, i: nat)
    requires i < k
    ensures fp - 8 * (i + 1) in Sem.NewSlots(fp, k, values)
    ensures Sem.NewSlots(fp, k, values)[fp - 8 * (i + 1)] == if i < |values| then Some(values[i]) else None
    decreases k
  {
    if i < k - 1 {
      NewSlotAt(fp, k - 1, values, i);
    }
  }

  /** What a function body may rely on: its caller's frame pointer and its return address
      stand above its slots, matched by the top of the return stack. */
  ghost predicate Saved(env: Env, act: Sem.Activation, s: State, callerFp: Word, ret: int, stack: seq<ReturnAuthority>) {
    && 0 <= ret <= MAX_WORDS
    && Load(s.mem, act.fp) == callerFp && Load(s.mem, act.fp + 8) == 4 * ret
    && s.retStack == stack + [Authority(env, ret)]
  }

  lemma NewFrameAgrees(fp: int, f: S.Function, values: seq<Word>, slots: Sem.Slots, m: Mem, hi: int)
    requires |values| <= 4 && fp % 8 == 0 && Layout(slots, fp + 16, hi) && Agrees(slots, m)
    requires forall j: Reg :: j < |values| && j < |f.params| ==> Load(m, fp - 8 * (j + 1)) == values[j]
    ensures Agrees(slots + Sem.NewSlots(fp, |Sem.Frame(f)|, Sem.Bound(f, values)), m)
    ensures fp + 16 <= hi ==> Layout(slots + Sem.NewSlots(fp, |Sem.Frame(f)|, Sem.Bound(f, values)), fp - 8 * |Sem.Frame(f)|, hi)
    ensures fp !in slots + Sem.NewSlots(fp, |Sem.Frame(f)|, Sem.Bound(f, values))
    ensures fp + 8 !in slots + Sem.NewSlots(fp, |Sem.Frame(f)|, Sem.Bound(f, values))
  {
    hide Load;
    var k, vs := |Sem.Frame(f)|, Sem.Bound(f, values);
    var created := Sem.NewSlots(fp, k, vs);
    forall a | a in created && created[a].Some? ensures Load(m, a) == created[a].value {
      var i := (fp - a) / 8 - 1;
      assert a == fp - 8 * (i + 1) && 0 <= i < k;
      NewSlotAt(fp, k, vs, i);
    }
  }

  lemma PrologueRuns(env: Env, sp: int, slots: Sem.Slots, s: State, name: string, values: seq<Word>, ret: int, f: S.Function) returns (n: nat)
    requires InvokePre(env, sp, slots, s, name, values, ret)
    requires f == env.prog[S.FindFunction(env.prog, name).value]
    requires Placed(env.t, env.entries, s.pc, Prologue(f))
    requires env.lo <= sp - 16 - 8 * |Sem.Frame(f)|
    ensures n >= 1
    ensures var act := Sem.Activation(env.prog, env.lo, Sem.Frame(f), sp - 16);
      var o := Run(env.t, s, n);
      && o.Next? && o.s.pc == s.pc + |Prologue(f)| && o.s.regs[R4] == s.regs[R4]
      && Ready(env, act, Sem.Sp(act), slots + Sem.NewSlots(act.fp, |Sem.Frame(f)|, Sem.Bound(f, values)), o.s)
      && Saved(env, act, o.s, s.regs[FP], ret, s.retStack[..|s.retStack| - 1])
      && Preserved(s.mem, o.s.mem, slots, sp)
  {
    hide Run, Placed, Load, Store, FunctionLinked, EnterCode, ParamCode, ReserveCode;
    var base, fp, k := s.pc, sp - 16, |Sem.Frame(f)|;
    var p := S.Min4(|f.params|);
    EnterLength();
    PlacedSplit(env.t, env.entries, base, EnterCode(), ParamCode(p, 0) + ReserveCode(k));
    PlacedSplit(env.t, env.entries, base + 4, ParamCode(p, 0), ReserveCode(k));
    EnterRuns(env, sp, slots, s, base);
    var s1 := Run(env.t, s, 4).s;
    EnterMemory(env, sp, slots, s, s1);
    ParamRuns(env, p, 0, s1, base + 4);
    RunThen(env.t, s, 4, p);
    var s2 := Run(env.t, s, 4 + p).s;
    var m := ReserveRuns(env, k, s2, base + 4 + p);
    RunThen(env.t, s, 4 + p, m);
    n := 4 + p + m;
    FrameReady(env, sp, slots, s, s1, Run(env.t, s, n).s, name, values, ret, f);
  }

  lemma LayoutFacts(slots: Sem.Slots, sp: int, hi: int)
    requires Layout(slots, sp, hi)
    ensures forall a :: a in slots ==> sp <= a && a % 8 == 0
  {
  }

  lemma FrameReady(env: Env, sp: int, slots: Sem.Slots, s: State, s1: State, s3: State, name: string, values: seq<Word>, ret: int, f: S.Function)
    requires InvokePre(env, sp, slots, s, name, values, ret) && env.lo <= sp - 16 - 8 * |Sem.Frame(f)|
    requires s1.regs == s.regs[SP := sp - 16][FP := sp - 16] && s3.retStack == s.retStack
    requires s3.regs == s1.regs[SP := sp - 16 - 8 * |Sem.Frame(f)|]
    requires s3.mem.lo == s1.mem.lo == s.mem.lo && s3.mem.hi == s1.mem.hi == s.mem.hi
    requires Load(s1.mem, sp - 16) == s.regs[FP] && Load(s1.mem, sp - 8) == s.regs[LR]
    requires Preserved(s.mem, s1.mem, slots, sp) && Agrees(slots, s1.mem)
    requires forall j: Reg :: j < S.Min4(|f.params|) ==> Load(s3.mem, sp - 16 - 8 * (j + 1)) == s1.regs[j]
    requires forall a :: a % 8 == 0 && sp - 16 <= a ==> Load(s3.mem, a) == Load(s1.mem, a)
    ensures var act := Sem.Activation(env.prog, env.lo, Sem.Frame(f), sp - 16);
      && Ready(env, act, Sem.Sp(act), slots + Sem.NewSlots(act.fp, |Sem.Frame(f)|, Sem.Bound(f, values)), s3)
      && Saved(env, act, s3, s.regs[FP], ret, s.retStack[..|s.retStack| - 1])
      && Preserved(s.mem, s3.mem, slots, sp)
  {
    hide Load, FunctionLinked, Sem.NewSlots, Sem.Bound, Layout, Sem.Frame;
    assert Agrees(slots, s3.mem) by {
      LayoutFacts(slots, sp, env.hi);
    }
    hide Agrees;
    forall j: Reg | j < |values| && j < |f.params| ensures Load(s3.mem, sp - 16 - 8 * (j + 1)) == values[j] {
      assert s1.regs[j] == s.regs[j] == values[j];
    }
    NewFrameAgrees(sp - 16, f, values, slots, s3.mem, env.hi);
  }

  lemma EnterLength()
    ensures |EnterCode()| == 4
  {
  }

  lemma EnterMemory(env: Env, sp: int, slots: Sem.Slots, s: State, s1: State)
    requires Grounded(env, sp, slots, s) && s1.mem == Store(Store(s.mem, sp - 8, s.regs[LR]), sp - 16, s.regs[FP])
    ensures s1.mem.lo == s.mem.lo && s1.mem.hi == s.mem.hi
    ensures Load(s1.mem, sp - 16) == s.regs[FP] && Load(s1.mem, sp - 8) == s.regs[LR]
    ensures Preserved(s.mem, s1.mem, slots, sp) && Agrees(slots, s1.mem)
  {
    hide Load, Store;
    var m := Store(s.mem, sp - 8, s.regs[LR]);
    StoreBelow(slots, sp, env.hi, s.mem, sp - 8, s.regs[LR]);
    StoreBelow(slots, sp, env.hi, m, sp - 16, s.regs[FP]);
    LoadStoreSame(s.mem, sp - 8, s.regs[LR]);
    LoadStoreSame(m, sp - 16, s.regs[FP]);
    LoadStoreOther(m, sp - 16, s.regs[FP], sp - 8);
    PreservedTrans(s.mem, m, s1.mem, slots, slots, sp, sp);
  }

  /** The epilogue returns to the caller with R0, memory and every slot untouched. */
  lemma EpilogueRuns(env: Env, act: Sem.Activation, sp: int, slots: Sem.Slots, s: State, base: int, callerFp: Word, ret: int, stack: seq<ReturnAuthority>)
    requires Linked(env) && Ready(env, act, sp, slots, s) && Saved(env, act, s, callerFp, ret, stack)
    requires s.pc == base && Placed(env.t, env.entries, base, Epilogue())
    ensures var o := Run(env.t, s, 5);
      && o.Next? && o.s.pc == ret && o.s.retStack == stack && o.s.mem == s.mem
      && o.s.regs[FP] == callerFp && o.s.regs[SP] == act.fp + 16 && o.s.regs[R0] == s.regs[R0] && o.s.regs[R4] == s.regs[R4]
  {
    hide Run, Placed, Load, FunctionLinked, Layout, Agrees, AluFlags;
    var c0, c1, c2, c3, c4 := Mov(SP, FP), Ld(FP, SP, 0), Ld(LR, SP, 8), AluImm(Add, SP, SP, 16), Ret;
    assert Epilogue() == [I(c0)] + ([I(c1)] + ([I(c2)] + ([I(c3)] + [I(c4)])));
    PlacedSplit(env.t, env.entries, base, [I(c0)], [I(c1)] + ([I(c2)] + ([I(c3)] + [I(c4)])));
    PlacedSplit(env.t, env.entries, base + 1, [I(c1)], [I(c2)] + ([I(c3)] + [I(c4)]));
    PlacedSplit(env.t, env.entries, base + 2, [I(c2)], [I(c3)] + [I(c4)]);
    PlacedSplit(env.t, env.entries, base + 3, [I(c3)], [I(c4)]);
    RunOne(env.t, env.entries, base, c0, s);
    LoadRuns(env.t, env.entries, base + 1, FP, SP, 0, s, 1);
    LoadRuns(env.t, env.entries, base + 2, LR, SP, 8, s, 2);
    RunMore(env.t, env.entries, base + 3, c3, s, 3);
    RunMore(env.t, env.entries, base + 4, c4, s, 4);
    assert (stack + [Authority(env, ret)])[..|stack|] == stack;
  }

  // ---- Statements ----

  ghost predicate StmtDone(env: Env, act: Sem.Activation, slots: Sem.Slots, s: State, s': State, end: int, slots': Sem.Slots) {
    ExprDone(env, Sem.Sp(act), slots, s, s', end, R4, None, slots')
  }

  ghost predicate FunctionReturned(env: Env, act: Sem.Activation, slots: Sem.Slots, s: State, s': State, callerFp: Word, ret: int, stack: seq<ReturnAuthority>,
                                   slots': Sem.Slots) {
    && s'.pc == ret && s'.retStack == stack
    && s'.regs[FP] == callerFp && s'.regs[SP] == act.fp + 16
    && slots'.Keys == slots.Keys
    && Agrees(slots', s'.mem)
    && Preserved(s.mem, s'.mem, slots, Sem.Sp(act))
  }

  ghost predicate ExecPost(env: Env, fuel: nat, act: Sem.Activation, slots: Sem.Slots, s: State, n: nat, end: int, callerFp: Word, ret: int, stack: seq<ReturnAuthority>,
                           r: Sem.Outcome) {
    var o := Run(env.t, s, n);
    match r
    case StmtStuck => true
    case StmtOutOfFuel => o.Next? && n >= fuel
    case Normal(slots') => o.Next? && StmtDone(env, act, slots, s, o.s, end, slots')
    case Returned(v, slots') => o.Next? && FunctionReturned(env, act, slots, s, o.s, callerFp, ret, stack, slots') && o.s.regs[R0] == v
  }

  ghost predicate ExecPre(env: Env, act: Sem.Activation, slots: Sem.Slots, s: State, base: int, callerFp: Word, ret: int, stack: seq<ReturnAuthority>) {
    && Linked(env) && Ready(env, act, Sem.Sp(act), slots, s) && Saved(env, act, s, callerFp, ret, stack) && s.pc == base
  }

  lemma InvokeRuns(env: Env, fuel: nat, sp: int, slots: Sem.Slots, s: State, name: string, values: seq<Word>, ret: int) returns (n: nat)
    requires InvokePre(env, sp, slots, s, name, values, ret) && name in env.safe
    ensures InvokePost(env, fuel, sp, slots, s, n, ret, Sem.Invoke(fuel, env.prog, env.lo, sp, name, values, slots))
    decreases fuel, env.prog, 5
  {
    hide Run, Placed, Load, Ready, Saved, FunctionReturned, ExprDone, StmtsCode, Epilogue, Prologue, Sem.NewSlots;
    var f := env.prog[S.FindFunction(env.prog, name).value];
    assert FunctionLinked(env, name);
    var act := Sem.Activation(env.prog, env.lo, Sem.Frame(f), sp - 16);
    n := 0;
    if env.lo <= Sem.Sp(act) {
      var pro, body, epi := Prologue(f), StmtsCode(f.body, act.frame), if f.isVoid then Epilogue() else [];
      PlacedSplit(env.t, env.entries, s.pc, pro, body + epi);
      PlacedSplit(env.t, env.entries, s.pc + |pro|, body, epi);
      var stack := s.retStack[..|s.retStack| - 1];
      n := PrologueRuns(env, sp, slots, s, name, values, ret, f);
      var s1 := Run(env.t, s, n).s;
      var slots1 := slots + Sem.NewSlots(act.fp, |act.frame|, Sem.Bound(f, values));
      var m := BodyRuns(env, fuel, act, slots1, s1, s.pc + |pro|, f.body, s.regs[FP], ret, stack);
      RunThen(env.t, s, n, m);
      n := n + m;
      var r := Sem.ExecAll(fuel, act, f.body, slots1);
      if r.Returned? {
        Leave(env, sp, slots, s, s1, Run(env.t, s, n).s, act, slots1, ret, stack, f, values, r.slots);
      } else if r.Normal? && f.isVoid {
        var s2 := Run(env.t, s, n).s;
        StillFramed(env, act, slots1, s1, s2, s.pc + |pro| + |body|, r.slots, s.regs[FP], ret, stack);
        EpilogueRuns(env, act, Sem.Sp(act), r.slots, s2, s.pc + |pro| + |body|, s.regs[FP], ret, stack);
        RunThen(env.t, s, n, 5);
        n := n + 5;
        ReturnFromNormal(env, act, slots1, s1, s2, Run(env.t, s, n).s, s.pc + |pro| + |body|, r.slots, s.regs[FP], ret, stack);
        Leave(env, sp, slots, s, s1, Run(env.t, s, n).s, act, slots1, ret, stack, f, values, r.slots);
      }
    }
  }

  lemma StillFramed(env: Env, act: Sem.Activation, slots: Sem.Slots, s: State, s1: State, end: int, slots1: Sem.Slots, callerFp: Word, ret: int, stack: seq<ReturnAuthority>)
    requires Ready(env, act, Sem.Sp(act), slots, s) && Saved(env, act, s, callerFp, ret, stack)
    requires StmtDone(env, act, slots, s, s1, end, slots1)
    ensures Ready(env, act, Sem.Sp(act), slots1, s1) && Saved(env, act, s1, callerFp, ret, stack) && s1.pc == end
  {
    hide Load;
  }

  lemma ReturnFromNormal(env: Env, act: Sem.Activation, slots: Sem.Slots, s: State, s1: State, s2: State, end: int, slots1: Sem.Slots, callerFp: Word, ret: int, stack: seq<ReturnAuthority>)
    requires StmtDone(env, act, slots, s, s1, end, slots1)
    requires s2.pc == ret && s2.retStack == stack && s2.mem == s1.mem && s2.regs[FP] == callerFp && s2.regs[SP] == act.fp + 16
    ensures FunctionReturned(env, act, slots, s, s2, callerFp, ret, stack, slots1)
  {
    hide Load;
  }

  lemma Leave(env: Env, sp: int, slots: Sem.Slots, s: State, s1: State, s2: State, act: Sem.Activation, slots1: Sem.Slots, ret: int, stack: seq<ReturnAuthority>,
              f: S.Function, values: seq<Word>, slots2: Sem.Slots)
    requires s.retStack != [] && stack == s.retStack[..|s.retStack| - 1] && act.fp == sp - 16 && act.frame == Sem.Frame(f)
    requires slots1 == slots + Sem.NewSlots(act.fp, |Sem.Frame(f)|, Sem.Bound(f, values))
    requires Preserved(s.mem, s1.mem, slots, sp)
    requires FunctionReturned(env, act, slots1, s1, s2, s.regs[FP], ret, stack, slots2)
    ensures InvokeDone(env, sp, slots, s, s2, ret, None, Sem.Keep(slots2, slots))
  {
    hide Load;
    PreservedTrans(s.mem, s1.mem, s2.mem, slots, slots1, sp, Sem.Sp(act));
    assert Sem.Keep(slots2, slots).Keys == slots.Keys;
  }

  /** A finished prefix followed by the rest of the statement. */
  lemma ThenPost(env: Env, fuel: nat, fuel1: nat, act: Sem.Activation, slots: Sem.Slots, s: State, n: nat, mid: int, slots1: Sem.Slots, m: nat, end: int,
                 callerFp: Word, ret: int, stack: seq<ReturnAuthority>, r: Sem.Outcome)
    requires Run(env.t, s, n).Next? && StmtDone(env, act, slots, s, Run(env.t, s, n).s, mid, slots1)
    requires ExecPost(env, fuel1, act, slots1, Run(env.t, s, n).s, m, end, callerFp, ret, stack, r)
    requires n + fuel1 >= fuel
    ensures ExecPost(env, fuel, act, slots, s, n + m, end, callerFp, ret, stack, r)
  {
    hide Run, Load;
    var s1 := Run(env.t, s, n).s;
    RunThen(env.t, s, n, m);
    if r.Normal? || r.Returned? {
      PreservedTrans(s.mem, s1.mem, Run(env.t, s1, m).s.mem, slots, slots1, Sem.Sp(act), Sem.Sp(act));
    }
  }

  lemma NothingDone(env: Env, act: Sem.Activation, slots: Sem.Slots, s: State)
    requires Ready(env, act, Sem.Sp(act), slots, s)
    ensures StmtDone(env, act, slots, s, s, s.pc, slots)
  {
    hide Load;
  }

  lemma Weaken(env: Env, sp: int, slots: Sem.Slots, s: State, s1: State, end: int, dest: Reg, v: Option<Word>, slots1: Sem.Slots)
    requires ExprDone(env, sp, slots, s, s1, end, dest, v, slots1)
    ensures ExprDone(env, sp, slots, s, s1, end, R4, None, slots1)
  {
  }

  lemma JumpRuns(env: Env, act: Sem.Activation, slots: Sem.Slots, s: State, n: nat, at: int, off: int, slots1: Sem.Slots)
    requires Run(env.t, s, n).Next? && StmtDone(env, act, slots, s, Run(env.t, s, n).s, at, slots1)
    requires Placed(env.t, env.entries, at, Br(Al, off)) && -TWO21 <= off < TWO21
    ensures Run(env.t, s, n + 1).Next? && StmtDone(env, act, slots, s, Run(env.t, s, n + 1).s, at + off, slots1)
  {
    hide Run, Placed, Load;
    RunMore(env.t, env.entries, at, Branch(Al, off), s, n);
  }

  lemma TestRuns(env: Env, fuel: nat, act: Sem.Activation, slots: Sem.Slots, s: State, base: int, c: S.Expr, skip: int) returns (n: nat)
    requires Linked(env) && Ready(env, act, Sem.Sp(act), slots, s) && s.pc == base
    requires S.SafeCalls(c, env.safe) && RootOk(c, act.frame) && 0 <= skip < TWO21
    requires Placed(env.t, env.entries, base, TestCode(c, skip, act.frame))
    ensures var a := Sem.Eval(fuel, act, Sem.Sp(act), c, slots); var o := Run(env.t, s, n);
      && (a.OutOfFuel? ==> o.Next? && n >= fuel)
      && (Sem.HasValue(a) ==>
        && o.Next? && n >= 1
        && var end := base + |TestCode(c, skip, act.frame)|;
           StmtDone(env, act, slots, s, o.s, if a.value.value == 0 then end - 1 + skip else end, a.slots))
    decreases fuel, c, 3
  {
    hide Run, Placed, Load, Linked, Ready, ExprDone, ExprCode, Sem.Eval, SubFlags;
    var code, br := ExprCode(c, R4, act.frame), Br(Cond.Eq, skip);
    assert TestCode(c, skip, act.frame) == code + ([I(CmpImm(R4, 0))] + br);
    PlacedSplit(env.t, env.entries, base, code, [I(CmpImm(R4, 0))] + br);
    PlacedSplit(env.t, env.entries, base + |code|, [I(CmpImm(R4, 0))], br);
    n := EvalRuns(env, fuel, act, Sem.Sp(act), slots, s, base, c, R4);
    var a := Sem.Eval(fuel, act, Sem.Sp(act), c, slots);
    if Sem.HasValue(a) {
      var s1 := Run(env.t, s, n).s;
      DoneFacts(env, Sem.Sp(act), slots, s, s1, base + |code|, R4, a.value, a.slots);
      TestSteps(env, s, n, base + |code|, skip, a.value.value);
      n := n + 2;
      Moved(env, Sem.Sp(act), slots, s, s1, base + |code|, R4, a.value, a.slots, Run(env.t, s, n).s);
    }
  }

  /** Compare with zero, then branch when equal. */
  lemma TestSteps(env: Env, s: State, n: nat, at: int, skip: int, v: Word)
    requires Run(env.t, s, n).Next? && Run(env.t, s, n).s.pc == at && Run(env.t, s, n).s.regs[R4] == v && 0 <= skip < TWO21
    requires Placed(env.t, env.entries, at, [I(CmpImm(R4, 0))]) && Placed(env.t, env.entries, at + 1, Br(Cond.Eq, skip))
    ensures var s1, o := Run(env.t, s, n).s, Run(env.t, s, n + 2);
      o.Next? && o.s == s1.(pc := if v == 0 then at + 1 + skip else at + 2, flags := o.s.flags)
  {
    hide Run, Placed, SubFlags;
    RunMore(env.t, env.entries, at, CmpImm(R4, 0), s, n);
    CompareFlags(v, 0);
    RunMore(env.t, env.entries, at + 1, Branch(Cond.Eq, skip), s, n + 1);
  }

  /** Only pc and flags differ. */
  lemma Moved(env: Env, sp: int, slots: Sem.Slots, s: State, s1: State, end: int, dest: Reg, v: Option<Word>, slots1: Sem.Slots, s2: State)
    requires ExprDone(env, sp, slots, s, s1, end, dest, v, slots1)
    requires s2 == s1.(pc := s2.pc, flags := s2.flags)
    ensures ExprDone(env, sp, slots, s, s2, s2.pc, R4, None, slots1)
  {
  }

  lemma BodyRuns(env: Env, fuel: nat, act: Sem.Activation, slots: Sem.Slots, s: State, base: int, body: seq<S.Stmt>, callerFp: Word, ret: int, stack: seq<ReturnAuthority>) returns (n: nat)
    requires ExecPre(env, act, slots, s, base, callerFp, ret, stack)
    requires SafeBody(body, env.safe) && StmtsOk(body, act.frame) && StmtsFit(body, act.frame) && Placed(env.t, env.entries, base, StmtsCode(body, act.frame))
    ensures ExecPost(env, fuel, act, slots, s, n, base + |StmtsCode(body, act.frame)|, callerFp, ret, stack, Sem.ExecAll(fuel, act, body, slots))
    decreases fuel, body, 3
  {
    hide Run, Placed, Load, Linked, Ready, Saved, StmtDone, FunctionReturned, StmtCode, Sem.Exec;
    if body == [] {
      RunNone(env.t, s);
      NothingDone(env, act, slots, s);
      n := 0;
    } else {
      var c, rest := StmtCode(body[0], act.frame), StmtsCode(body[1..], act.frame);
      PlacedSplit(env.t, env.entries, base, c, rest);
      n := ExecRuns(env, fuel, act, slots, s, base, body[0], callerFp, ret, stack);
      var o := Sem.Exec(fuel, act, body[0], slots);
      if o.Normal? {
        var s1 := Run(env.t, s, n).s;
        StillFramed(env, act, slots, s, s1, base + |c|, o.slots, callerFp, ret, stack);
        var m := BodyRuns(env, fuel, act, o.slots, s1, base + |c|, body[1..], callerFp, ret, stack);
        ThenPost(env, fuel, fuel, act, slots, s, n, base + |c|, o.slots, m, base + |c| + |rest|, callerFp, ret, stack, Sem.ExecAll(fuel, act, body[1..], o.slots));
        n := n + m;
      }
    }
  }

  lemma ExecRuns(env: Env, fuel: nat, act: Sem.Activation, slots: Sem.Slots, s: State, base: int, st: S.Stmt, callerFp: Word, ret: int, stack: seq<ReturnAuthority>) returns (n: nat)
    requires ExecPre(env, act, slots, s, base, callerFp, ret, stack)
    requires SafeStmt(st, env.safe) && StmtOk(st, act.frame) && StmtFits(st, act.frame) && Placed(env.t, env.entries, base, StmtCode(st, act.frame))
    ensures ExecPost(env, fuel, act, slots, s, n, base + |StmtCode(st, act.frame)|, callerFp, ret, stack, Sem.Exec(fuel, act, st, slots))
    decreases fuel, st, 4
  {
    hide Run, Placed, Load, Linked, Ready, Saved, StmtDone, FunctionReturned, Sem.Exec, StmtCode, ExecPost, SafeBody, StmtsOk, RootOk;
    match st {
      case Return(_) => n := ExecReturn(env, fuel, act, slots, s, base, st, callerFp, ret, stack);
      case ExprStmt(_) => n := ExecExpr(env, fuel, act, slots, s, base, st, callerFp, ret, stack);
      case VarDecl(_, _) => n := ExecDecl(env, fuel, act, slots, s, base, st, callerFp, ret, stack);
      case If(_, _, _) => n := ExecIf(env, fuel, act, slots, s, base, st, callerFp, ret, stack);
      case While(_, _) => n := ExecWhile(env, fuel, act, slots, s, base, st, callerFp, ret, stack);
    }
  }

  lemma ExecReturn(env: Env, fuel: nat, act: Sem.Activation, slots: Sem.Slots, s: State, base: int, st: S.Stmt, callerFp: Word, ret: int, stack: seq<ReturnAuthority>) returns (n: nat)
    requires ExecPre(env, act, slots, s, base, callerFp, ret, stack) && st.Return?
    requires SafeStmt(st, env.safe) && StmtOk(st, act.frame) && StmtFits(st, act.frame) && Placed(env.t, env.entries, base, StmtCode(st, act.frame))
    ensures ExecPost(env, fuel, act, slots, s, n, base + |StmtCode(st, act.frame)|, callerFp, ret, stack, Sem.Exec(fuel, act, st, slots))
    decreases fuel, st, 3
  {
    hide Run, Placed, Load, Linked, Ready, Saved, ExprDone, FunctionReturned, ExprCode, Epilogue, Sem.Eval;
    var code := ExprCode(st.e, R0, act.frame);
    PlacedSplit(env.t, env.entries, base, code, Epilogue());
    n := EvalRuns(env, fuel, act, Sem.Sp(act), slots, s, base, st.e, R0);
    var a := Sem.Eval(fuel, act, Sem.Sp(act), st.e, slots);
    if Sem.HasValue(a) {
      var s1 := Run(env.t, s, n).s;
      DoneFacts(env, Sem.Sp(act), slots, s, s1, base + |code|, R0, a.value, a.slots);
      Weaken(env, Sem.Sp(act), slots, s, s1, base + |code|, R0, a.value, a.slots);
      StillFramed(env, act, slots, s, s1, base + |code|, a.slots, callerFp, ret, stack);
      EpilogueRuns(env, act, Sem.Sp(act), a.slots, s1, base + |code|, callerFp, ret, stack);
      RunThen(env.t, s, n, 5);
      n := n + 5;
      ReturnFromNormal(env, act, slots, s, s1, Run(env.t, s, n).s, base + |code|, a.slots, callerFp, ret, stack);
    }
  }

  lemma ExecExpr(env: Env, fuel: nat, act: Sem.Activation, slots: Sem.Slots, s: State, base: int, st: S.Stmt, callerFp: Word, ret: int, stack: seq<ReturnAuthority>) returns (n: nat)
    requires ExecPre(env, act, slots, s, base, callerFp, ret, stack) && st.ExprStmt?
    requires SafeStmt(st, env.safe) && StmtOk(st, act.frame) && StmtFits(st, act.frame) && Placed(env.t, env.entries, base, StmtCode(st, act.frame))
    ensures ExecPost(env, fuel, act, slots, s, n, base + |StmtCode(st, act.frame)|, callerFp, ret, stack, Sem.Exec(fuel, act, st, slots))
    decreases fuel, st, 3
  {
    hide Run, Placed, Load, Linked, Ready, Saved, ExprDone, FunctionReturned, ExprCode, Sem.Eval;
    n := EvalRuns(env, fuel, act, Sem.Sp(act), slots, s, base, st.e, R4);
    var a := Sem.Eval(fuel, act, Sem.Sp(act), st.e, slots);
    if a.Done? {
      Weaken(env, Sem.Sp(act), slots, s, Run(env.t, s, n).s, base + |StmtCode(st, act.frame)|, R4, a.value, a.slots);
    }
  }

  lemma ExecDecl(env: Env, fuel: nat, act: Sem.Activation, slots: Sem.Slots, s: State, base: int, st: S.Stmt, callerFp: Word, ret: int, stack: seq<ReturnAuthority>) returns (n: nat)
    requires ExecPre(env, act, slots, s, base, callerFp, ret, stack) && st.VarDecl?
    requires SafeStmt(st, env.safe) && StmtOk(st, act.frame) && StmtFits(st, act.frame) && Placed(env.t, env.entries, base, StmtCode(st, act.frame))
    ensures ExecPost(env, fuel, act, slots, s, n, base + |StmtCode(st, act.frame)|, callerFp, ret, stack, Sem.Exec(fuel, act, st, slots))
    decreases fuel, st, 3
  {
    hide Run, Placed, Load, Store, Linked, Ready, Saved, ExprDone, FunctionReturned, ExprCode, Sem.Eval;
    if st.init.None? {
      RunNone(env.t, s);
      NothingDone(env, act, slots, s);
      n := 0;
    } else {
      var sp, e := Sem.Sp(act), st.init.value;
      var code, off, slot := ExprCode(e, R4, act.frame), Offset(act.frame, st.id), Sem.Slot(act, st.id);
      PlacedSplit(env.t, env.entries, base, code, [I(St(R4, FP, off))]);
      n := EvalRuns(env, fuel, act, sp, slots, s, base, e, R4);
      var a := Sem.Eval(fuel, act, sp, e, slots);
      if Sem.HasValue(a) && slot in a.slots {
        var s1 := Run(env.t, s, n).s;
        StillReady(env, act, sp, slots, s, s1, base + |code|, R4, a.value, a.slots);
        DoneFacts(env, sp, slots, s, s1, base + |code|, R4, a.value, a.slots);
        SlotMapped(env, act, sp, a.slots, s1, slot);
        SaveRuns(env.t, env.entries, base + |code|, R4, FP, off, s, n);
        n := n + 1;
        var s2 := Run(env.t, s, n).s;
        DoneStore(env, act, sp, slots, s, s1, base + |code|, R4, a.value, a.slots, s2, slot, R4, a.value.value);
        Weaken(env, sp, slots, s, s2, base + |code| + 1, R4, a.value, a.slots[slot := a.value]);
      }
    }
  }

  lemma ExecIf(env: Env, fuel: nat, act: Sem.Activation, slots: Sem.Slots, s: State, base: int, st: S.Stmt, callerFp: Word, ret: int, stack: seq<ReturnAuthority>) returns (n: nat)
    requires ExecPre(env, act, slots, s, base, callerFp, ret, stack) && st.If?
    requires SafeStmt(st, env.safe) && StmtOk(st, act.frame) && StmtFits(st, act.frame) && Placed(env.t, env.entries, base, StmtCode(st, act.frame))
    ensures ExecPost(env, fuel, act, slots, s, n, base + |StmtCode(st, act.frame)|, callerFp, ret, stack, Sem.Exec(fuel, act, st, slots))
    decreases fuel, st, 3
  {
    hide *;
    if st.els == [] {
      n := ExecIfThen(env, fuel, act, slots, s, base, st, callerFp, ret, stack);
    } else {
      n := ExecIfElse(env, fuel, act, slots, s, base, st, callerFp, ret, stack);
    }
  }

  lemma ExecIfThen(env: Env, fuel: nat, act: Sem.Activation, slots: Sem.Slots, s: State, base: int, st: S.Stmt, callerFp: Word, ret: int, stack: seq<ReturnAuthority>) returns (n: nat)
    requires ExecPre(env, act, slots, s, base, callerFp, ret, stack) && st.If? && st.els == []
    requires SafeStmt(st, env.safe) && StmtOk(st, act.frame) && StmtFits(st, act.frame) && Placed(env.t, env.entries, base, StmtCode(st, act.frame))
    ensures ExecPost(env, fuel, act, slots, s, n, base + |StmtCode(st, act.frame)|, callerFp, ret, stack, Sem.Exec(fuel, act, st, slots))
    decreases fuel, st, 2
  {
    hide Run, Placed, Load, FunctionLinked, Ready, Saved, StmtDone, FunctionReturned, TestCode, StmtsCode, Sem.Eval, Sem.ExecAll;
    var If(c, thn, _) := st;
    var body := StmtsCode(thn, act.frame);
    var test := TestCode(c, |body| + 1, act.frame);
    assert StmtCode(st, act.frame) == test + body;
    PlacedSplit(env.t, env.entries, base, test, body);
    TestLength(c, |body| + 1, act.frame);
    n := TestRuns(env, fuel, act, slots, s, base, c, |body| + 1);
    var a := Sem.Eval(fuel, act, Sem.Sp(act), c, slots);
    if Sem.HasValue(a) && a.value.value != 0 {
      var mid := base + |test|;
      StillFramed(env, act, slots, s, Run(env.t, s, n).s, mid, a.slots, callerFp, ret, stack);
      var m := BodyRuns(env, fuel, act, a.slots, Run(env.t, s, n).s, mid, thn, callerFp, ret, stack);
      ThenPost(env, fuel, fuel, act, slots, s, n, mid, a.slots, m, mid + |body|, callerFp, ret, stack, Sem.ExecAll(fuel, act, thn, a.slots));
      n := n + m;
    } else if Sem.HasValue(a) {
      assert Sem.ExecAll(fuel, act, [], a.slots) == Sem.Normal(a.slots) by {
        EmptyBody(fuel, act, a.slots);
      }
    }
  }

  lemma EmptyBody(fuel: nat, act: Sem.Activation, slots: Sem.Slots)
    ensures Sem.ExecAll(fuel, act, [], slots) == Sem.Normal(slots)
  {
  }

  lemma ExecIfElse(env: Env, fuel: nat, act: Sem.Activation, slots: Sem.Slots, s: State, base: int, st: S.Stmt, callerFp: Word, ret: int, stack: seq<ReturnAuthority>) returns (n: nat)
    requires ExecPre(env, act, slots, s, base, callerFp, ret, stack) && st.If? && st.els != []
    requires SafeStmt(st, env.safe) && StmtOk(st, act.frame) && StmtFits(st, act.frame) && Placed(env.t, env.entries, base, StmtCode(st, act.frame))
    ensures ExecPost(env, fuel, act, slots, s, n, base + |StmtCode(st, act.frame)|, callerFp, ret, stack, Sem.Exec(fuel, act, st, slots))
    decreases fuel, st, 2
  {
    hide Run, Placed, Load, Linked, Ready, Saved, StmtDone, FunctionReturned, TestCode, StmtsCode, Sem.Eval, Sem.ExecAll;
    var If(c, thn, els) := st;
    var t, e := StmtsCode(thn, act.frame), StmtsCode(els, act.frame);
    var test, jump := TestCode(c, |t| + 2, act.frame), Br(Al, |e| + 1);
    assert StmtCode(st, act.frame) == test + (t + (jump + e));
    PlacedSplit(env.t, env.entries, base, test, t + (jump + e));
    PlacedSplit(env.t, env.entries, base + |test|, t, jump + e);
    var at := base + |test| + |t|;
    PlacedSplit(env.t, env.entries, at, jump, e);
    TestLength(c, |t| + 2, act.frame);
    n := TestRuns(env, fuel, act, slots, s, base, c, |t| + 2);
    var a := Sem.Eval(fuel, act, Sem.Sp(act), c, slots);
    if Sem.HasValue(a) && a.value.value != 0 {
      var mid := base + |test|;
      StillFramed(env, act, slots, s, Run(env.t, s, n).s, mid, a.slots, callerFp, ret, stack);
      var m := BodyRuns(env, fuel, act, a.slots, Run(env.t, s, n).s, mid, thn, callerFp, ret, stack);
      var r := Sem.ExecAll(fuel, act, thn, a.slots);
      ThenPost(env, fuel, fuel, act, slots, s, n, mid, a.slots, m, at, callerFp, ret, stack, r);
      n := n + m;
      if r.Normal? {
        JumpRuns(env, act, slots, s, n, at, |e| + 1, r.slots);
        n := n + 1;
      }
    } else if Sem.HasValue(a) {
      StillFramed(env, act, slots, s, Run(env.t, s, n).s, at + 1, a.slots, callerFp, ret, stack);
      var m := BodyRuns(env, fuel, act, a.slots, Run(env.t, s, n).s, at + 1, els, callerFp, ret, stack);
      ThenPost(env, fuel, fuel, act, slots, s, n, at + 1, a.slots, m, at + 1 + |e|, callerFp, ret, stack, Sem.ExecAll(fuel, act, els, a.slots));
      n := n + m;
    }
  }

  lemma TestLength(c: S.Expr, skip: int, frame: seq<S.VarId>)
    requires ExprOk(c, frame)
    ensures |TestCode(c, skip, frame)| >= 2
  {
  }

  lemma ExecWhile(env: Env, fuel: nat, act: Sem.Activation, slots: Sem.Slots, s: State, base: int, st: S.Stmt, callerFp: Word, ret: int, stack: seq<ReturnAuthority>) returns (n: nat)
    requires ExecPre(env, act, slots, s, base, callerFp, ret, stack) && st.While?
    requires SafeStmt(st, env.safe) && StmtOk(st, act.frame) && StmtFits(st, act.frame) && Placed(env.t, env.entries, base, StmtCode(st, act.frame))
    ensures ExecPost(env, fuel, act, slots, s, n, base + |StmtCode(st, act.frame)|, callerFp, ret, stack, Sem.Exec(fuel, act, st, slots))
    decreases fuel, st, 3
  {
    hide Run, Placed, Load, Linked, Ready, Saved, StmtDone, FunctionReturned, TestCode, StmtsCode, Sem.Eval, Sem.ExecAll;
    var While(c, body) := st;
    var b := StmtsCode(body, act.frame);
    var test := TestCode(c, |b| + 2, act.frame);
    var back := Br(Al, -|test| - |b|);
    assert StmtCode(st, act.frame) == test + (b + back);
    PlacedSplit(env.t, env.entries, base, test, b + back);
    PlacedSplit(env.t, env.entries, base + |test|, b, back);
    TestLength(c, |b| + 2, act.frame);
    n := TestRuns(env, fuel, act, slots, s, base, c, |b| + 2);
    var a := Sem.Eval(fuel, act, Sem.Sp(act), c, slots);
    if Sem.HasValue(a) && a.value.value != 0 && fuel > 0 {
      var mid := base + |test|;
      var s1 := Run(env.t, s, n).s;
      StillFramed(env, act, slots, s, s1, mid, a.slots, callerFp, ret, stack);
      var m := BodyRuns(env, fuel - 1, act, a.slots, s1, mid, body, callerFp, ret, stack);
      var r := Sem.ExecAll(fuel - 1, act, body, a.slots);
      ThenPost(env, fuel, fuel - 1, act, slots, s, n, mid, a.slots, m, mid + |b|, callerFp, ret, stack, r);
      n := n + m;
      if r.Normal? {
        JumpRuns(env, act, slots, s, n, mid + |b|, -|test| - |b|, r.slots);
        n := n + 1;
        StillFramed(env, act, slots, s, Run(env.t, s, n).s, base, r.slots, callerFp, ret, stack);
        var k := ExecRuns(env, fuel - 1, act, r.slots, Run(env.t, s, n).s, base, st, callerFp, ret, stack);
        ThenPost(env, fuel, fuel - 1, act, slots, s, n, base, r.slots, k, base + |StmtCode(st, act.frame)|, callerFp, ret, stack, Sem.Exec(fuel - 1, act, st, r.slots));
        n := n + k;
      }
    }
  }
}
