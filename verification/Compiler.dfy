/** The compiler as it works: append words, remember where, patch branches and calls later. */

module Emitter {
  import opened Words
  import opened Machine
  import opened Code
  import S = Syntax
  import Semantics

  /** An item as the assembler first holds it: every CALL still at offset 0. */
  function Strip(item: Item): Instr {
    match item
    case I(instr) => instr
    case CallTo(_) => Instr.Call(0)
  }

  /** The instruction with its 22-bit distance field replaced. */
  function Patched(instr: Instr, distance: int): Instr
    requires instr.Branch? || instr.Call?
  {
    match instr
    case Branch(cond, _) => Branch(cond, Wrap22(distance))
    case Call(_) => Instr.Call(Wrap22(distance))
  }

  function Ids(frame: seq<(S.VarId, int)>): (vs: seq<S.VarId>)
    ensures |vs| == |frame| && forall i :: 0 <= i < |vs| ==> vs[i] == frame[i].0
  {
    seq(|frame|, i requires 0 <= i < |frame| => frame[i].0)
  }

  predicate Resolved(prog: S.Program, item: Item, pos: nat, instr: Instr)
    requires FunctionsOk(prog)
  {
    (item.CallTo? ==> S.FindFunction(prog, item.name).Some?) && instr == ResolveItem(prog, item, pos)
  }

  class Compiler {
    var asm: seq<Instr>
    var frame: seq<(S.VarId, int)>
    var frameSize: int
    var functions: seq<(string, int)>
    var callFixups: seq<(nat, string)>
    /** What the words of asm stand for. */
    ghost var items: Items

    constructor ()
      ensures Valid() && FrameValid() && items == [] && functions == []
    {
      asm, frame, frameSize, functions, callFixups, items := [], [], 0, [], [], [];
    }

    /** The words are the items, and the fixups are exactly the calls. */
    ghost predicate Valid()
      reads `asm, `items, `callFixups
    {
      && |asm| == |items|
      && (forall i :: 0 <= i < |asm| ==> asm[i] == Strip(items[i]))
      && (forall k :: 0 <= k < |callFixups| ==>
            callFixups[k].0 < |items| && items[callFixups[k].0] == CallTo(callFixups[k].1))
      && (forall i :: 0 <= i < |items| && items[i].CallTo? ==> exists k :: 0 <= k < |callFixups| && callFixups[k].0 == i)
    }

    /** The variables in slot order. */
    ghost function Vars(): seq<S.VarId>
      reads `frame
    {
      Ids(frame)
    }

    /** Slot i lies 8 * (i + 1) bytes below the frame pointer. */
    ghost predicate FrameValid()
      reads `frame, `frameSize
    {
      && frameSize == 8 * |frame|
      && forall i :: 0 <= i < |frame| ==> frame[i].1 == -8 * (i + 1)
    }

    method Emit(instr: Instr)
      requires Valid()
      modifies this`asm, this`items
      ensures Valid() && items == old(items) + [I(instr)]
    {
      asm := asm + [instr];
      items := items + [I(instr)];
    }

    method EmitCall(name: string)
      requires Valid()
      modifies this`asm, this`items, this`callFixups
      ensures Valid() && items == old(items) + [CallTo(name)]
    {
      asm := asm + [Instr.Call(0)];
      callFixups := callFixups + [(|asm| - 1, name)];
      items := items + [CallTo(name)];
      forall i | 0 <= i < |items| && items[i].CallTo?
        ensures exists k :: 0 <= k < |callFixups| && callFixups[k].0 == i
      {
        if i < |old(items)| {
          var k :| 0 <= k < |old(callFixups)| && old(callFixups)[k].0 == i;
          assert callFixups[k].0 == i;
        } else {
          assert callFixups[|callFixups| - 1].0 == i;
        }
      }
    }

    /** Re-encode the branch at `index` so that it reaches word `target`. */
    method PatchBranch(index: nat, target: int)
      requires Valid() && index < |items| && items[index].I? && items[index].instr.Branch?
      modifies this`asm, this`items
      ensures Valid()
      ensures items == old(items)[index := I(Patched(old(items)[index].instr, target - index))]
    {
      asm := asm[index := Patched(asm[index], target - index)];
      items := items[index := I(Patched(items[index].instr, target - index))];
    }

    /** First slot of that name; a missing name is a panic. */
    method VarOffset(id: S.VarId) returns (ok: bool, offset: int)
      requires FrameValid()
      ensures ok <==> id in Vars()
      ensures ok ==> offset == Offset(Vars(), id)
    {
      var i := 0;
      while i < |frame|
        invariant 0 <= i <= |frame|
        invariant forall j :: 0 <= j < i ==> Vars()[j] != id
      {
        if frame[i].0 == id {
          assert Vars()[i] == id;
          FirstSlot(Vars(), id, i);
          return true, frame[i].1;
        }
        i := i + 1;
      }
      return false, 0;
    }

    method AllocLocal(id: S.VarId)
      requires FrameValid()
      modifies this`frame, this`frameSize
      ensures FrameValid() && Vars() == old(Vars()) + [id]
    {
      frameSize := frameSize + 8;
      frame := frame + [(id, -frameSize)];
      assert Vars() == old(Vars()) + [id];
    }

    method CompileExpr(e: S.Expr, dest: Reg) returns (ok: bool)
      requires Valid() && FrameValid()
      modifies this`asm, this`items, this`callFixups
      ensures ok <==> ExprOk(e, Vars())
      ensures ok ==> Valid() && items == old(items) + ExprCode(e, dest, Vars())
      decreases e, 1
    {
      hide Valid, FrameValid, Ids;
      match e {
        case IntLit(_) => ok := CompileLeaf(e, dest); return;
        case Var(_) => ok := CompileLeaf(e, dest); return;
        case AddrOf(_) => ok := CompileLeaf(e, dest); return;
        case BinOp(_, _, _) => ok := CompileTwo(e, dest); return;
        case DerefAssign(_, _) => ok := CompileTwo(e, dest); return;
        case Deref(p) =>
          var inner := CompileExpr(p, dest);
          if !inner { return false; }
          Emit(Ld(dest, dest, 0));
        case Assign(id, v) =>
          var value := CompileExpr(v, dest);
          if !value { return false; }
          var found, off := VarOffset(id);
          if !found || !FitsImm18(off) { return false; }
          Emit(St(dest, FP, off));
        case Call(_, _) => ok := CompileCall(e, dest); return;
      }
      return true;
    }

    /** Two operands: the first into dest, the second into the other scratch register. */
    method CompileTwo(e: S.Expr, dest: Reg) returns (ok: bool)
      requires (e.BinOp? || e.DerefAssign?) && Valid() && FrameValid()
      modifies this`asm, this`items, this`callFixups
      ensures ok <==> ExprOk(e, Vars())
      ensures ok ==> Valid() && items == old(items) + ExprCode(e, dest, Vars())
      decreases e, 0
    {
      hide Valid, FrameValid, Ids, OpCode, ExprCode, ExprOk;
      TwoCode(e, dest, Vars());
      var tmp := Temp(dest);
      ok := CompileExpr(if e.BinOp? then e.lhs else e.val, dest);
      if !ok { return; }
      ok := CompileExpr(if e.BinOp? then e.rhs else e.ptr, tmp);
      if !ok { return; }
      if e.BinOp? {
        CompileOp(e.op, dest, tmp);
      } else {
        Emit(St(dest, tmp, 0));
      }
    }

    method CompileLeaf(e: S.Expr, dest: Reg) returns (ok: bool)
      requires (e.IntLit? || e.Var? || e.AddrOf?) && Valid() && FrameValid()
      modifies this`asm, this`items
      ensures ok <==> ExprOk(e, Vars())
      ensures ok ==> Valid() && items == old(items) + ExprCode(e, dest, Vars())
    {
      hide Valid, Ids;
      if e.IntLit? {
        if !FitsImm18(e.n) { return false; }
        Emit(Movi(dest, e.n));
      } else {
        var found, off := VarOffset(e.id);
        if !found || !FitsImm18(off) { return false; }
        Emit(if e.Var? then Ld(dest, FP, off) else Lea(dest, FP, off));
      }
      return true;
    }

    method CompileCall(e: S.Expr, dest: Reg) returns (ok: bool)
      requires e.Call? && Valid() && FrameValid()
      modifies this`asm, this`items, this`callFixups
      ensures ok <==> ExprOk(e, Vars())
      ensures ok ==> Valid() && items == old(items) + ExprCode(e, dest, Vars())
      decreases e, 0
    {
      hide Valid, FrameValid, Ids, PushCode, PopCode, DropCode, ArgsOk;
      var argc := S.Min4(|e.args|);
      ok := CompileArgs(e.args, 4);
      if !ok { return; }
      CompilePops(argc);
      EmitCall(e.name);
      if dest != R0 {
        Emit(Mov(dest, R0));
      }
      assert items == old(items) + ExprCode(e, dest, Vars());
    }

    /** Evaluate and push at most n arguments. */
    method CompileArgs(args: seq<S.Expr>, n: nat) returns (ok: bool)
      requires Valid() && FrameValid()
      modifies this`asm, this`items, this`callFixups
      ensures ok <==> ArgsOk(args, n, Vars())
      ensures ok ==> Valid() && items == old(items) + PushCode(args, n, Vars())
      decreases args, 0
    {
      if args == [] || n == 0 {
        return true;
      }
      var first := CompileExpr(args[0], R4);
      if !first { return false; }
      Emit(AluImm(Sub, SP, SP, 8));
      Emit(St(R4, SP, 0));
      ok := CompileArgs(args[1..], n - 1);
    }

    method CompilePops(argc: nat)
      requires Valid() && argc <= 4
      modifies this`asm, this`items
      ensures Valid() && items == old(items) + PopCode(argc, 0) + DropCode(argc)
    {
      var i := 0;
      while i < argc
        invariant 0 <= i <= argc && Valid()
        invariant items + PopCode(argc, i) == old(items) + PopCode(argc, 0)
      {
        Emit(Ld(i, SP, (argc - 1 - i) * 8));
        i := i + 1;
      }
      if argc > 0 {
        Emit(AluImm(Add, SP, SP, argc * 8));
      }
    }

    method CompileOp(op: S.BinOp, dest: Reg, tmp: Reg)
      requires Valid()
      modifies this`asm, this`items
      ensures Valid() && items == old(items) + OpCode(op, dest, tmp)
    {
      match op {
        case Add => Emit(Alu(Add, dest, dest, tmp));
        case Sub => Emit(Alu(Sub, dest, dest, tmp));
        case Mul => Emit(Alu(Mul, dest, dest, tmp));
        case And => Emit(Alu(And, dest, dest, tmp));
        case Or => Emit(Alu(Or, dest, dest, tmp));
        case Shl => Emit(Alu(Shl, dest, dest, tmp));
        case Shr => Emit(Alu(Shr, dest, dest, tmp));
        case Lt => CompileCompare(Ge, dest, tmp);
        case Le => CompileCompare(Gt, dest, tmp);
        case Eq => CompileCompare(Ne, dest, tmp);
        case Ne => CompileCompare(Cond.Eq, dest, tmp);
      }
    }

    method CompileCompare(cond: Cond, dest: Reg, tmp: Reg)
      requires Valid()
      modifies this`asm, this`items
      ensures Valid() && items == old(items) + CompareCode(cond, dest, tmp)
    {
      Emit(Cmp(dest, tmp));
      Emit(Movi(dest, 0));
      var skip := |asm|;
      Emit(Branch(cond, 0));
      Emit(Movi(dest, 1));
      PatchBranch(skip, |asm|);
    }

    method EmitEpilogue()
      requires Valid()
      modifies this`asm, this`items
      ensures Valid() && items == old(items) + Epilogue()
    {
      Emit(Mov(SP, FP));
      Emit(Ld(FP, SP, 0));
      Emit(Ld(LR, SP, 8));
      Emit(AluImm(Add, SP, SP, 16));
      Emit(Ret);
    }

    /** An expression at a statement's root, within the scratch registers. */
    method CompileRoot(e: S.Expr, dest: Reg) returns (ok: bool)
      requires Valid() && FrameValid()
      modifies this`asm, this`items, this`callFixups
      ensures ok <==> RootOk(e, Vars())
      ensures ok ==> Valid() && items == old(items) + ExprCode(e, dest, Vars())
    {
      if S.ScratchRegs(e) > S.SCRATCH_REGS { return false; }
      ok := CompileExpr(e, dest);
    }

    method CompileStmt(s: S.Stmt) returns (ok: bool)
      requires Valid() && FrameValid()
      modifies this`asm, this`items, this`callFixups
      ensures ok <==> StmtOk(s, Vars())
      ensures ok ==> Valid() && items == old(items) + StmtCode(s, Vars())
      decreases s, 1
    {
      match s {
        case Return(e) =>
          ok := CompileRoot(e, R0);
          if ok { EmitEpilogue(); }
        case ExprStmt(e) => ok := CompileRoot(e, R4);
        case VarDecl(id, init) =>
          if init.None? { return true; }
          var value := CompileRoot(init.value, R4);
          if !value { return false; }
          var found, off := VarOffset(id);
          if !found || !FitsImm18(off) { return false; }
          Emit(St(R4, FP, off));
          ok := true;
        case If(_, _, _) => ok := CompileIf(s);
        case While(_, _) => ok := CompileWhile(s);
      }
    }

    /** Evaluate a condition and emit the branch to be patched later. */
    method CompileTest(c: S.Expr) returns (ok: bool, branchPos: nat)
      requires Valid() && FrameValid()
      modifies this`asm, this`items, this`callFixups
      ensures ok <==> RootOk(c, Vars())
      ensures ok ==> Valid() && items == old(items) + TestCode(c, 0, Vars())
      ensures ok ==> branchPos == |items| - 1
    {
      hide Valid, FrameValid, Ids, ExprCode;
      branchPos := 0;
      ok := CompileRoot(c, R4);
      if !ok { return; }
      Emit(CmpImm(R4, 0));
      ValidLength();
      branchPos := |asm|;
      Emit(Branch(Cond.Eq, 0));
      assert items == old(items) + TestCode(c, 0, Vars());
    }

    /** Point the branch of an emitted test past the `after` items that follow it. */
    method PatchTest(ghost pre: Items, ghost c: S.Expr, ghost after: Items, branchPos: nat)
      requires Valid() && ExprOk(c, Vars())
      requires items == pre + TestCode(c, 0, Vars()) + after
      requires branchPos == |pre| + |TestCode(c, 0, Vars())| - 1
      modifies this`asm, this`items
      ensures Valid() && items == pre + TestCode(c, |after| + 1, Vars()) + after
    {
      hide Valid, Ids, ExprCode;
      ghost var head := pre + (ExprCode(c, R4, Vars()) + [I(CmpImm(R4, 0))]);
      assert pre + TestCode(c, 0, Vars()) + after == head + [I(Branch(Cond.Eq, 0))] + after;
      Replace(head, I(Branch(Cond.Eq, 0)), after, I(Branch(Cond.Eq, Wrap22(|after| + 1))));
      ValidLength();
      PatchBranch(branchPos, |asm|);
    }

    method CompileIf(s: S.Stmt) returns (ok: bool)
      requires s.If? && Valid() && FrameValid()
      modifies this`asm, this`items, this`callFixups
      ensures ok <==> StmtOk(s, Vars())
      ensures ok ==> Valid() && items == old(items) + StmtCode(s, Vars())
      decreases s, 0
    {
      hide Valid, FrameValid, Ids, TestCode, StmtsCode, RootOk, StmtsOk;
      ghost var pre := items;
      var tested, branchPos := CompileTest(s.cond);
      if !tested { return false; }
      var thn := CompileStmts(s.thn);
      if !thn { return false; }
      RootIsOk(s.cond, Vars());
      if s.els == [] {
        PatchTest(pre, s.cond, StmtsCode(s.thn, Vars()), branchPos);
        NoStmtsOk(Vars());
        return true;
      }
      ok := CompileElse(s, pre, branchPos);
    }

    method CompileElse(s: S.Stmt, ghost pre: Items, branchPos: nat) returns (ok: bool)
      requires s.If? && s.els != [] && Valid() && FrameValid()
      requires RootOk(s.cond, Vars()) && StmtsOk(s.thn, Vars())
      requires items == pre + TestCode(s.cond, 0, Vars()) + StmtsCode(s.thn, Vars())
      requires branchPos == |pre| + |TestCode(s.cond, 0, Vars())| - 1
      modifies this`asm, this`items, this`callFixups
      ensures ok <==> StmtOk(s, Vars())
      ensures ok ==> Valid() && items == pre + StmtCode(s, Vars())
      decreases s.els, 1
    {
      hide Valid, FrameValid, Ids, TestCode, StmtsCode, StmtsOk;
      ghost var t := StmtsCode(s.thn, Vars());
      ValidLength();
      var jumpPos := |asm|;
      Emit(Branch(Al, 0));
      ghost var jump := [I(Branch(Al, 0))];
      assert items == pre + TestCode(s.cond, 0, Vars()) + (t + jump);
      PatchTest(pre, s.cond, t + jump, branchPos);
      ghost var head := pre + TestCode(s.cond, |t| + 2, Vars()) + t;
      TestSize(s.cond, |t| + 2, Vars());
      assert items == head + jump;
      ok := CompileStmts(s.els);
      if !ok { return; }
      ghost var e := StmtsCode(s.els, Vars());
      Replace(head, I(Branch(Al, 0)), e, I(Branch(Al, Wrap22(|e| + 1))));
      ValidLength();
      PatchBranch(jumpPos, |asm|);
      assert items == head + Br(Al, |e| + 1) + e;
      assert items == pre + StmtCode(s, Vars());
    }

    lemma ValidLength()
      requires Valid()
      ensures |asm| == |items|
    {
    }

    method CompileWhile(s: S.Stmt) returns (ok: bool)
      requires s.While? && Valid() && FrameValid()
      modifies this`asm, this`items, this`callFixups
      ensures ok <==> StmtOk(s, Vars())
      ensures ok ==> Valid() && items == old(items) + StmtCode(s, Vars())
      decreases s, 0
    {
      hide Valid, FrameValid, Ids, TestCode, StmtsCode, RootOk, StmtsOk;
      ghost var pre := items;
      ValidLength();
      var loopTop := |asm|;
      var tested, exitBranch := CompileTest(s.cond);
      if !tested { return false; }
      var body := CompileStmts(s.body);
      if !body { return false; }
      RootIsOk(s.cond, Vars());
      ghost var b := StmtsCode(s.body, Vars());
      ValidLength();
      var back := Wrap22(loopTop - |asm|);
      Emit(Branch(Al, back));
      ghost var jump := [I(Branch(Al, back))];
      assert items == pre + TestCode(s.cond, 0, Vars()) + (b + jump);
      PatchTest(pre, s.cond, b + jump, exitBranch);
      TestSize(s.cond, |b| + 2, Vars());
      assert items == pre + (TestCode(s.cond, |b| + 2, Vars()) + b + jump);
      ok := true;
    }

    method CompileStmts(body: seq<S.Stmt>) returns (ok: bool)
      requires Valid() && FrameValid()
      modifies this`asm, this`items, this`callFixups
      ensures ok <==> StmtsOk(body, Vars())
      ensures ok ==> Valid() && items == old(items) + StmtsCode(body, Vars())
      decreases body, 0
    {
      hide Valid, FrameValid, Ids, StmtCode, StmtOk;
      if body == [] {
        return true;
      }
      var first := CompileStmt(body[0]);
      if !first { return false; }
      ok := CompileStmts(body[1..]);
    }

    method CompileFunction(f: S.Function) returns (ok: bool)
      requires Valid() && FrameValid()
      modifies this
      ensures FrameValid()
      ensures ok <==> FunctionOk(f)
      ensures ok ==> Valid() && items == old(items) + FunctionCode(f)
      ensures functions == old(functions) + [(f.name, |old(items)|)]
    {
      hide Valid, FrameValid, Ids, FunctionCode, StmtsCode, Epilogue, Prologue, StmtsOk, S.DefinitelyReturns;
      ghost var pre := items;
      ValidLength();
      functions := functions + [(f.name, |asm|)];
      ok := CompilePrologue(f);
      if !ok { return; }
      if !f.isVoid && !S.DefinitelyReturns(f.body) { return false; }
      ok := CompileStmts(f.body);
      if !ok { return; }
      if f.isVoid {
        EmitEpilogue();
      }
      FunctionItems(pre, f);
    }

    /** Save LR and FP, give every parameter and local its slot, reserve them all. */
    method CompilePrologue(f: S.Function) returns (ok: bool)
      requires Valid()
      modifies this`asm, this`items, this`frame, this`frameSize
      ensures FrameValid() && Vars() == Semantics.Frame(f)
      ensures ok <==> (|Vars()| > 0 ==> FitsImm18(8 * |Vars()|))
      ensures ok ==> Valid() && items == old(items) + Prologue(f)
    {
      hide Valid, Prologue;
      frame, frameSize := [], 0;
      Emit(St(LR, SP, -8));
      Emit(St(FP, SP, -16));
      Emit(AluImm(Sub, SP, SP, 16));
      Emit(Mov(FP, SP));
      CompileParams(f.params);
      CompileLocals(f.locals);
      if frameSize > 0 {
        if !FitsImm18(frameSize) { return false; }
        Emit(AluImm(Sub, SP, SP, frameSize));
      }
      PrologueItems(old(items), f);
      ok := true;
    }

    method CompileParams(params: seq<S.VarId>)
      requires Valid() && FrameValid() && frame == []
      modifies this`asm, this`items, this`frame, this`frameSize
      ensures Valid() && FrameValid() && Vars() == params
      ensures items == old(items) + ParamCode(S.Min4(|params|), 0)
    {
      var n := S.Min4(|params|);
      var i := 0;
      while i < |params|
        invariant 0 <= i <= |params| && Valid() && FrameValid()
        invariant Vars() == params[..i]
        invariant items + ParamCode(n, if i < n then i else n) == old(items) + ParamCode(n, 0)
      {
        AllocLocal(params[i]);
        if i < 4 {
          Emit(St(i, FP, -frameSize));
        }
        i := i + 1;
      }
    }

    method CompileLocals(locals: seq<S.VarId>)
      requires FrameValid()
      modifies this`frame, this`frameSize
      ensures FrameValid() && Vars() == old(Vars()) + locals
    {
      var i := 0;
      while i < |locals|
        invariant 0 <= i <= |locals| && FrameValid()
        invariant Vars() == old(Vars()) + locals[..i]
      {
        AllocLocal(locals[i]);
        i := i + 1;
      }
    }

    method FindEntry(name: string) returns (ok: bool, addr: int)
      ensures ok <==> exists i :: 0 <= i < |functions| && functions[i].0 == name
      ensures ok ==> exists i :: 0 <= i < |functions| && functions[i] == (name, addr) && forall j :: 0 <= j < i ==> functions[j].0 != name
    {
      var i := 0;
      while i < |functions|
        invariant 0 <= i <= |functions|
        invariant forall j :: 0 <= j < i ==> functions[j].0 != name
      {
        if functions[i].0 == name {
          return true, functions[i].1;
        }
        i := i + 1;
      }
      return false, 0;
    }

    /** Patch every recorded CALL to its function's entry; an unknown name is a panic. */
    method FixupCalls(ghost prog: S.Program) returns (ok: bool)
      requires Valid() && FunctionsOk(prog) && Recorded(prog)
      modifies this`asm, this`callFixups
      ensures ok <==> Calls(items, prog)
      ensures ok ==> |asm| == |items| && forall i :: 0 <= i < |asm| ==> Resolved(prog, items[i], i, asm[i])
    {
      hide Entry, S.FindFunction, Wrap22, FunctionsOk, Recorded;
      var fixups := callFixups;
      callFixups := [];
      var k := 0;
      while k < |fixups|
        invariant 0 <= k <= |fixups| && |asm| == |items|
        invariant forall i :: 0 <= i < |asm| ==> asm[i] == Strip(items[i]) || Resolved(prog, items[i], i, asm[i])
        invariant forall j :: 0 <= j < k ==> Resolved(prog, CallTo(fixups[j].1), fixups[j].0, asm[fixups[j].0])
      {
        var index, name := fixups[k].0, fixups[k].1;
        assert items[index] == CallTo(name);
        var found, addr := FindEntry(name);
        EntryFound(prog, name, found, addr);
        if !found {
          return false;
        }
        asm := asm[index := Patched(asm[index], addr - index)];
        assert Resolved(prog, CallTo(name), index, asm[index]);
        k := k + 1;
      }
      forall i | 0 <= i < |items| ensures Resolved(prog, items[i], i, asm[i]) {
        if items[i].CallTo? {
          var j :| 0 <= j < |fixups| && fixups[j].0 == i;
        }
      }
      return true;
    }

    /** The function table lists the program's functions at their entries. */
    ghost predicate Recorded(prog: S.Program)
      requires FunctionsOk(prog)
      reads `functions
    {
      |functions| == |prog| && forall i :: 0 <= i < |prog| ==> functions[i] == (prog[i].name, Entry(prog, i))
    }

    lemma EntryFound(prog: S.Program, name: string, found: bool, addr: int)
      requires FunctionsOk(prog) && Recorded(prog)
      requires found <==> exists i :: 0 <= i < |functions| && functions[i].0 == name
      requires found ==> exists i :: 0 <= i < |functions| && functions[i] == (name, addr) && forall j :: 0 <= j < i ==> functions[j].0 != name
      ensures found <==> S.FindFunction(prog, name).Some?
      ensures found ==> addr == Entry(prog, S.FindFunction(prog, name).value)
    {
      FirstFunction(prog, name);
      if found {
        var i :| 0 <= i < |functions| && functions[i] == (name, addr) && forall j :: 0 <= j < i ==> functions[j].0 != name;
        assert prog[i].name == name;
        assert forall j :: 0 <= j < i ==> prog[j].name == functions[j].0;
      }
    }

    /** The whole compilation: start stub, functions, call fixups. */
    method CompileProgram(prog: S.Program) returns (ok: bool)
      requires Valid() && FrameValid() && items == [] && functions == []
      modifies this
      ensures ok <==> ProgramOk(prog)
      ensures ok ==> asm == ProgramCode(prog)
    {
      hide FunctionCode, FunctionOk;
      EmitCall("main");
      Emit(Halt);
      var i := 0;
      while i < |prog|
        invariant 0 <= i <= |prog| && Valid() && FrameValid()
        invariant FunctionsOk(prog[..i]) && items == StartCode() + FunctionsCode(prog[..i])
        invariant Recorded(prog[..i])
      {
        var compiled := CompileFunction(prog[i]);
        assert prog[..i + 1] == prog[..i] + [prog[i]];
        AppendFunction(prog[..i], prog[i]);
        if !compiled {
          PrefixOk(prog, i + 1);
          return false;
        }
        i := i + 1;
      }
      assert prog[..i] == prog;
      ok := FixupCalls(prog);
      if ok {
        assert asm == ProgramCode(prog);
      }
    }
  }

  lemma PrologueItems(pre: Items, f: S.Function)
    ensures var k := |Semantics.Frame(f)|;
      pre + [I(St(LR, SP, -8))] + [I(St(FP, SP, -16))] + [I(AluImm(Sub, SP, SP, 16))] + [I(Mov(FP, SP))]
        + ParamCode(S.Min4(|f.params|), 0) + ReserveCode(k) == pre + Prologue(f)
  {
  }

  lemma FunctionItems(pre: Items, f: S.Function)
    requires FunctionOk(f)
    ensures pre + Prologue(f) + StmtsCode(f.body, Semantics.Frame(f)) + (if f.isVoid then Epilogue() else []) == pre + FunctionCode(f)
  {
  }

  lemma {:induction false} AppendFunction(fs: S.Program, f: S.Function)
    requires FunctionsOk(fs)
    ensures FunctionsOk(fs + [f]) <==> FunctionOk(f)
    ensures FunctionOk(f) ==> FunctionsCode(fs + [f]) == FunctionsCode(fs) + FunctionCode(f)
    ensures FunctionOk(f) ==> (forall i :: 0 <= i < |fs| ==> Entry(fs + [f], i) == Entry(fs, i))
    ensures FunctionOk(f) ==> Entry(fs + [f], |fs|) == 2 + |FunctionsCode(fs)|
  {
    hide FunctionCode, FunctionOk;
    if fs == [] {
      assert fs + [f] == [f];
      assert FunctionsOk([f]) <==> FunctionOk(f) && FunctionsOk([f][1..]);
    } else {
      AppendFunction(fs[1..], f);
      assert (fs + [f])[1..] == fs[1..] + [f];
      if FunctionOk(f) {
        forall i | 0 <= i < |fs| ensures Entry(fs + [f], i) == Entry(fs, i) {
          if i > 0 {
            assert Entry(fs[1..] + [f], i - 1) == Entry(fs[1..], i - 1);
          }
        }
      }
    }
  }

  lemma {:induction false} PrefixOk(fs: S.Program, n: nat)
    requires n <= |fs|
    ensures FunctionsOk(fs) ==> FunctionsOk(fs[..n])
    decreases n
  {
    if n > 0 {
      PrefixOk(fs[1..], n - 1);
      assert fs[..n][1..] == fs[1..][..n - 1];
    }
  }

  lemma {:induction false} FirstFunction(prog: S.Program, name: string)
    ensures S.FindFunction(prog, name).None? ==> forall i :: 0 <= i < |prog| ==> prog[i].name != name
    ensures S.FindFunction(prog, name).Some? ==> forall i :: 0 <= i < S.FindFunction(prog, name).value ==> prog[i].name != name
  {
    if prog != [] {
      FirstFunction(prog[1..], name);
      assert forall i :: 0 < i < |prog| ==> prog[i] == prog[1..][i - 1];
    }
  }

  lemma TwoCode(e: S.Expr, dest: Reg, frame: seq<S.VarId>)
    requires e.BinOp? || e.DerefAssign?
    ensures var x, y := (if e.BinOp? then e.lhs else e.val), (if e.BinOp? then e.rhs else e.ptr);
      && (ExprOk(e, frame) <==> ExprOk(x, frame) && ExprOk(y, frame))
      && (ExprOk(e, frame) ==>
            ExprCode(e, dest, frame) == ExprCode(x, dest, frame) + ExprCode(y, Temp(dest), frame)
              + (if e.BinOp? then OpCode(e.op, dest, Temp(dest)) else [I(St(dest, Temp(dest), 0))]))
  {
  }

  lemma RootIsOk(e: S.Expr, frame: seq<S.VarId>)
    requires RootOk(e, frame)
    ensures ExprOk(e, frame)
  {
  }

  lemma NoStmtsOk(frame: seq<S.VarId>)
    ensures StmtsOk([], frame)
  {
  }

  lemma TestSize(c: S.Expr, skip: int, frame: seq<S.VarId>)
    requires ExprOk(c, frame)
    ensures |TestCode(c, skip, frame)| == |TestCode(c, 0, frame)|
  {
  }

  lemma Replace(a: Items, x: Item, b: Items, y: Item)
    ensures |a| < |a + [x] + b| && (a + [x] + b)[|a|] == x
    ensures (a + [x] + b)[|a| := y] == a + [y] + b
  {
  }

  lemma {:induction false} FirstSlot(vars: seq<S.VarId>, id: S.VarId, i: nat)
    requires i < |vars| && vars[i] == id && forall j :: 0 <= j < i ==> vars[j] != id
    ensures S.SlotIndex(vars, id) == i
  {
  }
}
