/** The core's instruction cycle, in place: registers in an array, flags and PC updated as it goes. */

module StepMachine {
  import opened Words
  import opened Memory
  import M = Machine

  datatype Outcome = Continue | Halted | Fault

  class UserCore {
    const regs: array<Word>
    var pc: int
    var flags: M.Flags
    var mem: Mem
    var retStack: seq<M.ReturnAuthority>

    constructor (mem: Mem)
      ensures fresh(regs) && regs.Length == 16
      ensures View() == M.State(seq(16, _ => 0), 0, M.Flags(false, false, false, false), mem, [])
    {
      regs := new Word[16](_ => 0);
      pc, flags, retStack := 0, M.Flags(false, false, false, false), [];
      this.mem := mem;
    }

    ghost function View(): M.State
      requires regs.Length == 16
      reads this, regs
    {
      M.State(regs[..], pc, flags, mem, retStack)
    }

    /** The flag effect of an ALU operation. */
    method UpdateFlags(op: M.AluOp, a: Word, b: Word, r: Word)
      requires r == M.AluEval(op, a, b)
      modifies this`flags
      ensures flags == M.AluFlags(op, a, b, r)
    {
      flags := flags.(z := r == 0, n := r >= TWO63);
      match op {
        case Add => flags := flags.(c := r < a, v := M.Sign(a) == M.Sign(b) && M.Sign(a) != M.Sign(r));
        case Sub => flags := flags.(c := a >= b, v := M.Sign(a) != M.Sign(b) && M.Sign(a) != M.Sign(r));
        case _ => flags := flags.(c := false, v := false);
      }
    }

    method Alu(op: M.AluOp, rd: M.Reg, a: Word, b: Word)
      requires regs.Length == 16
      modifies this`flags, regs
      ensures var r := M.AluEval(op, a, b);
        regs[..] == old(regs[..])[rd := r] && flags == M.AluFlags(op, a, b, r)
    {
      var r := M.AluEval(op, a, b);
      regs[rd] := r;
      UpdateFlags(op, a, b, r);
    }

    /** A load or store, or a fault that changes nothing. */
    method Access(instr: M.Instr) returns (outcome: Outcome)
      requires regs.Length == 16 && (instr.Ld? || instr.St?)
      modifies this`pc, this`mem, regs
      ensures outcome != Halted && Matches(M.Execute(M.Text([], 0, 0), instr, old(View())), outcome, old(View()), View())
    {
      hide Load, Store, Wrap;
      var a := Wrap(regs[instr.rs1] + Wrap(instr.imm));
      if !Mapped(mem, a) {
        return Fault;
      }
      if instr.Ld? {
        regs[instr.rd] := Load(mem, a);
      } else {
        mem := Store(mem, a, regs[instr.rd]);
      }
      pc := pc + 1;
      return Continue;
    }

    /** CALL mints a return authority; RET validates it before popping. */
    method Transfer(t: M.Text, instr: M.Instr) returns (outcome: Outcome)
      requires regs.Length == 16 && (instr.Call? || instr.Ret?)
      modifies this`pc, this`retStack, regs
      ensures outcome != Halted && Matches(M.Execute(t, instr, old(View())), outcome, old(View()), View())
    {
      if instr.Call? {
        var target := Wrap(4 * (pc + 1));
        regs[M.LR] := target;
        retStack := retStack + [M.ReturnAuthority(t.codeObject, t.generation, target)];
        pc := pc + instr.off;
        return Continue;
      }
      if retStack == [] {
        return Fault;
      }
      var top := retStack[|retStack| - 1];
      if regs[M.LR] != top.target || top.codeObject != t.codeObject || top.generation != t.generation || top.target % 4 != 0 {
        return Fault;
      }
      retStack := retStack[..|retStack| - 1];
      pc := top.target / 4;
      return Continue;
    }

    method Execute(t: M.Text, instr: M.Instr) returns (outcome: Outcome)
      requires regs.Length == 16
      modifies this, regs
      ensures Matches(M.Execute(t, instr, old(View())), outcome, old(View()), View())
    {
      hide Wrap, M.AluFlags, M.AluEval, Load, Store, Mapped;
      match instr {
        case Alu(op, rd, rs1, rs2) => Alu(op, rd, regs[rs1], regs[rs2]);
        case AluImm(op, rd, rs1, imm) => Alu(op, rd, regs[rs1], Wrap(imm));
        case Cmp(rs1, rs2) => Compare(regs[rs1], regs[rs2]);
        case CmpImm(rs1, imm) => Compare(regs[rs1], Wrap(imm));
        case Mov(rd, rs1) => regs[rd] := regs[rs1];
        case Movi(rd, imm) => regs[rd] := Wrap(imm);
        case Lea(rd, rs1, imm) => regs[rd] := Wrap(regs[rs1] + Wrap(imm));
        case Branch(cond, off) =>
          if M.Test(flags, cond) {
            pc := pc + off;
            return Continue;
          }
        case Halt => return Halted;
        case Ld(_, _, _) => outcome := Access(instr); return;
        case St(_, _, _) => outcome := Access(instr); return;
        case Call(_) => outcome := Transfer(t, instr); return;
        case Ret => outcome := Transfer(t, instr); return;
      }
      pc := pc + 1;
      return Continue;
    }

    method Compare(a: Word, b: Word)
      modifies this`flags
      ensures flags == M.SubFlags(a, b)
    {
      var r := Wrap(a - b);
      flags := M.Flags(r == 0, r >= TWO63, a >= b, M.Sign(a) != M.Sign(b) && M.Sign(a) != M.Sign(r));
    }

    /** Run until halted or fault, up to a maximum number of cycles. */
    method Run(t: M.Text, max: nat) returns (outcome: Outcome)
      requires regs.Length == 16
      modifies this, regs
      ensures var r := M.Run(t, old(View()), max);
        && (outcome == Fault <==> r.Fault?) && (outcome == Halted <==> r.Halted?)
        && (!r.Fault? ==> View() == r.s)
    {
      hide M.Execute;
      for i := 0 to max
        invariant M.Run(t, old(View()), max) == M.Run(t, View(), max - i)
      {
        if pc < 0 || pc >= |t.code| {
          return Fault;
        }
        outcome := Execute(t, t.code[pc]);
        if outcome != Continue {
          return;
        }
      }
      return Continue;
    }
  }

  /** An outcome in place, and the state it left, are what the instruction's meaning says. */
  ghost predicate Matches(r: M.StepResult, outcome: Outcome, before: M.State, after: M.State) {
    match r
    case Next(s) => outcome == Continue && after == s
    case Halted(s) => outcome == Halted && after == s
    case Fault => outcome == Fault && after == before
  }
}
