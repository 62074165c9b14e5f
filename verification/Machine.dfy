/** 64-bit words, byte-addressed memory and the user-level instructions of the Anka64 core. */

module Words {
  const TWO63: int := 0x8000_0000_0000_0000
  const TWO64: int := 0x1_0000_0000_0000_0000

  type Word = x: int | 0 <= x < TWO64
  type Byte = x: int | 0 <= x < 256

  datatype Option<+T> = None | Some(value: T)

  datatype Result<+T, +E> = Ok(value: T) | Err(error: E)

  ghost predicate Distinct<T>(s: seq<T>) {
    forall j, k :: 0 <= j < k < |s| ==> s[j] != s[k]
  }

  /** Two's complement truncation to 64 bits. */
  function Wrap(x: int): Word {
    x % TWO64
  }

  lemma WrapAdd(a: int, b: int)
    ensures Wrap(a + Wrap(b)) == Wrap(a + b)
  {
    var q := b / TWO64;
    assert Wrap(b) == b - q * TWO64;
    ModShift(a + b, -q);
  }

  lemma ModShift(x: int, q: int)
    ensures Wrap(x + q * TWO64) == Wrap(x)
  {
  }

  /** The signed reading of a word. */
  function Signed(w: Word): int {
    if w < TWO63 then w else w - TWO64
  }

  function BitAnd(a: nat, b: nat): (r: nat)
    ensures r <= a && r <= b
  {
    if a == 0 || b == 0 then 0 else (a % 2) * (b % 2) + 2 * BitAnd(a / 2, b / 2)
  }

  function BitOr(a: nat, b: nat): (r: nat)
    ensures r <= a + b
  {
    if a == 0 then b else if b == 0 then a
    else (if a % 2 == 1 || b % 2 == 1 then 1 else 0) + 2 * BitOr(a / 2, b / 2)
  }

  function Pow2(n: nat): (p: nat)
    ensures p >= 1
  {
    if n == 0 then 1 else 2 * Pow2(n - 1)
  }

  function Pow256(n: nat): (p: nat)
    ensures p >= 1
  {
    if n == 0 then 1 else 256 * Pow256(n - 1)
  }
}

module Memory {
  import opened Words

  /** Mapped, readable and writable bytes [lo, hi); unwritten bytes read as zero. */
  datatype Mem = Mem(lo: int, hi: int, bytes: map<int, Byte>)

  predicate Mapped(m: Mem, a: int) {
    m.lo <= a && a + 8 <= m.hi
  }

  function ByteAt(m: Mem, a: int): Byte {
    if a in m.bytes then m.bytes[a] else 0
  }

  /** Little-endian value of the n bytes from a. */
  function LoadBytes(m: Mem, a: int, n: nat): (v: nat)
    ensures v < Pow256(n)
    decreases n
  {
    if n == 0 then 0 else ByteAt(m, a) + 256 * LoadBytes(m, a + 1, n - 1)
  }

  function StoreBytes(m: Mem, a: int, v: nat, n: nat): (r: Mem)
    ensures r.lo == m.lo && r.hi == m.hi
    decreases n
  {
    if n == 0 then m
    else StoreBytes(m.(bytes := m.bytes[a := v % 256]), a + 1, v / 256, n - 1)
  }

  function Load(m: Mem, a: int): Word {
    assert Pow256(8) == TWO64;
    LoadBytes(m, a, 8)
  }

  function Store(m: Mem, a: int, v: Word): Mem {
    StoreBytes(m, a, v, 8)
  }

  lemma {:induction false} StoreBytesFrame(m: Mem, a: int, v: nat, n: nat, b: int)
    requires b < a || a + n <= b
    ensures ByteAt(StoreBytes(m, a, v, n), b) == ByteAt(m, b)
    decreases n
  {
    if n > 0 {
      StoreBytesFrame(m.(bytes := m.bytes[a := v % 256]), a + 1, v / 256, n - 1, b);
    }
  }

  lemma {:induction false} LoadBytesCongruent(m: Mem, m': Mem, a: int, n: nat)
    requires forall b :: a <= b < a + n ==> ByteAt(m, b) == ByteAt(m', b)
    ensures LoadBytes(m, a, n) == LoadBytes(m', a, n)
    decreases n
  {
    if n > 0 {
      LoadBytesCongruent(m, m', a + 1, n - 1);
    }
  }

  lemma {:induction false} LoadBytesOfStore(m: Mem, a: int, v: nat, n: nat)
    requires v < Pow256(n)
    ensures LoadBytes(StoreBytes(m, a, v, n), a, n) == v
    decreases n
  {
    if n > 0 {
      var m1 := m.(bytes := m.bytes[a := v % 256]);
      StoreBytesFrame(m1, a + 1, v / 256, n - 1, a);
      LoadBytesOfStore(m1, a + 1, v / 256, n - 1);
    }
  }

  lemma LoadStoreSame(m: Mem, a: int, v: Word)
    ensures Load(Store(m, a, v), a) == v
  {
    assert Pow256(8) == TWO64;
    LoadBytesOfStore(m, a, v, 8);
  }

  lemma LoadStoreOther(m: Mem, a: int, v: Word, b: int)
    requires b + 8 <= a || a + 8 <= b
    ensures Load(Store(m, a, v), b) == Load(m, b)
  {
    forall c | b <= c < b + 8 ensures ByteAt(StoreBytes(m, a, v, 8), c) == ByteAt(m, c) {
      StoreBytesFrame(m, a, v, 8, c);
    }
    LoadBytesCongruent(Store(m, a, v), m, b, 8);
  }
}

module Machine {
  import opened Words
  import opened Memory

  type Reg = r: int | 0 <= r < 16

  const R0: Reg := 0
  const R4: Reg := 4
  const R5: Reg := 5
  const R6: Reg := 6
  const FP: Reg := 13
  const LR: Reg := 14
  const SP: Reg := 15

  type RegFile = r: seq<Word> | |r| == 16 witness seq(16, _ => 0)

  datatype Flags = Flags(z: bool, n: bool, c: bool, v: bool)

  datatype Cond = Eq | Ne | Lt | Ge | Le | Gt | Ult | Uge | Ule | Ugt | Al

  datatype AluOp = Add | Sub | And | Or | Shl | Shr | Mul

  datatype Instr =
    | Alu(op: AluOp, rd: Reg, rs1: Reg, rs2: Reg)
    | AluImm(op: AluOp, rd: Reg, rs1: Reg, imm: int)
    | Cmp(rs1: Reg, rs2: Reg)
    | CmpImm(rs1: Reg, imm: int)
    | Mov(rd: Reg, rs1: Reg)
    | Movi(rd: Reg, imm: int)
    | Ld(rd: Reg, rs1: Reg, imm: int)
    | St(rd: Reg, rs1: Reg, imm: int)
    | Lea(rd: Reg, rs1: Reg, imm: int)
    | Branch(cond: Cond, off: int)
    | Call(off: int)
    | Ret
    | Halt

  /** One entry of the protected return stack: minted by CALL, consumed by RET. */
  datatype ReturnAuthority = ReturnAuthority(codeObject: int, generation: int, target: Word)

  /** The sealed code object, mapped at virtual address 0; instruction i lies at byte 4 * i. */
  datatype Text = Text(code: seq<Instr>, codeObject: int, generation: int)

  datatype State = State(
    regs: RegFile, pc: int, flags: Flags, mem: Mem, retStack: seq<ReturnAuthority>)

  datatype StepResult = Next(s: State) | Halted(s: State) | Fault

  predicate Test(f: Flags, cond: Cond) {
    match cond
    case Eq => f.z
    case Ne => !f.z
    case Lt => f.n != f.v
    case Ge => f.n == f.v
    case Le => f.z || f.n != f.v
    case Gt => !f.z && f.n == f.v
    case Ult => !f.c
    case Uge => f.c
    case Ule => !f.c || f.z
    case Ugt => f.c && !f.z
    case Al => true
  }

  predicate Sign(w: Word) {
    w >= TWO63
  }

  /** Flags of a subtraction: carry means no borrow, overflow is the top bit of (a^b) & (a^r). */
  function SubFlags(a: Word, b: Word): Flags {
    var r := Wrap(a - b);
    Flags(r == 0, Sign(r), a >= b, Sign(a) != Sign(b) && Sign(a) != Sign(r))
  }

  /** Flags of an addition, with the core's overflow bit (~(a^b)) & (a^r). */
  function AddFlags(a: Word, b: Word, r: Word): Flags {
    Flags(r == 0, Sign(r), r < a, Sign(a) == Sign(b) && Sign(a) != Sign(r))
  }

  function AluFlags(op: AluOp, a: Word, b: Word, r: Word): Flags {
    match op
    case Add => AddFlags(a, b, r)
    case Sub => SubFlags(a, b)
    case _ => Flags(r == 0, Sign(r), false, false)
  }

  function AluEval(op: AluOp, a: Word, b: Word): Word {
    match op
    case Add => Wrap(a + b)
    case Sub => Wrap(a - b)
    case And => BitAnd(a, b)
    case Or => Wrap(BitOr(a, b))
    case Shl => Wrap(a * Pow2(b % 64))
    case Shr => Wrap(a / Pow2(b % 64))
    case Mul => Wrap(a * b)
  }

  function SetReg(s: State, r: Reg, v: Word): State {
    s.(regs := s.regs[r := v])
  }

  function Advance(s: State): State {
    s.(pc := s.pc + 1)
  }

  /** One instruction cycle. A fault leaves no successor state. */
  function Step(t: Text, s: State): StepResult {
    if 0 <= s.pc < |t.code| then Execute(t, t.code[s.pc], s) else Fault
  }

  function Execute(t: Text, instr: Instr, s: State): StepResult {
    match instr
    case Alu(op, rd, rs1, rs2) =>
      var r := AluEval(op, s.regs[rs1], s.regs[rs2]);
      Next(Advance(SetReg(s, rd, r).(flags := AluFlags(op, s.regs[rs1], s.regs[rs2], r))))
    case AluImm(op, rd, rs1, imm) =>
      var r := AluEval(op, s.regs[rs1], Wrap(imm));
      Next(Advance(SetReg(s, rd, r).(flags := AluFlags(op, s.regs[rs1], Wrap(imm), r))))
    case Cmp(rs1, rs2) => Next(Advance(s.(flags := SubFlags(s.regs[rs1], s.regs[rs2]))))
    case CmpImm(rs1, imm) => Next(Advance(s.(flags := SubFlags(s.regs[rs1], Wrap(imm)))))
    case Mov(rd, rs1) => Next(Advance(SetReg(s, rd, s.regs[rs1])))
    case Movi(rd, imm) => Next(Advance(SetReg(s, rd, Wrap(imm))))
    case Ld(rd, rs1, imm) =>
      var a := Wrap(s.regs[rs1] + Wrap(imm));
      if Mapped(s.mem, a) then Next(Advance(SetReg(s, rd, Load(s.mem, a)))) else Fault
    case St(rd, rs1, imm) =>
      var a := Wrap(s.regs[rs1] + Wrap(imm));
      if Mapped(s.mem, a) then Next(Advance(s.(mem := Store(s.mem, a, s.regs[rd])))) else Fault
    case Lea(rd, rs1, imm) => Next(Advance(SetReg(s, rd, Wrap(s.regs[rs1] + Wrap(imm)))))
    case Branch(cond, off) => Next(if Test(s.flags, cond) then s.(pc := s.pc + off) else Advance(s))
    case Call(off) =>
      var target := Wrap(4 * (s.pc + 1));
      Next(SetReg(s, LR, target).(
        pc := s.pc + off,
        retStack := s.retStack + [ReturnAuthority(t.codeObject, t.generation, target)]))
    case Ret =>
      if s.retStack == [] then Fault else
      var top := s.retStack[|s.retStack| - 1];
      if s.regs[LR] != top.target || top.codeObject != t.codeObject || top.generation != t.generation
        || top.target % 4 != 0 then Fault
      else Next(s.(pc := top.target / 4, retStack := s.retStack[..|s.retStack| - 1]))
    case Halt => Halted(s)
  }

  /** Up to n cycles; halting and faulting are final. */
  function Run(t: Text, s: State, n: nat): StepResult
    decreases n
  {
    if n == 0 then Next(s) else
    var r := Step(t, s);
    if r.Next? then Run(t, r.s, n - 1) else r
  }

  lemma {:induction false} RunAdd(t: Text, s: State, n: nat, m: nat)
    ensures Run(t, s, n + m) == if Run(t, s, n).Next? then Run(t, Run(t, s, n).s, m) else Run(t, s, n)
    decreases n
  {
    if n > 0 && Step(t, s).Next? {
      RunAdd(t, Step(t, s).s, n - 1, m);
    }
  }

  /** The signed order is what the flags of a comparison decide. */
  lemma CompareFlags(a: Word, b: Word)
    ensures Test(SubFlags(a, b), Ge) <==> Signed(a) >= Signed(b)
    ensures Test(SubFlags(a, b), Gt) <==> Signed(a) > Signed(b)
    ensures Test(SubFlags(a, b), Eq) <==> a == b
    ensures Test(SubFlags(a, b), Ult) <==> a < b
  {
  }
}
