/** Protected event entry and return, CALL/RET authority and interrupt arbitration of the core. */

module EventCore {
  import opened Words
  import M = Machine

  type Register = r: int | 0 <= r < 16

  type RegFile = M.RegFile

  /** The pointer kind of each even/odd register pair below R12. */
  type Kinds = k: seq<Option<nat>> | |k| == 6 witness seq(6, _ => None)

  type Results = r: seq<Option<Word>> | |r| == 13 witness seq(13, _ => None)

  datatype Privilege = User | Supervisor

  datatype Cause = Syscall | TimerInterrupt | DeviceInterrupt

  datatype EventFrame = EventFrame(returnPc: Word, returnPrivilege: Privilege, wereEnabled: bool, cause: Cause)

  /** Whether the pointer-frame program of an application has an active frame. */
  datatype FrameState = FrameState(active: bool)

  datatype Image = Image(
    words: RegFile, kinds: Kinds, flags: M.Flags, returnStack: seq<M.ReturnAuthority>,
    halted: bool, frames: Option<FrameState>)

  /** consumed: the one heap reply of this event has been given. */
  datatype SavedContext = SavedContext(
    eventId: Word, header: EventFrame, contextId: nat, domain: nat, image: Option<Image>, results: Results, consumed: bool)

  /** The kernel's answer to a heap system call: a new pointer's words and kind, if there is one, and a
      status. Whether the caller owns the heap is decided elsewhere. */
  datatype HeapReply = HeapReply(pointer: Option<HeapPointer>, status: Word, malloc: bool, owned: bool)
  datatype HeapPointer = HeapPointer(kind: nat, token: Word, offset: Word)

  datatype Turn = Timer | Device

  datatype Core = Core(
    words: RegFile, kinds: Kinds, flags: M.Flags, returnStack: seq<M.ReturnAuthority>, halted: bool,
    pointerFrames: Option<FrameState>, pc: Word, privilege: Privilege, enabled: bool,
    frames: seq<EventFrame>, saved: seq<SavedContext>, nextEventId: Word,
    contextId: nat, domain: nat, protectedMode: bool, trapVector: Word,
    timer: bool, device: bool, turn: Turn)

  /** Generations of the fabric's objects. */
  type Objects = map<int, int>

  const NO_KINDS: Kinds := [None, None, None, None, None, None]
  const NO_RESULTS: Results := [None, None, None, None, None, None, None, None, None, None, None, None, None]

  // ---- Transitions ----

  function WriteRegister(c: Core, register: Register, value: Word): Core {
    c.(words := c.words[register := value],
       kinds := if register < 12 then c.kinds[register / 2 := None] else c.kinds)
  }

  function CurrentImage(c: Core): Option<Image> {
    if c.protectedMode then Some(Image(c.words, c.kinds, c.flags, c.returnStack, c.halted, c.pointerFrames)) else None
  }

  /** Identifiers are never reused: an exhausted counter stays at zero. */
  function NextEventId(id: Word): Word {
    if id == 0 || id + 1 == TWO64 then 0 else id + 1
  }

  function EnterEvent(c: Core, header: EventFrame): Core {
    c.(saved := c.saved + [SavedContext(c.nextEventId, header, c.contextId, c.domain, CurrentImage(c), NO_RESULTS, false)],
       frames := c.frames + [header],
       nextEventId := NextEventId(c.nextEventId),
       returnStack := if c.protectedMode then [] else c.returnStack,
       pointerFrames := if c.protectedMode then None else c.pointerFrames,
       kinds := NO_KINDS, privilege := Supervisor, enabled := false)
  }

  /** The header of an event taken now. */
  function Here(c: Core, returnPc: Word, cause: Cause): EventFrame {
    EventFrame(returnPc, c.privilege, c.enabled, cause)
  }

  function Trap(c: Core): Core {
    EnterEvent(c, Here(c, Wrap(c.pc + 4), Syscall)).(pc := c.trapVector)
  }

  /** A result lane is exported only to the syscall event on top, and only before its heap reply. */
  function WriteSyscallResult(c: Core, register: Register, value: Word): Core {
    var d := WriteRegister(c, register, value);
    if register > 12 || c.privilege != Supervisor || c.saved == [] then d
    else
      var s := c.saved[|c.saved| - 1];
      if s.contextId == c.contextId && s.domain == c.domain && s.header.cause == Syscall && s.image.Some? && !s.consumed
      then d.(saved := c.saved[|c.saved| - 1 := s.(results := s.results[register := Some(value)])])
      else d
  }

  const MALLOC: Word := 21
  const FREE: Word := 22

  /** The words a heap reply gives back: the pointer in R0 and R1, and for malloc its status in R2. */
  function ReplyWords(words: RegFile, r: HeapReply): RegFile {
    var w := words[0 := if r.pointer.Some? then r.pointer.value.token else 0]
                  [1 := if r.pointer.Some? then r.pointer.value.offset else 0];
    if r.malloc then w[2 := r.status][3 := 0] else w
  }

  function ReplyKinds(kinds: Kinds, r: HeapReply): Kinds {
    var k := kinds[0 := if r.pointer.Some? then Some(r.pointer.value.kind) else None];
    if r.malloc then k[1 := None] else k
  }

  /** An event takes one reply, to the call it was entered for, and none once a lane was exported. */
  predicate CanAnswer(s: SavedContext, r: HeapReply) {
    && s.header.cause == Syscall && s.image.Some? && r.owned && s.eventId != 0 && !s.consumed && s.results == NO_RESULTS
    && s.image.value.words[0] == (if r.malloc then MALLOC else FREE) && (r.malloc || r.pointer.None?)
  }

  function Answered(s: SavedContext, r: HeapReply): SavedContext
    requires s.image.Some?
  {
    var m := s.image.value;
    s.(image := Some(m.(words := ReplyWords(m.words, r), kinds := ReplyKinds(m.kinds, r))), consumed := true)
  }

  /** Give a heap reply to the event on top, if it is intact and can take it. */
  function CommitHeapEvent(c: Core, r: HeapReply): Core {
    if c.frames == [] || c.saved == [] || c.privilege != Supervisor || !c.protectedMode || |c.frames| != |c.saved| then c
    else
      var s := c.saved[|c.saved| - 1];
      if s.contextId != c.contextId || s.domain != c.domain || s.header != c.frames[|c.frames| - 1] then c
      else if c.pointerFrames.Some? && c.pointerFrames.value.active then c
      else if CanAnswer(s, r) then c.(saved := c.saved[|c.saved| - 1 := Answered(s, r)])
      else c
  }

  /** Exported lanes replace the interrupted words. */
  function OverlayWords(words: RegFile, results: Results): RegFile {
    seq(16, i requires 0 <= i < 16 => if i < 13 && results[i].Some? then results[i].value else words[i])
  }

  /** A pair with an exported lane has no pointer kind. */
  function OverlayKinds(kinds: Kinds, results: Results): Kinds {
    seq(6, i requires 0 <= i < 6 => if results[2 * i].Some? || results[2 * i + 1].Some? then None else kinds[i])
  }

  /** Event return refuses without changing anything, or consumes one frame and restores its image. */
  function EventReturn(c: Core): Option<Core> {
    if c.frames == [] || c.saved == [] then None
    else
      var header, s := c.frames[|c.frames| - 1], c.saved[|c.saved| - 1];
      if |c.frames| != |c.saved| || s.contextId != c.contextId || s.domain != c.domain || s.header != header
         || c.protectedMode != s.image.Some? then None
      else if c.pointerFrames.Some? && c.pointerFrames.value.active then None
      else
        var d := c.(frames := c.frames[..|c.frames| - 1], saved := c.saved[..|c.saved| - 1],
                    privilege := header.returnPrivilege, enabled := header.wereEnabled, pc := header.returnPc);
        if s.image.None? then Some(d)
        else
          var r := if header.cause == Syscall then s.results else NO_RESULTS;
          var m := s.image.value;
          Some(d.(words := OverlayWords(m.words, r), kinds := OverlayKinds(m.kinds, r), flags := m.flags,
                  returnStack := m.returnStack, pointerFrames := m.frames, halted := m.halted))
  }

  function EnableProtected(c: Core): Core {
    if !c.protectedMode && c.frames != [] then c else c.(protectedMode := true)
  }

  /** Admission of a pointer-frame program, once its placement has been checked. */
  function AdmitFrames(c: Core): Core {
    if c.pointerFrames.Some? || c.frames != [] || c.returnStack != [] || c.privilege != User then c
    else EnableProtected(c).(pointerFrames := Some(FrameState(false)))
  }

  /** CALL mints authority and transfers, or faults. The code object is what the address map gives
      for the current PC; the check is the pointer-frame program's, when there is one. */
  function Call(c: Core, objects: Objects, code: Option<int>, imm: int, check: bool): Option<Core> {
    if c.pointerFrames.Some? && !check then None
    else if code.None? || code.value !in objects then None
    else
      var back := Wrap(c.pc + 4);
      Some(WriteRegister(c, M.LR, back).(
        returnStack := c.returnStack + [M.ReturnAuthority(code.value, objects[code.value], back)],
        pc := Wrap(c.pc + imm * 4)))
  }

  /** RET peeks, validates, then pops. */
  function Ret(c: Core, objects: Objects, check: bool): Option<Core> {
    if c.pointerFrames.Some? && !check then None
    else if c.returnStack == [] then None
    else
      var top := c.returnStack[|c.returnStack| - 1];
      if c.words[M.LR] != top.target then None
      else if top.codeObject !in objects || objects[top.codeObject] != top.generation then None
      else Some(c.(returnStack := c.returnStack[..|c.returnStack| - 1], pc := top.target))
  }

  /** The source an enabled core with something pending delivers. */
  function Selected(c: Core): Turn {
    if c.timer && c.device then c.turn else if c.timer then Timer else Device
  }

  predicate Deliverable(c: Core) {
    c.enabled && (c.timer || c.device)
  }

  function Other(s: Turn): Turn {
    if s == Timer then Device else Timer
  }

  /** Clear the selected source's bit only, and flip the turn after a tie. */
  function Consume(c: Core): Core {
    var s := Selected(c);
    c.(timer := c.timer && s != Timer, device := c.device && s != Device,
       turn := if c.timer && c.device then Other(s) else c.turn)
  }

  function InterruptHeader(c: Core): EventFrame {
    Here(c, c.pc, if Selected(c) == Timer then TimerInterrupt else DeviceInterrupt)
  }

  function DeliverPending(c: Core): Core {
    if !Deliverable(c) then c
    else EnterEvent(Consume(c), InterruptHeader(c)).(pc := c.trapVector)
  }

  // ---- Runs ----

  /** Everything that can happen to the core. Ordinary instructions and handler code change words,
      kinds, flags and PC at will, but no protected state. */
  datatype Op =
    | Compute(words: RegFile, kinds: Kinds, flags: M.Flags, pc: Word, halted: bool, active: bool)
    | SetMask(enabled: bool)
    | DoCall(code: Option<int>, imm: int, check: bool)
    | DoRet(check: bool)
    | DoTrap
    | Eret
    | Deliver
    | PostTimer
    | PostDevice
    | WriteResult(register: Register, value: Word)
    | AnswerHeap(reply: HeapReply)
    | Protect
    | Admit
    | Regenerate(object: int, generation: Option<int>)

  datatype World = World(core: Core, objects: Objects)

  function Else(r: Option<Core>, c: Core): Core {
    if r.Some? then r.value else c
  }

  function Step(w: World, op: Op): World {
    var c := w.core;
    match op
    case Compute(words, kinds, flags, pc, halted, active) =>
      w.(core := c.(words := words, kinds := kinds, flags := flags, pc := pc, halted := halted,
                    pointerFrames := if c.pointerFrames.Some? then Some(FrameState(active)) else None))
    case SetMask(enabled) => w.(core := c.(enabled := enabled))
    case DoCall(code, imm, check) => w.(core := Else(Call(c, w.objects, code, imm, check), c))
    case DoRet(check) => w.(core := Else(Ret(c, w.objects, check), c))
    case DoTrap => w.(core := Trap(c))
    case Eret => w.(core := Else(EventReturn(c), c))
    case Deliver => w.(core := DeliverPending(c))
    case PostTimer => w.(core := c.(timer := true))
    case PostDevice => w.(core := c.(device := true))
    case WriteResult(register, value) => w.(core := WriteSyscallResult(c, register, value))
    case AnswerHeap(reply) => w.(core := CommitHeapEvent(c, reply))
    case Protect => w.(core := EnableProtected(c))
    case Admit => w.(core := AdmitFrames(c))
    case Regenerate(o, g) =>
      w.(objects := if g.Some? then w.objects[o := g.value] else w.objects - {o})
  }

  function Run(w: World, ops: seq<Op>): World
    decreases ops
  {
    if ops == [] then w else Step(Run(w, ops[..|ops| - 1]), ops[|ops| - 1])
  }

  function Depth(w: World): nat {
    |w.core.frames|
  }

  /** A core as it is created, in either mode. */
  predicate Initial(w: World) {
    w.core.frames == [] && w.core.saved == [] && w.core.pointerFrames == None && w.core.returnStack == []
  }
}

/** Nested events round-trip, in every run. */
module EventLaws {
  import opened Words
  import M = Machine
  import opened EventCore

  // ---- Event return is refused only without a frame ----

  predicate Matches(c: Core, k: nat)
    requires k < |c.frames| == |c.saved|
  {
    && c.saved[k].header == c.frames[k] && c.saved[k].contextId == c.contextId && c.saved[k].domain == c.domain
    && (c.saved[k].image.Some? <==> c.protectedMode)
  }

  /** Answers to the interrupted code change what it is given back, nothing else of its saved context. */
  predicate Kept(s: SavedContext, t: SavedContext) {
    && t == s.(results := t.results, consumed := t.consumed, image := t.image)
    && (t.image.Some? <==> s.image.Some?)
    && (s.image.Some? ==> t.image.value == s.image.value.(words := t.image.value.words, kinds := t.image.value.kinds))
  }

  /** Frames and saved contexts correspond, and pointer frames are absent while an event is outstanding. */
  ghost predicate Paired(c: Core) {
    && |c.frames| == |c.saved|
    && (forall k :: 0 <= k < |c.frames| ==> Matches(c, k))
    && (c.pointerFrames.Some? ==> c.frames == [] && c.protectedMode)
    && (forall k :: 0 < k < |c.saved| && c.saved[k].image.Some? ==> c.saved[k].image.value.frames == None)
  }

  lemma PairedEnter(c: Core, header: EventFrame)
    requires Paired(c)
    ensures Paired(EnterEvent(c, header))
  {
    var d := EnterEvent(c, header);
    forall k | 0 <= k < |d.frames|
      ensures Matches(d, k)
    {
      assert k < |c.frames| ==> Matches(c, k);
    }
  }

  lemma PairedReturn(c: Core)
    requires Paired(c)
    ensures EventReturn(c).None? <==> c.frames == []
    ensures EventReturn(c).Some? ==> Paired(EventReturn(c).value)
  {
    if c.frames != [] {
      assert Matches(c, |c.frames| - 1);
      var d := EventReturn(c).value;
      forall k | 0 <= k < |d.frames|
        ensures Matches(d, k)
      {
        assert Matches(c, k);
      }
    }
  }

  lemma PairedSame(c: Core, d: Core)
    requires Paired(c)
    requires c.frames == d.frames && c.contextId == d.contextId && c.domain == d.domain
    requires c.protectedMode == d.protectedMode && |c.saved| == |d.saved|
    requires d.pointerFrames.Some? ==> c.pointerFrames.Some?
    requires forall k :: 0 <= k < |c.saved| ==> Kept(c.saved[k], d.saved[k])
    ensures Paired(d)
  {
    forall k | 0 <= k < |d.frames|
      ensures Matches(d, k)
    {
      assert Matches(c, k) && Kept(c.saved[k], d.saved[k]);
    }
    forall k | 0 < k < |d.saved| && d.saved[k].image.Some?
      ensures d.saved[k].image.value.frames == None
    {
      assert Kept(c.saved[k], d.saved[k]);
    }
  }

  /** Operations that leave events alone. */
  predicate Plain(op: Op) {
    !op.DoTrap? && !op.Deliver? && !op.Eret? && !op.WriteResult? && !op.AnswerHeap? && !op.Protect? && !op.Admit?
  }

  lemma PlainStep(w: World, op: Op)
    requires Plain(op)
    ensures var c, d := w.core, Step(w, op).core;
      && d.frames == c.frames && d.saved == c.saved && d.contextId == c.contextId && d.domain == c.domain
      && d.protectedMode == c.protectedMode && d.privilege == c.privilege
      && (d.pointerFrames.Some? <==> c.pointerFrames.Some?)
  {
    hide EventReturn, DeliverPending, Trap, WriteSyscallResult, CommitHeapEvent, EnableProtected, AdmitFrames;
    if op.DoCall? {
      hide WriteRegister, Ret;
      CallKeeps(w.core, w.objects, op.code, op.imm, op.check);
    } else {
      hide Call;
    }
  }

  lemma CallKeeps(c: Core, objects: Objects, code: Option<int>, imm: int, check: bool)
    ensures var d := Call(c, objects, code, imm, check);
      d.Some? ==> d.value == c.(words := d.value.words, kinds := d.value.kinds, returnStack := d.value.returnStack, pc := d.value.pc)
  {
  }

  lemma PairedStep(w: World, op: Op)
    requires Paired(w.core)
    ensures Paired(Step(w, op).core)
  {
    var c, d := w.core, Step(w, op).core;
    hide Paired, EventReturn, DeliverPending, Trap, WriteSyscallResult, CommitHeapEvent, Call, Ret, EnableProtected, AdmitFrames;
    if Plain(op) {
      hide Step;
      PlainStep(w, op);
      PairedSame(c, d);
    } else if op.WriteResult? {
      PairedWrite(c, op.register, op.value);
    } else if op.AnswerHeap? {
      PairedAnswer(c, op.reply);
    } else if op.Eret? {
      PairedReturn(c);
    } else if op.DoTrap? {
      PairedTrap(c);
    } else if op.Deliver? {
      PairedDeliver(c);
    } else {
      PairedProtect(c);
    }
  }

  /** Exporting a lane touches registers and the top event's results, nothing else. */
  lemma WriteShape(c: Core, register: Register, value: Word)
    ensures var d := WriteSyscallResult(c, register, value); var n := |c.saved|;
      && d == c.(words := d.words, kinds := d.kinds, saved := d.saved) && |d.saved| == n
      && (forall k :: 0 <= k < n ==> Kept(c.saved[k], d.saved[k]))
      && (forall k :: 0 <= k < n - 1 ==> d.saved[k] == c.saved[k])
  {
    hide WriteRegister;
    var w := WriteRegister(c, register, value);
    assert w == c.(words := w.words, kinds := w.kinds) by {
      RegisterShape(c, register, value);
    }
  }

  lemma AnswerShape(c: Core, r: HeapReply)
    ensures var d := CommitHeapEvent(c, r); var n := |c.saved|;
      && d == c.(saved := d.saved) && |d.saved| == n
      && (forall k :: 0 <= k < n ==> Kept(c.saved[k], d.saved[k]))
      && (forall k :: 0 <= k < n - 1 ==> d.saved[k] == c.saved[k])
  {
    hide ReplyWords, ReplyKinds;
  }

  lemma RegisterShape(c: Core, register: Register, value: Word)
    ensures var w := WriteRegister(c, register, value); w == c.(words := w.words, kinds := w.kinds)
  {
  }

  lemma PairedProtect(c: Core)
    requires Paired(c)
    ensures Paired(EnableProtected(c)) && Paired(AdmitFrames(c))
  {
    if c.frames != [] {
      assert AdmitFrames(c) == c && EnableProtected(c) == c;
    }
  }

  lemma PairedWrite(c: Core, register: Register, value: Word)
    requires Paired(c)
    ensures Paired(WriteSyscallResult(c, register, value))
  {
    hide Paired, WriteSyscallResult;
    WriteShape(c, register, value);
    PairedSame(c, WriteSyscallResult(c, register, value));
  }

  lemma PairedAnswer(c: Core, r: HeapReply)
    requires Paired(c)
    ensures Paired(CommitHeapEvent(c, r))
  {
    hide Paired, CommitHeapEvent;
    AnswerShape(c, r);
    PairedSame(c, CommitHeapEvent(c, r));
  }

  lemma PairedTrap(c: Core)
    requires Paired(c)
    ensures Paired(Trap(c))
  {
    hide Paired;
    var header := Here(c, Wrap(c.pc + 4), Syscall);
    PairedEnter(c, header);
    PairedSame(EnterEvent(c, header), Trap(c));
  }

  lemma PairedDeliver(c: Core)
    requires Paired(c)
    ensures Paired(DeliverPending(c))
  {
    hide Paired;
    if Deliverable(c) {
      PairedSame(c, Consume(c));
      PairedEnter(Consume(c), InterruptHeader(c));
      PairedSame(EnterEvent(Consume(c), InterruptHeader(c)), DeliverPending(c));
    }
  }

  lemma {:induction false} RunPaired(w: World, ops: seq<Op>)
    requires Initial(w)
    ensures Paired(Run(w, ops).core)
    decreases ops
  {
    if ops != [] {
      hide Paired, Step;
      RunPaired(w, ops[..|ops| - 1]);
      PairedStep(Run(w, ops[..|ops| - 1]), ops[|ops| - 1]);
    }
  }

  /** In every reachable state, protected or legacy, event return is refused exactly when no frame is
      outstanding; and no pointer frame is present while one is. */
  lemma ReturnRefusedOnlyWhenEmpty(w: World, ops: seq<Op>)
    requires Initial(w)
    ensures var c := Run(w, ops).core;
      (EventReturn(c).None? <==> c.frames == []) && (c.frames != [] ==> c.pointerFrames == None)
  {
    hide Run, EventReturn;
    RunPaired(w, ops);
    PairedReturn(Run(w, ops).core);
  }

  // ---- The nested round trip ----

  /** The run never returns below the given depth. */
  predicate StaysAbove(w: World, ops: seq<Op>, depth: nat)
    decreases ops
  {
    Depth(Run(w, ops)) >= depth && (ops != [] ==> StaysAbove(w, ops[..|ops| - 1], depth))
  }

  /** The last value exported for a register while the given depth was on top. */
  function LastExport(w: World, ops: seq<Op>, depth: nat, register: Register): Option<Word>
    decreases ops
  {
    if ops == [] then None
    else
      var front, op := ops[..|ops| - 1], ops[|ops| - 1];
      if op.WriteResult? && op.register == register && Depth(Run(w, front)) == depth then Some(op.value)
      else LastExport(w, front, depth, register)
  }

  /** The saved context of an event as it is entered. */
  function Entered(base: Core, header: EventFrame): SavedContext {
    SavedContext(base.nextEventId, header, base.contextId, base.domain, CurrentImage(base), NO_RESULTS, false)
  }

  /** The heap reply given to the interrupted call while the given depth was on top: the first one it
      can take, given before any lane was exported. */
  function TheReply(base: Core, w: World, ops: seq<Op>, depth: nat): Option<HeapReply>
    decreases ops
  {
    if ops == [] then None
    else
      var front, op := ops[..|ops| - 1], ops[|ops| - 1];
      var earlier := TheReply(base, w, front, depth);
      if earlier.Some? then earlier
      else if op.AnswerHeap? && Depth(Run(w, front)) == depth && Expects(base, op.reply) && NoLanes(w, front, depth)
      then Some(op.reply)
      else None
  }

  /** The interrupted code asked for this reply. */
  predicate Expects(base: Core, r: HeapReply) {
    && r.owned && base.nextEventId != 0
    && base.words[0] == (if r.malloc then MALLOC else FREE) && (r.malloc || r.pointer.None?)
  }

  predicate NoLanes(w: World, ops: seq<Op>, depth: nat) {
    forall r: Register :: r <= 12 ==> LastExport(w, ops, depth, r) == None
  }

  /** What the events nested in a handler leave alone. */
  ghost predicate Sheltered(c: Core, base: Core, header: EventFrame) {
    var d := |base.frames|;
    && |c.frames| == |c.saved| > d
    && c.frames[..d] == base.frames && c.saved[..d] == base.saved && c.frames[d] == header
    && Kept(Entered(base, header), c.saved[d])
    && c.contextId == base.contextId && c.domain == base.domain && c.protectedMode && base.protectedMode
    && c.pointerFrames == None && c.privilege == Supervisor
    && (forall k :: d < k < |c.frames| ==> c.frames[k].returnPrivilege == Supervisor)
    && (forall k :: d < k < |c.saved| && c.saved[k].image.Some? ==> c.saved[k].image.value.frames == None)
  }

  /** A syscall's handler gives back either the lanes it exported or one heap reply; any other event's
      handler gives back nothing. */
  ghost predicate Exported(c: Core, base: Core, header: EventFrame, w: World, ops: seq<Op>)
    requires |base.frames| < |c.saved| && base.protectedMode
  {
    var d := |base.frames|;
    var s, reply, image := c.saved[d], TheReply(base, w, ops, d + 1), CurrentImage(base).value;
    if header.cause != Syscall then s == Entered(base, header)
    else if reply.Some? then s == Answered(Entered(base, header), reply.value)
    else s == Entered(base, header).(results := s.results) && Exports(s.results, w, ops, d + 1)
  }

  ghost predicate Exports(results: Results, w: World, ops: seq<Op>, depth: nat) {
    forall r: Register :: r <= 12 ==> results[r] == LastExport(w, ops, depth, r)
  }

  lemma ShelteredEnter(c: Core, base: Core, header: EventFrame, h: EventFrame)
    requires Sheltered(c, base, header) && h.returnPrivilege == c.privilege
    ensures Sheltered(EnterEvent(c, h), base, header)
    ensures EnterEvent(c, h).saved[|base.frames|] == c.saved[|base.frames|]
  {
    var e := EnterEvent(c, h);
    var d := |base.frames|;
    assert e.frames[..d] == c.frames[..d] && e.saved[..d] == c.saved[..d];
  }

  lemma ShelteredReturn(c: Core, base: Core, header: EventFrame)
    requires Sheltered(c, base, header)
    requires EventReturn(c).Some? && |EventReturn(c).value.frames| > |base.frames|
    ensures Sheltered(EventReturn(c).value, base, header)
    ensures EventReturn(c).value.saved[|base.frames|] == c.saved[|base.frames|]
  {
    var e := EventReturn(c).value;
    var d := |base.frames|;
    hide OverlayWords, OverlayKinds;
    assert e.frames == c.frames[..|c.frames| - 1] && e.saved == c.saved[..|c.saved| - 1];
    assert e.frames[..d] == c.frames[..d] && e.saved[..d] == c.saved[..d];
  }

  lemma ShelteredSame(c: Core, e: Core, base: Core, header: EventFrame)
    requires Sheltered(c, base, header)
    requires e.frames == c.frames && |e.saved| == |c.saved|
    requires forall k :: 0 <= k < |c.saved| - 1 ==> e.saved[k] == c.saved[k]
    requires var k := |c.saved| - 1; Kept(c.saved[k], e.saved[k])
    requires e.contextId == c.contextId && e.domain == c.domain && e.protectedMode
    requires e.pointerFrames == None && e.privilege == c.privilege
    ensures Sheltered(e, base, header)
  {
    var d := |base.frames|;
    assert e.saved[..d] == c.saved[..d];
  }

  lemma ShelteredDeliver(c: Core, base: Core, header: EventFrame)
    requires Sheltered(c, base, header)
    ensures Sheltered(DeliverPending(c), base, header)
    ensures DeliverPending(c).saved[|base.frames|] == c.saved[|base.frames|]
  {
    Shallow(c, base, header);
    if Deliverable(c) {
      hide Sheltered;
      ShelteredSame(c, Consume(c), base, header);
      ShelteredEnter(Consume(c), base, header, InterruptHeader(c));
      Shallow(EnterEvent(Consume(c), InterruptHeader(c)), base, header);
      ShelteredSame(EnterEvent(Consume(c), InterruptHeader(c)), DeliverPending(c), base, header);
    }
  }

  lemma ShelteredTrap(c: Core, base: Core, header: EventFrame)
    requires Sheltered(c, base, header)
    ensures Sheltered(Trap(c), base, header)
    ensures Trap(c).saved[|base.frames|] == c.saved[|base.frames|]
  {
    var h := Here(c, Wrap(c.pc + 4), Syscall);
    hide Sheltered;
    ShelteredEnter(c, base, header, h);
    Shallow(EnterEvent(c, h), base, header);
    ShelteredSame(EnterEvent(c, h), Trap(c), base, header);
  }

  lemma ShelteredWrite(c: Core, register: Register, value: Word, base: Core, header: EventFrame)
    requires Sheltered(c, base, header)
    ensures Sheltered(WriteSyscallResult(c, register, value), base, header)
    ensures var d := |base.frames|;
      WriteSyscallResult(c, register, value).saved[d] == AfterOp(c.saved[d], WriteResult(register, value), |c.frames| == d + 1)
  {
    hide WriteRegister;
    WriteShape(c, register, value);
    RegisterShape(c, register, value);
    if |c.frames| == |base.frames| + 1 {
      TopIntact(c, base, header);
    }
    ShelteredSame(c, WriteSyscallResult(c, register, value), base, header);
  }

  lemma ShelteredAnswer(c: Core, r: HeapReply, base: Core, header: EventFrame)
    requires Sheltered(c, base, header)
    ensures Sheltered(CommitHeapEvent(c, r), base, header)
    ensures var d := |base.frames|;
      CommitHeapEvent(c, r).saved[d] == AfterOp(c.saved[d], AnswerHeap(r), |c.frames| == d + 1)
  {
    AnswerShape(c, r);
    if |c.frames| == |base.frames| + 1 {
      TopIntact(c, base, header);
    }
    hide Answered;
    ShelteredSame(c, CommitHeapEvent(c, r), base, header);
  }

  lemma TopIntact(c: Core, base: Core, header: EventFrame)
    requires Sheltered(c, base, header) && |c.frames| == |base.frames| + 1
    ensures var s := c.saved[|base.frames|];
      s.header == header == c.frames[|base.frames|] && s.contextId == c.contextId && s.domain == c.domain && s.image.Some?
  {
  }

  /** What an operation does to the saved context of an event, on top or not. */
  function AfterOp(s: SavedContext, op: Op, top: bool): SavedContext {
    if !top || s.header.cause != Syscall then s
    else if op.WriteResult? && op.register <= 12 && !s.consumed then s.(results := s.results[op.register := Some(op.value)])
    else if op.AnswerHeap? && CanAnswer(s, op.reply) then Answered(s, op.reply)
    else s
  }

  lemma ShelteredStep(w: World, op: Op, base: Core, header: EventFrame)
    requires Sheltered(w.core, base, header) && Depth(Step(w, op)) > |base.frames|
    ensures Sheltered(Step(w, op).core, base, header)
    ensures var d := |base.frames|; var c, e := w.core, Step(w, op).core;
      e.saved[d] == AfterOp(c.saved[d], op, |c.frames| == d + 1)
  {
    var c, e := w.core, Step(w, op).core;
    Shallow(c, base, header);
    hide Sheltered, EventReturn, Trap, DeliverPending, WriteSyscallResult, CommitHeapEvent, Answered, CanAnswer;
    if op.DoTrap? {
      ShelteredTrap(c, base, header);
    } else if op.Deliver? {
      ShelteredDeliver(c, base, header);
    } else if op.Eret? {
      if EventReturn(c).Some? {
        ShelteredReturn(c, base, header);
      }
    } else if op.WriteResult? {
      ShelteredWrite(c, op.register, op.value, base, header);
    } else if op.AnswerHeap? {
      ShelteredAnswer(c, op.reply, base, header);
    } else if Plain(op) {
      PlainStep(w, op);
      hide Step;
      ShelteredSame(c, e, base, header);
    } else {
      ShelteredSame(c, e, base, header);
    }
  }

  lemma Shallow(c: Core, base: Core, header: EventFrame)
    requires Sheltered(c, base, header)
    ensures |c.frames| == |c.saved| > |base.frames| && c.protectedMode && c.pointerFrames == None
    ensures c.privilege == Supervisor
  {
  }

  lemma {:induction false} HandlerShelters(base: World, header: EventFrame, pc: Word, ops: seq<Op>)
    requires base.core.protectedMode && |base.core.frames| == |base.core.saved|
    requires header.returnPrivilege == base.core.privilege
    requires var e := base.(core := EnterEvent(base.core, header).(pc := pc));
      StaysAbove(e, ops, Depth(base) + 1)
    ensures var e := base.(core := EnterEvent(base.core, header).(pc := pc));
      Sheltered(Run(e, ops).core, base.core, header) && Exported(Run(e, ops).core, base.core, header, e, ops)
    decreases ops
  {
    var e := base.(core := EnterEvent(base.core, header).(pc := pc));
    if ops != [] {
      hide Sheltered, Step, EnterEvent;
      var front, op := ops[..|ops| - 1], ops[|ops| - 1];
      HandlerShelters(base, header, pc, front);
      Shallow(Run(e, front).core, base.core, header);
      ShelteredStep(Run(e, front), op, base.core, header);
      Shallow(Run(e, ops).core, base.core, header);
      HeaderKept(Run(e, front).core, base.core, header);
      ExportedStep(Run(e, front).core, Run(e, ops).core, base.core, header, e, ops);
    }
  }

  lemma ExportedStep(c: Core, c': Core, base: Core, header: EventFrame, e: World, ops: seq<Op>)
    requires ops != [] && base.protectedMode && |base.frames| < |c.saved| && |base.frames| < |c'.saved|
    requires var front := ops[..|ops| - 1]; c == Run(e, front).core && Exported(c, base, header, e, front)
    requires var d := |base.frames|; c'.saved[d] == AfterOp(c.saved[d], ops[|ops| - 1], |c.frames| == d + 1)
    ensures Exported(c', base, header, e, ops)
  {
    hide Run, Answered;
    var d, front, op := |base.frames|, ops[..|ops| - 1], ops[|ops| - 1];
    if header.cause == Syscall && TheReply(base, e, front, d + 1).None? {
      var s := c.saved[d];
      if op.AnswerHeap? && |c.frames| == d + 1 && Expects(base, op.reply) {
        NothingExported(s.results, e, front, d + 1);
      }
    } else if header.cause == Syscall {
      AnsweredShape(Entered(base, header), TheReply(base, e, front, d + 1).value);
    }
  }

  lemma AnsweredShape(s: SavedContext, r: HeapReply)
    requires s.image.Some?
    ensures Answered(s, r).consumed && Answered(s, r).header == s.header
  {
  }

  lemma NothingExported(results: Results, w: World, ops: seq<Op>, depth: nat)
    requires Exports(results, w, ops, depth)
    ensures results == NO_RESULTS <==> NoLanes(w, ops, depth)
  {
    if NoLanes(w, ops, depth) {
      forall r | 0 <= r < 13
        ensures results[r] == NO_RESULTS[r]
      {
        var reg: Register := r;
        assert results[reg] == LastExport(w, ops, depth, reg);
      }
    }
  }

  lemma HeaderKept(c: Core, base: Core, header: EventFrame)
    requires Sheltered(c, base, header)
    ensures c.saved[|base.frames|].header == header
  {
  }

  /** What the interrupted code sees after the event: everything as it was, with the registers its
      handler gave back, and control resuming where the header says. */
  function Resumed(base: Core, header: EventFrame, words: RegFile, kinds: Kinds): Core {
    base.(words := words, kinds := kinds,
          pc := header.returnPc, privilege := header.returnPrivilege, enabled := header.wereEnabled)
  }

  /** Event state that survives a handler, apart from pending interrupts, the mode and identifiers. */
  function Context(c: Core): Core {
    c.(nextEventId := 0, timer := false, device := false, turn := Timer, trapVector := 0)
  }

  /** The lanes a handler run exported for the event at the given depth. */
  function Lanes(e: World, ops: seq<Op>, depth: nat, cause: Cause): Results {
    seq(13, r requires 0 <= r < 13 => if cause == Syscall then LastExport(e, ops, depth, r) else None)
  }

  /** The registers a handler run gives back: as they were, with a heap reply or the exported lanes. */
  function GivenWords(base: Core, e: World, ops: seq<Op>, depth: nat, cause: Cause): RegFile {
    var reply := TheReply(base, e, ops, depth);
    if cause == Syscall && reply.Some? then ReplyWords(base.words, reply.value)
    else OverlayWords(base.words, Lanes(e, ops, depth, cause))
  }

  function GivenKinds(base: Core, e: World, ops: seq<Op>, depth: nat, cause: Cause): Kinds {
    var reply := TheReply(base, e, ops, depth);
    if cause == Syscall && reply.Some? then ReplyKinds(base.kinds, reply.value)
    else OverlayKinds(base.kinds, Lanes(e, ops, depth, cause))
  }

  lemma ReturnResumes(c: Core, base: Core, header: EventFrame)
    requires Sheltered(c, base, header) && |c.frames| == |base.frames| + 1
    ensures EventReturn(c).Some? && c.saved[|base.frames|].image.Some?
    ensures var s := c.saved[|base.frames|];
      var results := if header.cause == Syscall then s.results else NO_RESULTS;
      Context(EventReturn(c).value)
        == Context(Resumed(base, header, OverlayWords(s.image.value.words, results), OverlayKinds(s.image.value.kinds, results)))
  {
    hide OverlayWords, OverlayKinds;
    var d := |base.frames|;
    assert c.frames[..|c.frames| - 1] == base.frames && c.saved[..|c.saved| - 1] == base.saved;
  }

  /** The saved context holds exactly what the run gave back. */
  lemma GivenBack(c: Core, base: Core, header: EventFrame, e: World, ops: seq<Op>)
    requires base.protectedMode && |base.frames| < |c.saved| && Exported(c, base, header, e, ops)
    ensures var s, depth := c.saved[|base.frames|], |base.frames| + 1;
      var results := if header.cause == Syscall then s.results else NO_RESULTS;
      && s.image.Some?
      && OverlayWords(s.image.value.words, results) == GivenWords(base, e, ops, depth, header.cause)
      && OverlayKinds(s.image.value.kinds, results) == GivenKinds(base, e, ops, depth, header.cause)
  {
    hide Run, OverlayWords, OverlayKinds, ReplyWords, ReplyKinds, LastExport, TheReply;
    var s, depth := c.saved[|base.frames|], |base.frames| + 1;
    var results := if header.cause == Syscall then s.results else NO_RESULTS;
    var lanes, reply := Lanes(e, ops, depth, header.cause), TheReply(base, e, ops, depth);
    if header.cause == Syscall && reply.Some? {
      OverlayNothing(ReplyWords(base.words, reply.value), ReplyKinds(base.kinds, reply.value));
    } else {
      forall r | 0 <= r < 13
        ensures results[r] == lanes[r]
      {
        var reg: Register := r;
        assert header.cause == Syscall ==> results[reg] == LastExport(e, ops, depth, reg);
      }
      assert results == lanes;
    }
  }

  lemma EntryRoundTrips(base: World, header: EventFrame, pc: Word, ops: seq<Op>)
    requires base.core.protectedMode && |base.core.frames| == |base.core.saved|
    requires header.returnPrivilege == base.core.privilege
    requires var e := base.(core := EnterEvent(base.core, header).(pc := pc));
      StaysAbove(e, ops, Depth(base) + 1) && Depth(Run(e, ops)) == Depth(base) + 1
    ensures var e, depth := base.(core := EnterEvent(base.core, header).(pc := pc)), Depth(base) + 1;
      && EventReturn(Run(e, ops).core).Some?
      && Context(EventReturn(Run(e, ops).core).value)
         == Context(Resumed(base.core, header, GivenWords(base.core, e, ops, depth, header.cause),
                            GivenKinds(base.core, e, ops, depth, header.cause)))
  {
    hide Sheltered, EnterEvent, Run, StaysAbove, EventReturn, Exported, GivenWords, GivenKinds;
    var e := base.(core := EnterEvent(base.core, header).(pc := pc));
    HandlerShelters(base, header, pc, ops);
    var c := Run(e, ops).core;
    Shallow(c, base.core, header);
    ReturnResumes(c, base.core, header);
    GivenBack(c, base.core, header, e, ops);
  }

  /** Nested events round-trip: from any protected state, after a trap or an interrupt and any handler
      run, with arbitrarily nested events, that comes back to its own level, event return succeeds and
      restores words, kinds, flags, return stack, pointer frames, halt state, privilege and mask, the
      outer events, and PC (past the trap, or at the interrupted instruction), except for what the
      handler of that same syscall gave back at its own level: the first heap reply it could take, or
      else the values last exported for R0 to R12. */
  lemma NestedEventsRoundTrip(base: World, entry: Op, ops: seq<Op>)
    requires base.core.protectedMode && |base.core.frames| == |base.core.saved|
    requires entry.DoTrap? || (entry.Deliver? && Deliverable(base.core))
    requires var e := Step(base, entry); StaysAbove(e, ops, Depth(base) + 1) && Depth(Run(e, ops)) == Depth(base) + 1
    ensures var e, depth := Step(base, entry), Depth(base) + 1; var back := EventReturn(Run(e, ops).core); var c := base.core;
      && back.Some?
      && (entry.DoTrap? ==>
            Context(back.value) == Context(c.(words := GivenWords(c, e, ops, depth, Syscall),
                                              kinds := GivenKinds(c, e, ops, depth, Syscall), pc := Wrap(c.pc + 4))))
      && (entry.Deliver? ==> Context(back.value) == Context(c))
  {
    var c := base.core;
    hide Run, StaysAbove, EventReturn, TheReply;
    if entry.DoTrap? {
      hide GivenWords, GivenKinds;
      EntryRoundTrips(base, Here(c, Wrap(c.pc + 4), Syscall), c.trapVector, ops);
    } else {
      hide OverlayWords, OverlayKinds;
      EntryRoundTrips(base.(core := Consume(c)), InterruptHeader(c), c.trapVector, ops);
      assert Lanes(Step(base, entry), ops, Depth(base) + 1, InterruptHeader(c).cause) == NO_RESULTS;
      OverlayNothing(c.words, c.kinds);
    }
  }

  lemma OverlayNothing(words: RegFile, kinds: Kinds)
    ensures OverlayWords(words, NO_RESULTS) == words && OverlayKinds(kinds, NO_RESULTS) == kinds
  {
  }
}
