/** Interrupt arbitration over runs: bounded service and conservation of pending bits. */
module InterruptLaws {
  import opened Words
  import opened EventCore
  import L = EventLaws

  predicate Pending(c: Core, s: Turn) {
    if s == Timer then c.timer else c.device
  }

  predicate Delivers(w: World, op: Op, s: Turn) {
    op.Deliver? && Deliverable(w.core) && Selected(w.core) == s
  }

  /** A post that finds the source's bit clear. */
  predicate Latches(w: World, op: Op, s: Turn) {
    (if s == Timer then op.PostTimer? else op.PostDevice?) && !Pending(w.core, s)
  }

  function Deliveries(w: World, ops: seq<Op>, s: Turn): nat
    decreases ops
  {
    if ops == [] then 0
    else
      var front := ops[..|ops| - 1];
      Deliveries(w, front, s) + if Delivers(Run(w, front), ops[|ops| - 1], s) then 1 else 0
  }

  function Posts(w: World, ops: seq<Op>, s: Turn): nat
    decreases ops
  {
    if ops == [] then 0
    else
      var front := ops[..|ops| - 1];
      Posts(w, front, s) + if Latches(Run(w, front), ops[|ops| - 1], s) then 1 else 0
  }

  function Bit(c: Core, s: Turn): nat {
    if Pending(c, s) then 1 else 0
  }

  /** The effect of any operation on the pending bits and the turn. */
  lemma ArbiterStep(w: World, op: Op, s: Turn)
    ensures var c, d := w.core, Step(w, op).core;
      && Bit(d, s) + (if Delivers(w, op, s) then 1 else 0) == Bit(c, s) + (if Latches(w, op, s) then 1 else 0)
      && d.turn == if op.Deliver? && Deliverable(c) && c.timer && c.device then Other(c.turn) else c.turn
  {
    hide EventReturn, Call, Ret, WriteSyscallResult, CommitHeapEvent, Trap;
    if op.Eret? {
      ReturnApart(w.core);
    } else if op.DoCall? || op.DoRet? {
      CallApart(w.core, w.objects, op);
    } else if op.WriteResult? {
      WriteApart(w.core, op.register, op.value);
    } else if op.AnswerHeap? {
      L.AnswerShape(w.core, op.reply);
    } else if op.DoTrap? {
      TrapApart(w.core);
    }
  }

  predicate SameArbiter(c: Core, d: Core) {
    d.timer == c.timer && d.device == c.device && d.turn == c.turn
  }

  lemma ReturnApart(c: Core)
    ensures EventReturn(c).Some? ==> SameArbiter(c, EventReturn(c).value)
  {
    hide OverlayWords, OverlayKinds;
  }

  lemma CallApart(c: Core, objects: Objects, op: Op)
    ensures op.DoCall? ==> SameArbiter(c, Else(Call(c, objects, op.code, op.imm, op.check), c))
    ensures op.DoRet? ==> SameArbiter(c, Else(Ret(c, objects, op.check), c))
  {
  }

  lemma WriteApart(c: Core, register: Register, value: Word)
    ensures SameArbiter(c, WriteSyscallResult(c, register, value))
  {
    hide WriteSyscallResult;
    L.WriteShape(c, register, value);
  }

  lemma TrapApart(c: Core)
    ensures SameArbiter(c, Trap(c))
  {
  }

  /** Each delivery consumes exactly one posted bit: deliveries and the bit left over account for
      every post that latched. */
  lemma {:induction false} PendingConserved(w: World, ops: seq<Op>, s: Turn)
    ensures Deliveries(w, ops, s) + Bit(Run(w, ops).core, s) == Bit(w.core, s) + Posts(w, ops, s)
    decreases ops
  {
    if ops != [] {
      hide Step, Bit, Delivers, Latches;
      PendingConserved(w, ops[..|ops| - 1], s);
      ArbiterStep(Run(w, ops[..|ops| - 1]), ops[|ops| - 1], s);
    }
  }

  lemma {:induction false} ServiceCount(w: World, ops: seq<Op>, s: Turn)
    requires Pending(w.core, s) && Deliveries(w, ops, s) == 0
    ensures Pending(Run(w, ops).core, s)
    ensures var t := Run(w, ops).core.turn;
      && (t == w.core.turn || t == s)
      && Deliveries(w, ops, Other(s)) == if t != w.core.turn then 1 else 0
    decreases ops
  {
    if ops != [] {
      hide Step;
      var front, op := ops[..|ops| - 1], ops[|ops| - 1];
      ServiceCount(w, front, s);
      ArbiterStep(Run(w, front), op, s);
      ArbiterStep(Run(w, front), op, Other(s));
    }
  }

  /** Bounded service: in every run of posts, deliveries, masks, calls, traps and returns, while a
      source stays pending at most one delivery of the other source happens before it is served, and
      none when the turn is already its own. */
  lemma BoundedService(w: World, ops: seq<Op>, s: Turn)
    requires Pending(w.core, s) && Deliveries(w, ops, s) == 0
    ensures Pending(Run(w, ops).core, s)
    ensures Deliveries(w, ops, Other(s)) <= if w.core.turn == s then 0 else 1
  {
    ServiceCount(w, ops, s);
  }
}

/** Return authority is last-in first-out over runs, level by level. */
module ReturnLaws {
  import opened Words
  import M = Machine
  import opened EventCore
  import opened EventLaws

  /** The world before the n-th operation. */
  function At(w: World, ops: seq<Op>, n: nat): World
    requires n <= |ops|
  {
    Run(w, ops[..n])
  }

  lemma AtStep(w: World, ops: seq<Op>, n: nat)
    requires n < |ops|
    ensures At(w, ops, n + 1) == Step(At(w, ops, n), ops[n])
  {
    hide Step;
    assert ops[..n + 1][..n] == ops[..n];
  }

  predicate CallSucceeds(w: World, op: Op) {
    op.DoCall? && Call(w.core, w.objects, op.code, op.imm, op.check).Some?
  }

  predicate RetSucceeds(w: World, op: Op) {
    op.DoRet? && Ret(w.core, w.objects, op.check).Some?
  }

  predicate Enters(w: World, op: Op) {
    op.DoTrap? || (op.Deliver? && Deliverable(w.core))
  }

  predicate Leaves(w: World, op: Op) {
    op.Eret? && EventReturn(w.core).Some?
  }

  /** The calls not yet returned from, by position in the run, one list per event nesting level. */
  function Open(w: World, ops: seq<Op>, n: nat): (levels: seq<seq<nat>>)
    requires n <= |ops|
    ensures levels != []
  {
    if n == 0 then [[]]
    else
      var levels := Open(w, ops, n - 1);
      var top, v, op := levels[|levels| - 1], At(w, ops, n - 1), ops[n - 1];
      if CallSucceeds(v, op) then levels[|levels| - 1 := top + [n - 1]]
      else if RetSucceeds(v, op) && top != [] then levels[|levels| - 1 := top[..|top| - 1]]
      else if Enters(v, op) then levels + [[]]
      else if Leaves(v, op) && |levels| > 1 then levels[..|levels| - 1]
      else levels
  }

  /** The authority minted by the call at a position. */
  predicate MintedBy(w: World, ops: seq<Op>, a: M.ReturnAuthority, j: nat) {
    && j < |ops| && CallSucceeds(At(w, ops, j), ops[j])
    && var v := At(w, ops, j);
    a == M.ReturnAuthority(ops[j].code.value, v.objects[ops[j].code.value], Wrap(v.core.pc + 4))
  }

  ghost predicate Mirrors(w: World, ops: seq<Op>, stack: seq<M.ReturnAuthority>, calls: seq<nat>) {
    |stack| == |calls| && forall m :: 0 <= m < |stack| ==> MintedBy(w, ops, stack[m], calls[m])
  }

  /** The return stack of a level: the current one on top, the saved ones below. */
  function StackAt(c: Core, k: nat): seq<M.ReturnAuthority>
    requires k <= |c.saved|
  {
    if k == |c.saved| then c.returnStack
    else if c.saved[k].image.Some? then c.saved[k].image.value.returnStack
    else []
  }

  ghost predicate Levelled(w: World, ops: seq<Op>, c: Core, levels: seq<seq<nat>>) {
    |levels| == |c.saved| + 1 && forall k :: 0 <= k < |levels| ==> Mirrors(w, ops, StackAt(c, k), levels[k])
  }

  lemma LevelledCall(w: World, ops: seq<Op>, n: nat, levels: seq<seq<nat>>)
    requires n < |ops|
    requires Levelled(w, ops, At(w, ops, n).core, levels) && CallSucceeds(At(w, ops, n), ops[n])
    ensures var top := levels[|levels| - 1];
      Levelled(w, ops, At(w, ops, n + 1).core, levels[|levels| - 1 := top + [n]])
  {
    hide At;
    AtStep(w, ops, n);
    var c, d := At(w, ops, n).core, At(w, ops, n + 1).core;
    var top := levels[|levels| - 1];
    var levels' := levels[|levels| - 1 := top + [n]];
    forall k | 0 <= k < |levels'|
      ensures Mirrors(w, ops, StackAt(d, k), levels'[k])
    {
      assert Mirrors(w, ops, StackAt(c, k), levels[k]);
      assert k < |c.saved| ==> StackAt(d, k) == StackAt(c, k);
    }
  }

  lemma LevelledOther(w: World, ops: seq<Op>, c: Core, d: Core, levels: seq<seq<nat>>)
    requires Levelled(w, ops, c, levels)
    requires |d.saved| == |c.saved| && d.returnStack == c.returnStack
    requires forall k :: 0 <= k < |c.saved| ==> Kept(c.saved[k], d.saved[k])
    ensures Levelled(w, ops, d, levels)
  {
    forall k | 0 <= k < |levels|
      ensures Mirrors(w, ops, StackAt(d, k), levels[k])
    {
      assert k < |c.saved| ==> Kept(c.saved[k], d.saved[k]);
      assert StackAt(d, k) == StackAt(c, k);
    }
  }

  lemma LevelledRet(w: World, ops: seq<Op>, c: Core, objects: Objects, check: bool, levels: seq<seq<nat>>)
    requires Levelled(w, ops, c, levels) && Ret(c, objects, check).Some?
    ensures levels[|levels| - 1] != []
    ensures var top := levels[|levels| - 1];
      Levelled(w, ops, Ret(c, objects, check).value, levels[|levels| - 1 := top[..|top| - 1]])
  {
    hide MintedBy;
    var d := Ret(c, objects, check).value;
    var top := levels[|levels| - 1];
    assert Mirrors(w, ops, StackAt(c, |c.saved|), top);
    var levels' := levels[|levels| - 1 := top[..|top| - 1]];
    forall k | 0 <= k < |levels'|
      ensures Mirrors(w, ops, StackAt(d, k), levels'[k])
    {
      assert Mirrors(w, ops, StackAt(c, k), levels[k]);
      assert k < |c.saved| ==> StackAt(d, k) == StackAt(c, k);
    }
  }

  lemma LevelledEnter(w: World, ops: seq<Op>, c: Core, header: EventFrame, levels: seq<seq<nat>>)
    requires Levelled(w, ops, c, levels) && c.protectedMode
    ensures Levelled(w, ops, EnterEvent(c, header), levels + [[]])
  {
    hide MintedBy;
    var d := EnterEvent(c, header);
    forall k | 0 <= k < |levels + [[]]|
      ensures Mirrors(w, ops, StackAt(d, k), (levels + [[]])[k])
    {
      if k < |levels| {
        assert Mirrors(w, ops, StackAt(c, k), levels[k]);
        assert StackAt(d, k) == StackAt(c, k);
      }
    }
  }

  lemma LevelledReturn(w: World, ops: seq<Op>, c: Core, levels: seq<seq<nat>>)
    requires Levelled(w, ops, c, levels) && c.protectedMode && EventReturn(c).Some?
    ensures |levels| > 1 && Levelled(w, ops, EventReturn(c).value, levels[..|levels| - 1])
  {
    hide MintedBy, OverlayWords, OverlayKinds;
    var d := EventReturn(c).value;
    forall k | 0 <= k < |levels| - 1
      ensures Mirrors(w, ops, StackAt(d, k), levels[..|levels| - 1][k])
    {
      assert Mirrors(w, ops, StackAt(c, k), levels[k]);
      assert StackAt(d, k) == StackAt(c, k);
    }
  }

  lemma LevelledStep(w: World, ops: seq<Op>, n: nat)
    requires n < |ops|
    requires Levelled(w, ops, At(w, ops, n).core, Open(w, ops, n)) && At(w, ops, n).core.protectedMode
    ensures Levelled(w, ops, At(w, ops, n + 1).core, Open(w, ops, n + 1)) && At(w, ops, n + 1).core.protectedMode
  {
    hide At, Levelled, EventReturn, Call, Ret, WriteSyscallResult, CommitHeapEvent, Trap, DeliverPending;
    AtStep(w, ops, n);
    var v, op, levels := At(w, ops, n), ops[n], Open(w, ops, n);
    var c := v.core;
    if CallSucceeds(v, op) {
      LevelledCall(w, ops, n, levels);
      CallKeeps(c, v.objects, op.code, op.imm, op.check);
    } else if RetSucceeds(v, op) {
      LevelledRet(w, ops, c, v.objects, op.check, levels);
      RetKeeps(c, v.objects, op.check);
    } else if op.DoTrap? {
      LevelledTrap(w, ops, c, levels);
    } else if op.Deliver? && Deliverable(c) {
      LevelledDeliver(w, ops, c, levels);
    } else if Leaves(v, op) {
      LevelledReturn(w, ops, c, levels);
      ReturnMode(c);
    } else {
      OtherKeeps(v, op);
      LevelledOther(w, ops, c, At(w, ops, n + 1).core, levels);
    }
  }

  lemma LevelledTrap(w: World, ops: seq<Op>, c: Core, levels: seq<seq<nat>>)
    requires Levelled(w, ops, c, levels) && c.protectedMode
    ensures Levelled(w, ops, Trap(c), levels + [[]]) && Trap(c).protectedMode
  {
    hide Levelled;
    var header := Here(c, Wrap(c.pc + 4), Syscall);
    LevelledEnter(w, ops, c, header, levels);
    LevelledOther(w, ops, EnterEvent(c, header), Trap(c), levels + [[]]);
  }

  lemma LevelledDeliver(w: World, ops: seq<Op>, c: Core, levels: seq<seq<nat>>)
    requires Levelled(w, ops, c, levels) && c.protectedMode && Deliverable(c)
    ensures Levelled(w, ops, DeliverPending(c), levels + [[]]) && DeliverPending(c).protectedMode
  {
    hide Levelled;
    LevelledOther(w, ops, c, Consume(c), levels);
    LevelledEnter(w, ops, Consume(c), InterruptHeader(c), levels);
    LevelledOther(w, ops, EnterEvent(Consume(c), InterruptHeader(c)), DeliverPending(c), levels + [[]]);
  }

  lemma ReturnMode(c: Core)
    ensures EventReturn(c).Some? ==> EventReturn(c).value.protectedMode == c.protectedMode
  {
    hide OverlayWords, OverlayKinds;
  }

  lemma RetKeeps(c: Core, objects: Objects, check: bool)
    ensures var d := Ret(c, objects, check);
      d.Some? ==> d.value == c.(returnStack := d.value.returnStack, pc := d.value.pc)
  {
  }

  lemma WriteKeeps(c: Core, register: Register, value: Word)
    ensures var d := WriteSyscallResult(c, register, value);
      && |d.saved| == |c.saved| && d.returnStack == c.returnStack && d.protectedMode == c.protectedMode
      && forall k :: 0 <= k < |c.saved| ==> Kept(c.saved[k], d.saved[k])
  {
    hide WriteSyscallResult;
    WriteShape(c, register, value);
  }

  /** No other operation, and no call or return that faults, touches a return stack. */
  lemma OtherKeeps(w: World, op: Op)
    requires !CallSucceeds(w, op) && !RetSucceeds(w, op) && !Enters(w, op) && !Leaves(w, op) && w.core.protectedMode
    ensures var c, d := w.core, Step(w, op).core;
      && |d.saved| == |c.saved| && d.returnStack == c.returnStack && d.protectedMode
      && forall k :: 0 <= k < |c.saved| ==> Kept(c.saved[k], d.saved[k])
  {
    hide EventReturn, Call, Ret, WriteSyscallResult, CommitHeapEvent, Trap;
    if op.WriteResult? {
      WriteKeeps(w.core, op.register, op.value);
    } else if op.AnswerHeap? {
      AnswerShape(w.core, op.reply);
    }
  }

  lemma {:induction false} OpenMirrors(w: World, ops: seq<Op>, n: nat)
    requires Initial(w) && w.core.protectedMode && n <= |ops|
    ensures Levelled(w, ops, At(w, ops, n).core, Open(w, ops, n)) && At(w, ops, n).core.protectedMode
  {
    hide Levelled, Open;
    if n == 0 {
      InitialLevelled(w, ops);
    } else {
      OpenMirrors(w, ops, n - 1);
      LevelledStep(w, ops, n - 1);
    }
  }

  lemma InitialLevelled(w: World, ops: seq<Op>)
    requires Initial(w)
    ensures At(w, ops, 0) == w && Levelled(w, ops, w.core, Open(w, ops, 0))
  {
    assert ops[..0] == [];
  }

  /** The latest call not yet returned from at the current nesting level, if any. */
  function LatestOpen(w: World, ops: seq<Op>, n: nat): Option<nat>
    requires n <= |ops|
  {
    var levels := Open(w, ops, n);
    var top := levels[|levels| - 1];
    if top == [] then None else Some(top[|top| - 1])
  }

  /** The call at a position still authorizes a return to the word after it. */
  predicate StillAuthorizes(w: World, ops: seq<Op>, j: nat, v: World) {
    && j < |ops| && CallSucceeds(At(w, ops, j), ops[j])
    && var u, code := At(w, ops, j), ops[j].code.value;
    && v.core.words[M.LR] == Wrap(u.core.pc + 4)
    && code in v.objects && v.objects[code] == u.objects[code]
  }

  lemma {:induction false} LatestIsTop(w: World, ops: seq<Op>, n: nat)
    requires Initial(w) && w.core.protectedMode && n <= |ops|
    ensures var c, j := At(w, ops, n).core, LatestOpen(w, ops, n);
      && (j.None? <==> c.returnStack == [])
      && (j.Some? ==> MintedBy(w, ops, c.returnStack[|c.returnStack| - 1], j.value))
  {
    hide At, Open, MintedBy;
    OpenMirrors(w, ops, n);
    var c, levels := At(w, ops, n).core, Open(w, ops, n);
    assert Mirrors(w, ops, StackAt(c, |c.saved|), levels[|levels| - 1]);
  }

  /** With protected contexts on, a RET in any run (one that a loaded pointer-frame program does not
      veto) succeeds exactly when there is an open call at the current nesting level, LR holds the
      word after the latest such call, and that call's code object still has the generation it had
      at the call; and it goes there. */
  lemma ReturnIsLifo(w: World, ops: seq<Op>, n: nat, check: bool)
    requires Initial(w) && w.core.protectedMode && n <= |ops|
    requires At(w, ops, n).core.pointerFrames.Some? ==> check
    ensures var v, j := At(w, ops, n), LatestOpen(w, ops, n);
      var r := Ret(v.core, v.objects, check);
      && (r.Some? <==> j.Some? && StillAuthorizes(w, ops, j.value, v))
      && (r.Some? ==> r.value.pc == Wrap(At(w, ops, j.value).core.pc + 4))
  {
    LatestIsTop(w, ops, n);
    hide At, Open, LatestOpen, CallSucceeds;
  }
}

/** The compiler's target and the event core are the same machine where both speak: on CALL and RET. */
module OneMachine {
  import opened Words
  import M = Machine
  import E = EventCore

  /** The same registers, return stack and program counter; the one counts words, the other bytes. */
  predicate Same(s: M.State, c: E.Core) {
    s.regs == c.words && s.retStack == c.returnStack && 0 <= s.pc && 4 * s.pc < TWO64 && c.pc == 4 * s.pc
  }

  /** A CALL of the compiler's target is a CALL of the core with the text as its code object. */
  lemma CallIsCall(t: M.Text, s: M.State, c: E.Core, off: int, check: bool)
    requires Same(s, c) && c.pointerFrames == None && 0 <= s.pc + off && 4 * (s.pc + off) < TWO64
    ensures var d := E.Call(c, map[t.codeObject := t.generation], Some(t.codeObject), off, check);
      d.Some? && M.Execute(t, M.Call(off), s).Next? && Same(M.Execute(t, M.Call(off), s).s, d.value)
  {
  }

  /** A RET succeeds in the one exactly when it does in the other, and leads to the same state. */
  lemma RetIsRet(t: M.Text, s: M.State, c: E.Core, check: bool)
    requires Same(s, c) && c.pointerFrames == None
    requires s.retStack != [] ==> s.retStack[|s.retStack| - 1].target % 4 == 0
    ensures var d := E.Ret(c, map[t.codeObject := t.generation], check); var r := M.Execute(t, M.Ret, s);
      && (d.Some? <==> r.Next?) && (d.None? <==> r.Fault?)
      && (d.Some? ==> Same(r.s, d.value))
  {
    if s.retStack != [] {
      var target := s.retStack[|s.retStack| - 1].target;
      assert 4 * (target / 4) == target;
    }
  }
}
