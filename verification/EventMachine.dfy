/** The core's event, call and interrupt operations, in place. */

module EventMachine {
  import opened Words
  import M = Machine
  import E = EventCore

  class Anka64Core {
    /** The registers and what travels with them into an event image. */
    var live: E.Image
    var pc: Word
    var privilege: E.Privilege
    var enabled: bool
    var frames: seq<E.EventFrame>
    var saved: seq<E.SavedContext>
    var nextEventId: Word
    const contextId: nat
    const domain: nat
    var protectedMode: bool
    const trapVector: Word
    var timer: bool
    var device: bool
    var turn: E.Turn

    constructor (contextId: nat, domain: nat, trapVector: Word)
      ensures E.Initial(E.World(View(), map[])) && !protectedMode && privilege == E.User && enabled
    {
      live := E.Image([0, 0, 0, 0, 0, 0, 0, 0, 0, 0, 0, 0, 0, 0, 0, 0], E.NO_KINDS,
                      M.Flags(false, false, false, false), [], false, None);
      pc, privilege, enabled, frames, saved, nextEventId := 0, E.User, true, [], [], 1;
      this.contextId, this.domain, this.trapVector, protectedMode := contextId, domain, trapVector, false;
      timer, device, turn := false, false, E.Timer;
    }

    ghost function View(): E.Core
      reads this
    {
      E.Core(live.words, live.kinds, live.flags, live.returnStack, live.halted, live.frames, pc, privilege, enabled,
             frames, saved, nextEventId, contextId, domain, protectedMode, trapVector, timer, device, turn)
    }

    method WriteRegister(register: E.Register, value: Word)
      modifies this`live
      ensures View() == E.WriteRegister(old(View()), register, value)
      ensures live == old(live).(words := live.words, kinds := live.kinds)
    {
      if register < 12 {
        live := live.(kinds := live.kinds[register / 2 := None]);
      }
      live := live.(words := live.words[register := value]);
    }

    method EnableProtectedContext() returns (ok: bool)
      modifies this
      ensures View() == E.EnableProtected(old(View()))
      ensures ok <==> old(protectedMode) || old(frames) == []
    {
      if !protectedMode && frames != [] {
        return false;
      }
      protectedMode := true;
      return true;
    }

    method WriteSyscallResult(register: E.Register, value: Word)
      modifies this
      ensures View() == E.WriteSyscallResult(old(View()), register, value)
    {
      WriteRegister(register, value);
      if register > 12 || privilege != E.Supervisor {
        return;
      }
      if saved != [] {
        var top := saved[|saved| - 1];
        if top.contextId == contextId && top.domain == domain && top.header.cause == E.Syscall && top.image.Some?
           && !top.consumed {
          saved := saved[|saved| - 1 := top.(results := top.results[register := Some(value)])];
        }
      }
    }

    /** Whether the event on top is an intact syscall that still waits for this reply. */
    predicate ValidHeapEvent(reply: E.HeapReply)
      reads this
    {
      && frames != [] && saved != [] && privilege == E.Supervisor && protectedMode && |frames| == |saved|
      && var top := saved[|saved| - 1];
      && top.contextId == contextId && top.domain == domain && top.header == frames[|frames| - 1]
      && !(live.frames.Some? && live.frames.value.active)
      && E.CanAnswer(top, reply)
    }

    /** Write the pointer pair, and for malloc the status pair, into the interrupted registers, once. */
    method CommitHeapEvent(reply: E.HeapReply) returns (ok: bool)
      modifies this`saved
      ensures View() == E.CommitHeapEvent(old(View()), reply)
      ensures ok <==> old(ValidHeapEvent(reply))
      ensures ok ==> !ValidHeapEvent(reply)
    {
      if !ValidHeapEvent(reply) {
        return false;
      }
      var top := saved[|saved| - 1];
      var image := top.image.value;
      var token, offset, kind := 0, 0, None;
      if reply.pointer.Some? {
        token, offset, kind := reply.pointer.value.token, reply.pointer.value.offset, Some(reply.pointer.value.kind);
      }
      image := image.(words := image.words[0 := token][1 := offset], kinds := image.kinds[0 := kind]);
      if reply.malloc {
        image := image.(words := image.words[2 := reply.status][3 := 0], kinds := image.kinds[1 := None]);
      }
      saved := saved[|saved| - 1 := top.(image := Some(image), consumed := true)];
      return true;
    }

    method EnterEvent(header: E.EventFrame)
      modifies this
      ensures View() == E.EnterEvent(old(View()), header)
    {
      var image := None;
      if protectedMode {
        image := Some(live);
        live := live.(returnStack := [], frames := None);
      }
      var eventId := nextEventId;
      nextEventId := E.NextEventId(eventId);
      saved := saved + [E.SavedContext(eventId, header, contextId, domain, image, E.NO_RESULTS, false)];
      frames := frames + [header];
      live := live.(kinds := E.NO_KINDS);
      privilege := E.Supervisor;
      enabled := false;
    }

    /** Overlay the exported lanes register by register. */
    method ExportResults(results: E.Results)
      modifies this`live
      ensures live == old(live).(words := E.OverlayWords(old(live.words), results), kinds := E.OverlayKinds(old(live.kinds), results))
    {
      for register := 0 to 13
        invariant forall i :: 0 <= i < 16 ==>
          live.words[i] == if i < register && results[i].Some? then results[i].value else old(live.words)[i]
        invariant forall i :: 0 <= i < 6 ==>
          live.kinds[i] == if (2 * i < register && results[2 * i].Some?) || (2 * i + 1 < register && results[2 * i + 1].Some?)
                           then None else old(live.kinds)[i]
        invariant live == old(live).(words := live.words, kinds := live.kinds)
      {
        if results[register].Some? {
          WriteRegister(register, results[register].value);
        }
      }
    }

    /** Give the interrupted registers back, then overlay the exported lanes. */
    method Restore(image: E.Image, results: E.Results)
      modifies this`live
      ensures live == image.(words := E.OverlayWords(image.words, results), kinds := E.OverlayKinds(image.kinds, results))
    {
      live := image;
      ExportResults(results);
    }

    /** Peek, validate, then consume. */
    method EventReturn() returns (resumed: Option<Word>)
      modifies this
      ensures E.EventReturn(old(View())).None? ==> resumed == None && View() == old(View())
      ensures E.EventReturn(old(View())).Some? ==> View() == E.EventReturn(old(View())).value && resumed == Some(pc)
    {
      hide E.OverlayWords, E.OverlayKinds;
      if frames == [] || saved == [] {
        return None;
      }
      var frame, context := frames[|frames| - 1], saved[|saved| - 1];
      if |frames| != |saved| || context.contextId != contextId || context.domain != domain
         || context.header != frame || protectedMode != context.image.Some? {
        return None;
      }
      if live.frames.Some? && live.frames.value.active {
        return None;
      }
      saved, frames := saved[..|saved| - 1], frames[..|frames| - 1];
      if context.image.Some? {
        Restore(context.image.value, if frame.cause == E.Syscall then context.results else E.NO_RESULTS);
      }
      privilege, enabled, pc := frame.returnPrivilege, frame.wereEnabled, frame.returnPc;
      return Some(frame.returnPc);
    }

    method DeliverPending() returns (delivered: bool)
      modifies this
      ensures View() == E.DeliverPending(old(View()))
      ensures delivered <==> E.Deliverable(old(View()))
    {
      if !enabled {
        return false;
      }
      var cause;
      match (timer, device) {
        case (false, false) => return false;
        case (true, false) =>
          timer := false;
          cause := E.TimerInterrupt;
        case (false, true) =>
          device := false;
          cause := E.DeviceInterrupt;
        case (true, true) =>
          match turn {
            case Timer =>
              timer, turn := false, E.Device;
              cause := E.TimerInterrupt;
            case Device =>
              device, turn := false, E.Timer;
              cause := E.DeviceInterrupt;
          }
      }
      EnterEvent(E.EventFrame(pc, privilege, enabled, cause));
      pc := trapVector;
      return true;
    }

    method Trap()
      modifies this
      ensures View() == E.Trap(old(View()))
    {
      EnterEvent(E.EventFrame(Wrap(pc + 4), privilege, enabled, E.Syscall));
      pc := trapVector;
    }

    /** Mint authority and transfer, or fault and change nothing. */
    method Call(objects: E.Objects, code: Option<int>, imm: int, check: bool) returns (ok: bool)
      modifies this
      ensures ok <==> E.Call(old(View()), objects, code, imm, check).Some?
      ensures ok ==> View() == E.Call(old(View()), objects, code, imm, check).value
      ensures !ok ==> View() == old(View())
    {
      if live.frames.Some? && !check {
        return false;
      }
      var back := Wrap(pc + 4);
      if code.None? {
        return false;
      }
      if code.value !in objects {
        return false;
      }
      WriteRegister(M.LR, back);
      live := live.(returnStack := live.returnStack + [M.ReturnAuthority(code.value, objects[code.value], back)]);
      pc := Wrap(pc + imm * 4);
      return true;
    }

    /** Peek, validate, and pop only on success. */
    method Ret(objects: E.Objects, check: bool) returns (ok: bool)
      modifies this
      ensures ok <==> E.Ret(old(View()), objects, check).Some?
      ensures ok ==> View() == E.Ret(old(View()), objects, check).value
      ensures !ok ==> View() == old(View())
    {
      if live.frames.Some? && !check {
        return false;
      }
      var stack := live.returnStack;
      if stack == [] {
        return false;
      }
      var top := stack[|stack| - 1];
      if live.words[M.LR] != top.target {
        return false;
      }
      if top.codeObject !in objects || objects[top.codeObject] != top.generation {
        return false;
      }
      live := live.(returnStack := stack[..|stack| - 1]);
      pc := top.target;
      return true;
    }
  }
}
