/** The concurrent protection fabric: transactions that authorize, prepare, then revalidate and
    commit, under arbitrary schedules of advances and revocations. */

module Concurrent {
  import opened Words
  import opened Protection

  datatype Phase = Requested | Authorized | Prepared | Committed | Faulted

  datatype FaultReason = StaleGeneration | NoCapability

  datatype FaultRecord = FaultRecord(address: U32, size: U32, operation: Perm, reason: FaultReason)

  datatype Transaction = Transaction(
    id: U32, agent: U32, objectId: U32, authGeneration: Option<U32>, offset: U32,
    data: seq<Byte>, phase: Phase, fault: Option<FaultRecord>)

  datatype Event = Advance(tx: U32) | Revoke(object: U32)

  // ---- Specification ----

  /** A fault record together with the transaction that caused it. */
  datatype Fault = Fault(owner: nat, record: FaultRecord)

  /** Everything a schedule acts on, with the history of faults and commits so far. */
  datatype World = World(table: Table, memory: seq<Byte>, txs: seq<Transaction>, faults: seq<Fault>, commits: seq<nat>)

  /** 32-bit wrapping addition. */
  function Address(cap: Capability, tx: Transaction): U32 {
    (cap.base + tx.offset) % TWO32
  }

  /** The payload length, truncated to 32 bits. */
  function Size(tx: Transaction): U32 {
    |tx.data| % TWO32
  }

  /** Memory with a payload written at an address. */
  function Overlay(memory: seq<Byte>, at: nat, data: seq<Byte>): (m: seq<Byte>)
    ensures |m| == |memory|
  {
    seq(|memory|, k requires 0 <= k < |memory| => if at <= k < at + |data| then data[k - at] else memory[k])
  }

  function Denied(tx: Transaction, cap: Capability, reason: FaultReason): Transaction {
    tx.(phase := Faulted, fault := Some(FaultRecord(Address(cap, tx), Size(tx), WRITE, reason)))
  }

  function Deny(w: World, i: nat, cap: Capability, reason: FaultReason): World
    requires i < |w.txs|
  {
    var tx := Denied(w.txs[i], cap, reason);
    w.(txs := w.txs[i := tx], faults := w.faults + [Fault(i, tx.fault.value)])
  }

  function Advanced(w: World, i: nat, cap: Capability): (w': World)
    requires i < |w.txs|
    ensures |w'.txs| == |w.txs|
  {
    var tx := w.txs[i];
    match tx.phase
    case Requested =>
      if !Validate(w.table, cap) then Deny(w, i, cap, StaleGeneration)
      else if !Permits(cap, Address(cap, tx), Size(tx), WRITE) then Deny(w, i, cap, NoCapability)
      else w.(txs := w.txs[i := tx.(authGeneration := Some(cap.generation), phase := Authorized)])
    case Authorized => w.(txs := w.txs[i := tx.(phase := Prepared)])
    case Prepared =>
      if !Validate(w.table, cap) then Deny(w, i, cap, StaleGeneration)
      else w.(txs := w.txs[i := tx.(phase := Committed)],
              memory := Overlay(w.memory, Address(cap, tx), tx.data),
              commits := w.commits + [i])
    case Committed => w
    case Faulted => w
  }

  /** Every advance names a transaction of the schedule. */
  ghost predicate Names(events: seq<Event>, n: nat) {
    forall k :: 0 <= k < |events| && events[k].Advance? ==> events[k].tx < n
  }

  function Step(w: World, caps: seq<Capability>, ev: Event): (w': World)
    requires |caps| == |w.txs| && (ev.Advance? ==> ev.tx < |caps|)
    ensures |w'.txs| == |w.txs|
  {
    match ev
    case Advance(i) => Advanced(w, i, caps[i])
    case Revoke(o) => w.(table := Revoked(w.table, o))
  }

  function Run(w: World, caps: seq<Capability>, events: seq<Event>): (w': World)
    requires |caps| == |w.txs| && Names(events, |caps|)
    ensures |w'.txs| == |w.txs|
    decreases events
  {
    if events == [] then w
    else Step(Run(w, caps, events[..|events| - 1]), caps, events[|events| - 1])
  }

  /** A commit's payload lies inside memory; indexing panics otherwise. */
  predicate Fits(memory: nat, table: Table, tx: Transaction, cap: Capability) {
    tx.phase == Prepared && Validate(table, cap) ==> Address(cap, tx) + |tx.data| <= memory
  }

  /** No event of the schedule commits past the end of memory. */
  ghost predicate InRange(w: World, caps: seq<Capability>, events: seq<Event>)
    requires |caps| == |w.txs| && Names(events, |caps|)
  {
    forall k :: 0 <= k < |events| ==> EventFits(Run(w, caps, events[..k]), caps, events[k])
  }

  predicate EventFits(w: World, caps: seq<Capability>, ev: Event)
    requires |caps| == |w.txs|
  {
    ev.Advance? && ev.tx < |caps| ==> Fits(|w.memory|, w.table, w.txs[ev.tx], caps[ev.tx])
  }

  /** Authority checked at authorization time still describes a transaction on its way to commit. */
  predicate Authentic(tx: Transaction, cap: Capability) {
    tx.phase in {Authorized, Prepared} ==> Permits(cap, Address(cap, tx), Size(tx), WRITE)
  }

  ghost predicate AllAuthentic(txs: seq<Transaction>, caps: seq<Capability>) {
    |txs| == |caps| && forall i :: 0 <= i < |txs| ==> Authentic(txs[i], caps[i])
  }

  ghost predicate ShortPayloads(txs: seq<Transaction>) {
    forall i :: 0 <= i < |txs| ==> |txs[i].data| < TWO32
  }

  ghost predicate ObjectsInside(table: Table, size: nat) {
    forall o :: 0 <= o < |table| ==> table[o].base + table[o].length <= size
  }

  /** The payload of a transaction lies inside its capability's object. */
  ghost predicate InsideObject(table: Table, tx: Transaction, cap: Capability) {
    && cap.objectId < |table|
    && table[cap.objectId].base <= Address(cap, tx)
    && Address(cap, tx) + |tx.data| <= table[cap.objectId].base + table[cap.objectId].length
  }

  // ---- The fabric ----

  function Records(faults: seq<Fault>): seq<FaultRecord> {
    seq(|faults|, k requires 0 <= k < |faults| => faults[k].record)
  }

  class ConcurrentFabric {
    const objects: ObjectTable
    const memory: array<Byte>
    var faultLog: seq<FaultRecord>

    constructor (size: nat)
      ensures fresh(objects) && fresh(memory)
      ensures objects.entries == [] && memory[..] == seq(size, k => 0) && faultLog == []
    {
      objects := new ObjectTable();
      memory := new Byte[size](k => 0);
      faultLog := [];
    }

    /** The world of a schedule over these transactions, with an empty history. */
    ghost function View(txs: array<Transaction>): World
      reads this, objects, memory, txs
    {
      World(objects.entries, memory[..], txs[..], [], [])
    }

    /** The fabric is now in the given world and has logged its faults after the earlier ones. */
    ghost predicate Became(txs: array<Transaction>, w: World, log: seq<FaultRecord>)
      reads this, objects, memory, txs
    {
      && objects.entries == w.table && memory[..] == w.memory && txs[..] == w.txs
      && faultLog == log + Records(w.faults)
    }

    method Fault(txs: array<Transaction>, i: nat, cap: Capability, reason: FaultReason)
      requires i < txs.Length
      modifies this, txs
      ensures Became(txs, Deny(old(View(txs)), i, cap, reason), old(faultLog))
    {
      var record := FaultRecord(Address(cap, txs[i]), Size(txs[i]), WRITE, reason);
      faultLog := faultLog + [record];
      txs[i] := txs[i].(phase := Faulted, fault := Some(record));
    }

    method Authorize(txs: array<Transaction>, i: nat, cap: Capability)
      requires i < txs.Length && txs[i].phase == Requested
      modifies this, txs
      ensures Became(txs, Advanced(old(View(txs)), i, cap), old(faultLog))
    {
      if !Validate(objects.entries, cap) {
        Fault(txs, i, cap, StaleGeneration);
      } else if !Permits(cap, Address(cap, txs[i]), Size(txs[i]), WRITE) {
        Fault(txs, i, cap, NoCapability);
      } else {
        txs[i] := txs[i].(authGeneration := Some(cap.generation), phase := Authorized);
      }
    }

    /** Write the payload byte by byte. */
    method Write(base: nat, data: seq<Byte>)
      requires base + |data| <= memory.Length
      modifies memory
      ensures memory[..] == Overlay(old(memory[..]), base, data)
    {
      for i := 0 to |data|
        invariant forall k :: 0 <= k < memory.Length ==>
          memory[k] == if base <= k < base + i then data[k - base] else old(memory[k])
      {
        memory[base + i] := data[i];
      }
    }

    method Commit(txs: array<Transaction>, i: nat, cap: Capability)
      requires i < txs.Length && txs[i].phase == Prepared && Fits(memory.Length, objects.entries, txs[i], cap)
      modifies this, txs, memory
      ensures Became(txs, Advanced(old(View(txs)), i, cap), old(faultLog))
    {
      if !Validate(objects.entries, cap) {
        Fault(txs, i, cap, StaleGeneration);
      } else {
        Write(Address(cap, txs[i]), txs[i].data);
        txs[i] := txs[i].(phase := Committed);
      }
    }

    method Advance(txs: array<Transaction>, i: nat, cap: Capability)
      requires i < txs.Length && Fits(memory.Length, objects.entries, txs[i], cap)
      modifies this, txs, memory
      ensures Became(txs, Advanced(old(View(txs)), i, cap), old(faultLog))
    {
      match txs[i].phase
      case Requested => Authorize(txs, i, cap);
      case Authorized => txs[i] := txs[i].(phase := Prepared);
      case Prepared => Commit(txs, i, cap);
      case Committed =>
      case Faulted =>
    }

    method RunSchedule(txs: array<Transaction>, caps: seq<Capability>, events: seq<Event>)
      requires |caps| == txs.Length && Names(events, |caps|)
      requires InRange(View(txs), caps, events)
      modifies this, objects, txs, memory
      ensures Became(txs, Run(old(View(txs)), caps, events), old(faultLog))
    {
      hide Advanced, Fits, InRange;
      ghost var start := View(txs);
      for k := 0 to |events|
        invariant Became(txs, Run(start, caps, events[..k]), old(faultLog))
      {
        ghost var w := Run(start, caps, events[..k]);
        assert events[..k + 1][..k] == events[..k];
        AtEvent(start, caps, events, k);
        match events[k] {
          case Advance(i) =>
            HistoryFree(w, View(txs), i, caps[i]);
            Advance(txs, i, caps[i]);
          case Revoke(o) => objects.Revoke(o);
        }
      }
      assert events[..|events|] == events;
    }
  }

  lemma AtEvent(w: World, caps: seq<Capability>, events: seq<Event>, k: nat)
    requires |caps| == |w.txs| && Names(events, |caps|) && InRange(w, caps, events) && k < |events|
    ensures EventFits(Run(w, caps, events[..k]), caps, events[k])
  {
  }

  /** The history does not affect what an advance does. */
  lemma HistoryFree(w: World, v: World, i: nat, cap: Capability)
    requires i < |w.txs| && v == w.(faults := [], commits := [])
    ensures var w', v' := Advanced(w, i, cap), Advanced(v, i, cap);
      w' == v'.(faults := w.faults + v'.faults, commits := w.commits + v'.commits)
  {
    assert w.faults + [] == w.faults && w.commits + [] == w.commits;
  }

  /** A transaction about to commit writes inside its object. */
  lemma WritesInside(table: Table, tx: Transaction, cap: Capability)
    requires Validate(table, cap) && Permits(cap, Address(cap, tx), Size(tx), WRITE) && |tx.data| < TWO32
    ensures InsideObject(table, tx, cap)
  {
  }

  lemma OneAuthentic(w: World, caps: seq<Capability>, ev: Event)
    requires AllAuthentic(w.txs, caps) && ShortPayloads(w.txs)
    ensures ev.Advance? && ev.tx < |caps| ==> Authentic(w.txs[ev.tx], caps[ev.tx]) && |w.txs[ev.tx].data| < TWO32
  {
  }

  lemma StepKeeps(w: World, caps: seq<Capability>, ev: Event, size: nat)
    requires |caps| == |w.txs| && (ev.Advance? ==> ev.tx < |caps|)
    requires AllAuthentic(w.txs, caps) && ShortPayloads(w.txs) && ObjectsInside(w.table, size)
    ensures var w' := Step(w, caps, ev);
      AllAuthentic(w'.txs, caps) && ShortPayloads(w'.txs) && ObjectsInside(w'.table, size)
  {
  }

  /** Schedules of payloads shorter than 2^32 bytes over objects inside memory are in range. */
  lemma {:induction false} ShortIsInRange(w: World, caps: seq<Capability>, events: seq<Event>)
    requires AllAuthentic(w.txs, caps) && Names(events, |caps|)
    requires ShortPayloads(w.txs) && ObjectsInside(w.table, |w.memory|)
    ensures InRange(w, caps, events)
  {
    hide Run, EventFits;
    forall k | 0 <= k < |events|
      ensures EventFits(Run(w, caps, events[..k]), caps, events[k])
    {
      RunKeeps(w, caps, events[..k]);
      ShortFits(Run(w, caps, events[..k]), caps, events[k]);
    }
  }

  lemma {:induction false} RunKeeps(w: World, caps: seq<Capability>, events: seq<Event>)
    requires AllAuthentic(w.txs, caps) && Names(events, |caps|)
    requires ShortPayloads(w.txs) && ObjectsInside(w.table, |w.memory|)
    ensures var r := Run(w, caps, events);
      AllAuthentic(r.txs, caps) && ShortPayloads(r.txs) && ObjectsInside(r.table, |r.memory|) && |r.memory| == |w.memory|
    decreases events
  {
    if events != [] {
      var front := events[..|events| - 1];
      RunKeeps(w, caps, front);
      hide AllAuthentic, ShortPayloads, ObjectsInside;
      StepKeeps(Run(w, caps, front), caps, events[|events| - 1], |w.memory|);
    }
  }

  lemma ShortFits(w: World, caps: seq<Capability>, ev: Event)
    requires AllAuthentic(w.txs, caps) && ShortPayloads(w.txs) && ObjectsInside(w.table, |w.memory|)
    ensures EventFits(w, caps, ev)
  {
    if ev.Advance? && ev.tx < |caps| && w.txs[ev.tx].phase == Prepared && Validate(w.table, caps[ev.tx]) {
      assert Authentic(w.txs[ev.tx], caps[ev.tx]);
      WritesInside(w.table, w.txs[ev.tx], caps[ev.tx]);
    }
  }
}
