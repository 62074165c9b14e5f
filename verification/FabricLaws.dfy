/** The laws of the concurrent fabric, over every schedule. */

module FabricLaws {
  import opened Words
  import opened Protection
  import opened Concurrent
  import Authority

  // ---- Two-run noninterference ----

  /** The schedule with every advance of the given transactions deleted. */
  ghost function Without(events: seq<Event>, gone: set<nat>): seq<Event>
    decreases events
  {
    if events == [] then []
    else
      var rest, last := Without(events[..|events| - 1], gone), events[|events| - 1];
      if last.Advance? && last.tx in gone then rest else rest + [last]
  }

  /** The faults of the other transactions. */
  ghost function NotOwned(faults: seq<Fault>, gone: set<nat>): seq<Fault>
    decreases faults
  {
    if faults == [] then []
    else
      var rest, last := NotOwned(faults[..|faults| - 1], gone), faults[|faults| - 1];
      if last.owner in gone then rest else rest + [last]
  }

  lemma NotOwnedPush(faults: seq<Fault>, f: Fault, gone: set<nat>)
    ensures NotOwned(faults + [f], gone) ==
      if f.owner in gone then NotOwned(faults, gone) else NotOwned(faults, gone) + [f]
  {
    assert (faults + [f])[..|faults|] == faults;
  }

  lemma {:induction false} WithoutNames(events: seq<Event>, gone: set<nat>, n: nat)
    requires Names(events, n)
    ensures Names(Without(events, gone), n)
    decreases events
  {
    if events != [] {
      WithoutNames(events[..|events| - 1], gone, n);
    }
  }

  /** Two worlds that differ only in the given transactions and the faults they caused. */
  ghost predicate SameBut(a: World, b: World, start: World, gone: set<nat>) {
    && a.table == b.table && a.memory == b.memory && a.commits == b.commits
    && |a.txs| == |b.txs| == |start.txs|
    && (forall i :: 0 <= i < |a.txs| && i !in gone ==> a.txs[i] == b.txs[i])
    && (forall i :: 0 <= i < |a.txs| && i in gone ==> b.txs[i] == start.txs[i])
    && b.faults == NotOwned(a.faults, gone)
  }

  /** An advance of a deleted transaction that does not end committed changes only that transaction. */
  lemma GoneAdvance(a: World, b: World, start: World, gone: set<nat>, i: nat, cap: Capability)
    requires SameBut(a, b, start, gone) && i < |a.txs| && i in gone
    requires Advanced(a, i, cap).txs[i].phase != Committed
    ensures SameBut(Advanced(a, i, cap), b, start, gone)
  {
    hide NotOwned, Validate, Permits;
    var a' := Advanced(a, i, cap);
    if a'.faults != a.faults {
      NotOwnedPush(a.faults, a'.faults[|a.faults|], gone);
    }
  }

  lemma OtherAdvance(a: World, b: World, start: World, gone: set<nat>, i: nat, cap: Capability)
    requires SameBut(a, b, start, gone) && i < |a.txs| && i !in gone
    ensures SameBut(Advanced(a, i, cap), Advanced(b, i, cap), start, gone)
  {
    hide NotOwned, Validate, Permits, Overlay;
    var a' := Advanced(a, i, cap);
    if a'.faults != a.faults {
      NotOwnedPush(a.faults, a'.faults[|a.faults|], gone);
    }
  }

  /** For every schedule and every set of transactions that do not end committed, deleting all their
      advances leaves memory, the table, the commits and every other transaction as they were; the
      fault logs differ only by the deleted transactions' own records. */
  lemma {:induction false} Noninterference(w: World, caps: seq<Capability>, events: seq<Event>, gone: set<nat>)
    requires |caps| == |w.txs| && Names(events, |caps|) && w.faults == []
    requires forall i :: i in gone && i < |w.txs| ==> Run(w, caps, events).txs[i].phase != Committed
    ensures Names(Without(events, gone), |caps|)
    ensures SameBut(Run(w, caps, events), Run(w, caps, Without(events, gone)), w, gone)
    decreases events
  {
    hide Advanced, Validate, Permits;
    WithoutNames(events, gone, |caps|);
    if events != [] {
      var front, last := events[..|events| - 1], events[|events| - 1];
      var a := Run(w, caps, front);
      forall i | i in gone && i < |w.txs|
        ensures a.txs[i].phase != Committed
      {
        CommittedStays(a, caps, last, i);
      }
      Noninterference(w, caps, front, gone);
      var kept := Without(front, gone);
      var b := Run(w, caps, kept);
      if last.Advance? && last.tx in gone {
        GoneAdvance(a, b, w, gone, last.tx, caps[last.tx]);
      } else {
        assert (kept + [last])[..|kept|] == kept;
        if last.Advance? {
          OtherAdvance(a, b, w, gone, last.tx, caps[last.tx]);
        }
      }
    }
  }

  lemma CommittedStays(w: World, caps: seq<Capability>, ev: Event, i: nat)
    requires |caps| == |w.txs| && (ev.Advance? ==> ev.tx < |caps|) && i < |w.txs|
    ensures w.txs[i].phase == Committed ==> Step(w, caps, ev).txs[i].phase == Committed
  {
  }

  // ---- Commit order ----

  /** Memory with the payloads of the listed transactions written in order. */
  ghost function Overlaid(memory: seq<Byte>, txs: seq<Transaction>, caps: seq<Capability>, order: seq<nat>): seq<Byte>
    requires |txs| == |caps| && forall k :: 0 <= k < |order| ==> order[k] < |txs|
    decreases order
  {
    if order == [] then memory
    else
      var i := order[|order| - 1];
      Overlay(Overlaid(memory, txs, caps, order[..|order| - 1]), Address(caps[i], txs[i]), txs[i].data)
  }

  /** What a run keeps of the transactions' requests and of the objects' placement. */
  ghost predicate SameRequests(a: World, b: World) {
    && |a.txs| == |b.txs| && |a.table| == |b.table| && |a.memory| == |b.memory|
    && (forall i :: 0 <= i < |a.txs| ==> a.txs[i].data == b.txs[i].data && a.txs[i].offset == b.txs[i].offset)
    && (forall o :: 0 <= o < |a.table| ==> a.table[o].base == b.table[o].base && a.table[o].length == b.table[o].length)
  }

  ghost predicate CommitsAre(w: World) {
    && Distinct(w.commits)
    && (forall k :: 0 <= k < |w.commits| ==> w.commits[k] < |w.txs|)
    && (forall i :: 0 <= i < |w.txs| ==> (i in w.commits <==> w.txs[i].phase == Committed))
  }

  ghost predicate CommitsInside(w: World, caps: seq<Capability>) {
    |caps| == |w.txs| && forall i :: 0 <= i < |w.txs| && w.txs[i].phase == Committed ==> InsideObject(w.table, w.txs[i], caps[i])
  }

  ghost predicate Fresh(w: World, caps: seq<Capability>) {
    && |caps| == |w.txs| && w.faults == [] && w.commits == []
    && ShortPayloads(w.txs) && ObjectsInside(w.table, |w.memory|)
    && forall i :: 0 <= i < |w.txs| ==> w.txs[i].phase == Requested
  }

  ghost predicate CommitState(w: World, start: World, caps: seq<Capability>) {
    && AllAuthentic(w.txs, caps) && ShortPayloads(w.txs) && ObjectsInside(w.table, |start.memory|)
    && SameRequests(start, w) && CommitsAre(w) && CommitsInside(w, caps)
    && w.memory == Overlaid(start.memory, start.txs, caps, w.commits)
  }

  lemma {:induction false} CommitStates(w: World, caps: seq<Capability>, events: seq<Event>)
    requires Fresh(w, caps) && Names(events, |caps|)
    ensures CommitState(Run(w, caps, events), w, caps)
    decreases events
  {
    if events != [] {
      hide Advanced, CommitState;
      var front, last := events[..|events| - 1], events[|events| - 1];
      CommitStates(w, caps, front);
      CommitStep(Run(w, caps, front), w, caps, last);
    }
  }

  lemma RequestsStep(a: World, start: World, caps: seq<Capability>, ev: Event)
    requires |caps| == |a.txs| && (ev.Advance? ==> ev.tx < |caps|)
    requires SameRequests(start, a)
    ensures SameRequests(start, Step(a, caps, ev))
  {
  }

  lemma CommitsStep(a: World, caps: seq<Capability>, ev: Event)
    requires |caps| == |a.txs| && (ev.Advance? ==> ev.tx < |caps|)
    requires CommitsAre(a)
    ensures CommitsAre(Step(a, caps, ev))
  {
    hide Overlay, Permits, Validate;
    var b := Step(a, caps, ev);
    forall i | 0 <= i < |b.txs|
      ensures i in b.commits <==> b.txs[i].phase == Committed
    {
      assert i in a.commits <==> a.txs[i].phase == Committed;
    }
  }

  lemma InsideStep(a: World, caps: seq<Capability>, ev: Event)
    requires |caps| == |a.txs| && (ev.Advance? ==> ev.tx < |caps|)
    requires AllAuthentic(a.txs, caps) && ShortPayloads(a.txs) && CommitsInside(a, caps)
    ensures CommitsInside(Step(a, caps, ev), caps)
  {
    hide Overlay, Permits, Validate, AllAuthentic, ShortPayloads, Address;
    OneAuthentic(a, caps, ev);
    var b := Step(a, caps, ev);
    forall i | 0 <= i < |b.txs| && b.txs[i].phase == Committed
      ensures InsideObject(b.table, b.txs[i], caps[i])
    {
      SameAddress(a.txs[i], b.txs[i], caps[i]);
      if a.txs[i].phase != Committed {
        WritesInside(a.table, a.txs[i], caps[i]);
      }
    }
  }

  lemma SameAddress(a: Transaction, b: Transaction, cap: Capability)
    ensures a.offset == b.offset ==> Address(cap, a) == Address(cap, b)
  {
  }

  lemma MemoryStep(a: World, start: World, caps: seq<Capability>, ev: Event)
    requires |caps| == |start.txs| == |a.txs| && (ev.Advance? ==> ev.tx < |caps|)
    requires SameRequests(start, a) && CommitsAre(a)
    requires a.memory == Overlaid(start.memory, start.txs, caps, a.commits)
    ensures CommitsAre(Step(a, caps, ev))
    ensures var b := Step(a, caps, ev); b.memory == Overlaid(start.memory, start.txs, caps, b.commits)
  {
    hide Overlay, CommitsAre, Step;
    CommitsStep(a, caps, ev);
    StepWrites(a, caps, ev);
    var b := Step(a, caps, ev);
    if b.commits != a.commits {
      assert b.commits[..|a.commits|] == a.commits;
      SameAddress(start.txs[ev.tx], a.txs[ev.tx], caps[ev.tx]);
    }
  }

  /** A step writes memory exactly when it commits, and then the committed payload. */
  lemma StepWrites(a: World, caps: seq<Capability>, ev: Event)
    requires |caps| == |a.txs| && (ev.Advance? ==> ev.tx < |caps|)
    ensures var b := Step(a, caps, ev);
      || (b.commits == a.commits && b.memory == a.memory)
      || (&& ev.Advance? && b.commits == a.commits + [ev.tx]
          && b.memory == Overlay(a.memory, Address(caps[ev.tx], a.txs[ev.tx]), a.txs[ev.tx].data))
  {
    hide Overlay, Permits, Validate;
  }

  lemma CommitStep(a: World, start: World, caps: seq<Capability>, ev: Event)
    requires |caps| == |start.txs| == |a.txs| && (ev.Advance? ==> ev.tx < |caps|)
    requires CommitState(a, start, caps)
    ensures CommitState(Step(a, caps, ev), start, caps)
  {
    hide AllAuthentic, ShortPayloads, ObjectsInside, SameRequests, CommitsAre, CommitsInside, Overlaid, Step;
    StepKeeps(a, caps, ev, |start.memory|);
    RequestsStep(a, start, caps, ev);
    CommitsStep(a, caps, ev);
    InsideStep(a, caps, ev);
    MemoryStep(a, start, caps, ev);
  }

  /** For every schedule of new transactions, final memory is the initial memory overlaid, in commit
      order, with the payloads of exactly the committed transactions, each once and each inside its
      object's range and hence inside memory. */
  lemma CommitOrder(w: World, caps: seq<Capability>, events: seq<Event>)
    requires Fresh(w, caps) && Names(events, |caps|)
    ensures var r := Run(w, caps, events);
      && CommitsAre(r) && r.memory == Overlaid(w.memory, w.txs, caps, r.commits)
      && forall i :: 0 <= i < |w.txs| && i in r.commits ==>
           InsideObject(w.table, w.txs[i], caps[i]) && Address(caps[i], w.txs[i]) + |w.txs[i].data| <= |w.memory|
  {
    hide Run, Overlaid, AllAuthentic, Address;
    var r := Run(w, caps, events);
    CommitStates(w, caps, events);
    forall i | 0 <= i < |w.txs| && i in r.commits
      ensures InsideObject(w.table, w.txs[i], caps[i]) && Address(caps[i], w.txs[i]) + |w.txs[i].data| <= |w.memory|
    {
      SameAddress(w.txs[i], r.txs[i], caps[i]);
      assert r.txs[i].phase == Committed;
      assert w.table[caps[i].objectId].base == r.table[caps[i].objectId].base;
    }
  }

  // ---- Revocation ----

  ghost predicate Gone(table: Table, o: nat) {
    o < |table| && table[o].state == Freed
  }

  lemma {:induction false} RunConcat(w: World, caps: seq<Capability>, a: seq<Event>, b: seq<Event>)
    requires |caps| == |w.txs| && Names(a, |caps|) && Names(b, |caps|)
    ensures Names(a + b, |caps|) && Run(w, caps, a + b) == Run(Run(w, caps, a), caps, b)
    decreases b
  {
    hide Step;
    if b == [] {
      assert a + b == a;
    } else {
      RunConcat(w, caps, a, b[..|b| - 1]);
      assert (a + b)[..|a + b| - 1] == a + b[..|b| - 1];
    }
  }

  /** Nothing commits under a freed object. */
  lemma {:induction false} FreedBlocks(w: World, caps: seq<Capability>, events: seq<Event>, i: nat)
    requires |caps| == |w.txs| && Names(events, |caps|) && i < |caps|
    requires Gone(w.table, caps[i].objectId)
    ensures var r := Run(w, caps, events);
      Gone(r.table, caps[i].objectId) && (r.txs[i].phase == Committed <==> w.txs[i].phase == Committed)
    decreases events
  {
    if events != [] {
      FreedBlocks(w, caps, events[..|events| - 1], i);
    }
  }

  /** Revocation wins: a transaction is committed at the end exactly when it had committed before the
      revocation of its capability's object, whatever happened before and whatever follows. */
  lemma RevocationWins(w: World, caps: seq<Capability>, before: seq<Event>, o: U32, after: seq<Event>, i: nat)
    requires |caps| == |w.txs| && i < |caps| && Names(before, |caps|) && Names(after, |caps|)
    requires caps[i].objectId == o < |Run(w, caps, before).table|
    ensures Names(before + [Revoke(o)] + after, |caps|)
    ensures Run(w, caps, before + [Revoke(o)] + after).txs[i].phase == Committed
      <==> Run(w, caps, before).txs[i].phase == Committed
  {
    RunConcat(w, caps, before, [Revoke(o)]);
    RunConcat(w, caps, before + [Revoke(o)], after);
    var m := Run(w, caps, before);
    assert Run(m, caps, [Revoke(o)]) == Step(m, caps, Revoke(o)) by {
      assert [Revoke(o)][..0] == [];
    }
    FreedBlocks(Step(m, caps, Revoke(o)), caps, after, i);
  }

  /** How many times a transaction was advanced before its object's first revocation. */
  function AdvancesBeforeRevoke(events: seq<Event>, i: nat, o: U32): nat
    decreases events
  {
    if events == [] then 0
    else
      var front, last := events[..|events| - 1], events[|events| - 1];
      AdvancesBeforeRevoke(front, i, o) + if Revoke(o) !in front && last.Advance? && last.tx == i then 1 else 0
  }

  /** The phase an unhindered transaction has reached after some advances. */
  function PhaseAfter(n: nat, permitted: bool): Phase {
    if n == 0 then Requested
    else if !permitted then Faulted
    else if n == 1 then Authorized
    else if n == 2 then Prepared
    else Committed
  }

  ghost predicate Progress(r: World, tx: Transaction, i: nat, cap: Capability, events: seq<Event>) {
    var n := AdvancesBeforeRevoke(events, i, cap.objectId);
    var ok := Permits(cap, Address(cap, tx), Size(tx), WRITE);
    && i < |r.txs| && r.txs[i].offset == tx.offset && r.txs[i].data == tx.data
    && (Validate(r.table, cap) <==> Revoke(cap.objectId) !in events)
    && (Revoke(cap.objectId) in events ==> Gone(r.table, cap.objectId))
    && (Revoke(cap.objectId) !in events ==> r.txs[i].phase == PhaseAfter(n, ok))
    && (r.txs[i].phase == Committed <==> ok && n >= 3)
  }

  lemma {:induction false} RunProgress(w: World, caps: seq<Capability>, events: seq<Event>, i: nat)
    requires |caps| == |w.txs| && Names(events, |caps|) && i < |caps|
    requires w.txs[i].phase == Requested && Validate(w.table, caps[i])
    ensures Progress(Run(w, caps, events), w.txs[i], i, caps[i], events)
    decreases events
  {
    if events != [] {
      var front, last := events[..|events| - 1], events[|events| - 1];
      RunProgress(w, caps, front, i);
      ProgressStep(Run(w, caps, front), caps, w.txs[i], i, front, last);
      assert events == front + [last];
    }
  }

  lemma ProgressStep(r: World, caps: seq<Capability>, tx: Transaction, i: nat, front: seq<Event>, last: Event)
    requires |caps| == |r.txs| && i < |caps| && (last.Advance? ==> last.tx < |caps|)
    requires Progress(r, tx, i, caps[i], front)
    ensures Progress(Step(r, caps, last), tx, i, caps[i], front + [last])
  {
    hide Permits, Overlay;
    assert (front + [last])[..|front|] == front;
    SameAddress(tx, r.txs[i], caps[i]);
  }

  /** Exactly which transactions commit: a new transaction under a capability that is valid at the
      start commits exactly when the capability permits its write and the schedule advances it at
      least three times before revoking its object. The other transactions have no say. */
  lemma {:induction false} CommitsExactly(w: World, caps: seq<Capability>, events: seq<Event>, i: nat)
    requires |caps| == |w.txs| && Names(events, |caps|) && i < |caps|
    requires w.txs[i].phase == Requested && Validate(w.table, caps[i])
    ensures Run(w, caps, events).txs[i].phase == Committed <==>
      && Permits(caps[i], Address(caps[i], w.txs[i]), Size(w.txs[i]), WRITE)
      && AdvancesBeforeRevoke(events, i, caps[i].objectId) >= 3
  {
    RunProgress(w, caps, events, i);
  }

  /** Authorization compares the payload length truncated to 32 bits: an authorized write stays in
      the capability's range exactly when the payload is shorter than 2^32 bytes. */
  lemma TruncatedLength(cap: Capability, tx: Transaction)
    requires Permits(cap, Address(cap, tx), Size(tx), WRITE)
    ensures Address(cap, tx) + |tx.data| <= cap.base + cap.length <==> |tx.data| < TWO32
  {
  }

  /** What a run keeps of a transaction that has been authorized, and of one that has committed. */
  ghost predicate Checked(w: World, caps: seq<Capability>, i: nat) {
    && i < |w.txs| && i < |caps|
    && (w.txs[i].phase in {Authorized, Prepared, Committed} ==> Permits(caps[i], Address(caps[i], w.txs[i]), Size(w.txs[i]), WRITE))
    && (w.txs[i].phase == Committed ==> Authority.InObject(w.table, caps[i]))
  }

  lemma CheckedStep(w: World, caps: seq<Capability>, ev: Event, i: nat)
    requires |caps| == |w.txs| && (ev.Advance? ==> ev.tx < |caps|) && Checked(w, caps, i)
    ensures Checked(Step(w, caps, ev), caps, i)
  {
    hide Overlay, Permits;
    SameAddress(w.txs[i], Step(w, caps, ev).txs[i], caps[i]);
  }

  lemma {:induction false} RunChecked(w: World, caps: seq<Capability>, events: seq<Event>, i: nat)
    requires |caps| == |w.txs| && Names(events, |caps|) && i < |caps| && w.txs[i].phase == Requested
    ensures var r := Run(w, caps, events);
      && Checked(r, caps, i) && r.txs[i].data == w.txs[i].data && r.txs[i].offset == w.txs[i].offset
    decreases events
  {
    if events != [] {
      hide Checked, Overlay, Permits, Validate;
      RunChecked(w, caps, events[..|events| - 1], i);
      CheckedStep(Run(w, caps, events[..|events| - 1]), caps, events[|events| - 1], i);
    } else {
      hide Permits;
    }
  }

  /** Hence over every run: a new transaction that commits has written inside its object exactly when
      its payload is shorter than 2^32 bytes. */
  lemma CommitsInsideExactly(w: World, caps: seq<Capability>, events: seq<Event>, i: nat)
    requires |caps| == |w.txs| && Names(events, |caps|) && i < |caps| && w.txs[i].phase == Requested
    requires Run(w, caps, events).txs[i].phase == Committed
    ensures InsideObject(Run(w, caps, events).table, w.txs[i], caps[i]) <==> |w.txs[i].data| < TWO32
  {
    hide Run;
    RunChecked(w, caps, events, i);
    SameAddress(w.txs[i], Run(w, caps, events).txs[i], caps[i]);
    TruncatedLength(caps[i], w.txs[i]);
  }

  /** Three advances of a payload of 2^32 + 1 bytes under a one-byte capability, in a memory that holds
      it, commit and overwrite 2^32 bytes beyond the object. */
  lemma TruncatedLengthFails(data: seq<Byte>, memory: seq<Byte>)
    requires |data| == TWO32 + 1 && |memory| == TWO32 + 17
    ensures var cap, tx := Capability(0, 0, 16, 1, WRITE), Transaction(0, 0, 0, None, 0, data, Requested, None);
      var w := World([ObjectEntry(0, 16, 1, Active, "")], memory, [tx], [], []);
      var events: seq<Event> := [Advance(0), Advance(0), Advance(0)];
      && Names(events, 1) && InRange(w, [cap], events)
      && Run(w, [cap], events).txs[0].phase == Committed
      && !InsideObject(w.table, tx, cap) && Run(w, [cap], events).memory == Overlay(memory, 16, data)
  {
    assert WRITE & WRITE == WRITE;
    var cap, tx := Capability(0, 0, 16, 1, WRITE), Transaction(0, 0, 0, None, 0, data, Requested, None);
    var w := World([ObjectEntry(0, 16, 1, Active, "")], memory, [tx], [], []);
    assert Permits(cap, Address(cap, tx), Size(tx), WRITE);
    hide Permits;
    var events: seq<Event> := [Advance(0), Advance(0), Advance(0)];
    var w1 := w.(txs := [tx.(authGeneration := Some(0), phase := Authorized)]);
    var w2 := w1.(txs := [w1.txs[0].(phase := Prepared)]);
    assert Run(w, [cap], []) == w;
    assert events[..1][..0] == [] && events[..2][..1] == events[..1] && events[..3] == events && events[..3][..2] == events[..2];
    assert Run(w, [cap], events[..1]) == w1;
    assert Run(w, [cap], events[..2]) == w2;
    assert Run(w, [cap], events) == Step(w2, [cap], Advance(0));
  }
}
