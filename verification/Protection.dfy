/** Capabilities over named memory objects with generation counters. */

module Protection {
  import opened Words

  const TWO32: int := 0x1_0000_0000

  type U32 = x: int | 0 <= x < TWO32

  datatype ObjectState = Active | Freed

  datatype ObjectEntry = ObjectEntry(generation: U32, base: U32, length: U32, state: ObjectState, name: string)

  /** Permission bits: 1 read, 2 write, 4 execute. */
  type Perm = bv8

  const WRITE: Perm := 0x02

  predicate Contains(perms: Perm, other: Perm) {
    perms & other == other
  }

  datatype Capability = Capability(objectId: U32, generation: U32, base: U32, length: U32, perms: Perm)

  type Table = seq<ObjectEntry>

  /** A real request has a width and an operation, and lies inside the capability's range. */
  predicate Permits(cap: Capability, addr: U32, size: U32, op: Perm) {
    && size != 0 && op != 0
    && Contains(cap.perms, op)
    && addr >= cap.base
    && size <= cap.length
    && addr - cap.base <= cap.length - size
  }

  function MakeCap(table: Table, id: U32, perms: Perm): Option<Capability> {
    if id < |table| && table[id].state == Active
    then Some(Capability(id, table[id].generation, table[id].base, table[id].length, perms))
    else None
  }

  function DeriveCap(table: Table, parent: Capability, base: U32, length: U32, perms: Perm): Option<Capability> {
    if parent.objectId >= |table| || table[parent.objectId].state != Active then None
    else if parent.generation != table[parent.objectId].generation then None
    else if !Contains(parent.perms, perms) then None
    else if base < parent.base || length > parent.length then None
    else if base - parent.base > parent.length - length then None
    else Some(Capability(parent.objectId, parent.generation, base, length, perms))
  }

  predicate Validate(table: Table, cap: Capability) {
    && cap.objectId < |table|
    && var e := table[cap.objectId];
    && e.state == Active
    && cap.generation == e.generation
    && cap.base >= e.base
    && cap.length <= e.length
    && cap.base - e.base <= e.length - cap.length
  }

  /** Bump the generation (it wraps) and mark the object freed; an unknown object is ignored. */
  function Revoked(table: Table, id: U32): Table {
    if id < |table|
    then table[id := table[id].(generation := (table[id].generation + 1) % TWO32, state := Freed)]
    else table
  }

  function Allocated(table: Table, name: string, base: U32, length: U32): Table {
    table + [ObjectEntry(0, base, length, Active, name)]
  }

  class ObjectTable {
    var entries: Table

    constructor ()
      ensures entries == []
    {
      entries := [];
    }

    method Alloc(name: string, base: U32, length: U32) returns (id: U32)
      modifies this
      ensures entries == Allocated(old(entries), name, base, length)
      ensures id == |old(entries)| % TWO32
      ensures |old(entries)| < TWO32 ==> forall cap: Capability :: cap.objectId == id ==> !Validate(old(entries), cap)
    {
      id := |entries| % TWO32;
      entries := entries + [ObjectEntry(0, base, length, Active, name)];
    }

    method Revoke(id: U32)
      modifies this
      ensures entries == Revoked(old(entries), id)
      ensures forall cap: Capability :: cap.objectId == id ==> !Validate(entries, cap)
    {
      if id < |entries| {
        var e := entries[id];
        entries := entries[id := e.(generation := (e.generation + 1) % TWO32, state := Freed)];
      }
    }
  }
}

/** Capability derivation over whole runs of allocation, minting, narrowing and revocation. */
module Authority {
  import opened Words
  import opened Protection

  datatype Event =
    | Alloc(name: string, base: U32, length: U32)
    | Revoke(id: U32)
    | Make(id: U32, perms: Perm)
    | Derive(parent: nat, base: U32, length: U32, perms: Perm)

  /** Every capability ever minted, with the position of the MakeCap at the root of its chain. */
  datatype Ledger = Ledger(table: Table, caps: seq<Capability>, roots: seq<nat>)

  function Mint(r: Ledger, cap: Option<Capability>, root: nat): Ledger {
    if cap.None? then r else r.(caps := r.caps + [cap.value], roots := r.roots + [root])
  }

  function Step(r: Ledger, ev: Event): Ledger
    requires |r.caps| == |r.roots|
  {
    match ev
    case Alloc(name, base, length) => r.(table := Allocated(r.table, name, base, length))
    case Revoke(id) => r.(table := Revoked(r.table, id))
    case Make(id, perms) => Mint(r, MakeCap(r.table, id, perms), |r.caps|)
    case Derive(p, base, length, perms) =>
      if p < |r.caps| then Mint(r, DeriveCap(r.table, r.caps[p], base, length, perms), r.roots[p]) else r
  }

  function After(r: Ledger, events: seq<Event>): (r': Ledger)
    requires |r.caps| == |r.roots|
    ensures |r'.caps| == |r'.roots|
    decreases events
  {
    if events == [] then r else After(Step(r, events[0]), events[1..])
  }

  const START := Ledger([], [], [])

  predicate Within(a: Capability, b: Capability) {
    && a.objectId == b.objectId && a.generation == b.generation
    && Contains(b.perms, a.perms)
    && a.base >= b.base && a.length <= b.length && a.base - b.base <= b.length - a.length
  }

  predicate InObject(table: Table, cap: Capability) {
    && cap.objectId < |table|
    && var e := table[cap.objectId];
    && cap.base >= e.base && cap.length <= e.length && cap.base - e.base <= e.length - cap.length
  }

  ghost predicate Narrowed(r: Ledger) {
    && |r.caps| == |r.roots|
    && forall i :: 0 <= i < |r.caps| ==>
      && r.roots[i] <= i && r.roots[r.roots[i]] == r.roots[i]
      && Within(r.caps[i], r.caps[r.roots[i]])
      && InObject(r.table, r.caps[i])
  }

  lemma ContainsTrans(a: Perm, b: Perm, c: Perm)
    requires Contains(a, b) && Contains(b, c)
    ensures Contains(a, c)
  {
  }

  lemma StepNarrows(r: Ledger, ev: Event)
    requires Narrowed(r)
    ensures Narrowed(Step(r, ev))
  {
    var r' := Step(r, ev);
    forall i | 0 <= i < |r'.caps|
      ensures r'.roots[i] <= i && r'.roots[r'.roots[i]] == r'.roots[i]
      ensures Within(r'.caps[i], r'.caps[r'.roots[i]]) && InObject(r'.table, r'.caps[i])
    {
      if i < |r.caps| {
        assert r'.caps[i] == r.caps[i] && r'.roots[i] == r.roots[i];
      } else if ev.Derive? {
        var parent := r.caps[ev.parent];
        ContainsTrans(r.caps[r.roots[ev.parent]].perms, parent.perms, r'.caps[i].perms);
      }
    }
  }

  lemma {:induction false} RunNarrows(r: Ledger, events: seq<Event>)
    requires Narrowed(r)
    ensures Narrowed(After(r, events))
    decreases events
  {
    if events != [] {
      StepNarrows(r, events[0]);
      RunNarrows(Step(r, events[0]), events[1..]);
    }
  }

  /** Whatever the interleaving, a capability permits only what the root of its chain permits,
      and only addresses of its object. */
  lemma AuthorityOnlyNarrows(events: seq<Event>, i: nat, addr: U32, size: U32, op: Perm)
    requires var r := After(START, events); i < |r.caps| && Permits(r.caps[i], addr, size, op)
    ensures var r := After(START, events);
      && r.roots[i] < |r.caps| && Permits(r.caps[r.roots[i]], addr, size, op)
      && r.caps[i].objectId < |r.table|
      && var e := r.table[r.caps[i].objectId];
         e.base <= addr && addr + size <= e.base + e.length
  {
    RunNarrows(START, events);
    var r := After(START, events);
    ContainsTrans(r.caps[r.roots[i]].perms, r.caps[i].perms, op);
  }

  lemma {:induction false} FreedForever(r: Ledger, events: seq<Event>, id: nat)
    requires |r.caps| == |r.roots| && id < |r.table| && r.table[id].state == Freed
    ensures var t := After(r, events).table; id < |t| && t[id].state == Freed
    decreases events
  {
    if events != [] {
      FreedForever(Step(r, events[0]), events[1..], id);
    }
  }

  lemma {:induction false} AfterConcat(r: Ledger, a: seq<Event>, b: seq<Event>)
    requires |r.caps| == |r.roots|
    ensures After(r, a + b) == After(After(r, a), b)
    decreases a
  {
    if a == [] {
      assert a + b == b;
    } else {
      assert (a + b)[1..] == a[1..] + b;
      AfterConcat(Step(r, a[0]), a[1..], b);
    }
  }

  /** Once an existing object is revoked, no capability of its tree, old or new, validates again,
      even when its generation counter wraps around. */
  lemma RevokedForever(before: seq<Event>, id: U32, after: seq<Event>, i: nat)
    requires id < |After(START, before).table|
    requires var r := After(START, before + [Revoke(id)] + after); i < |r.caps| && r.caps[i].objectId == id
    ensures var r := After(START, before + [Revoke(id)] + after); !Validate(r.table, r.caps[i])
  {
    var r := After(START, before);
    AfterConcat(START, before + [Revoke(id)], after);
    AfterConcat(START, before, [Revoke(id)]);
    assert After(r, [Revoke(id)]) == Step(r, Revoke(id)) by {
      assert [Revoke(id)][1..] == [];
    }
    FreedForever(Step(r, Revoke(id)), after, id);
  }
}
