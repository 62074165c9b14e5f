/** The block controller's laws over every run of submissions, ticks and consumptions. */

module BlockLaws {
  import opened Words
  import opened BlockModel

  /** An accepted request and the number of ticks before its acceptance. */
  datatype Ticket = Ticket(handle: Handle, request: Request, at: nat)

  /** The tick that completed a request, its transaction, and the completion recorded. */
  datatype Finish = Finish(at: nat, tx: nat, completion: Completion)

  /** The controller with the history of its run: tickets in order of acceptance, the ticket last
      accepted into each slot, tickets in order of completion with their details, and the
      completions handed out. */
  datatype World = World(
    s: State, now: nat, tickets: seq<Ticket>, holder: Generations, finished: seq<nat>,
    details: map<nat, Finish>, consumed: seq<Completion>)

  datatype Env = Env(storage: seq<seq<Byte>>, latency: nat)

  function Due(env: Env): nat {
    Latency(env.latency)
  }

  const START := World(State([Free, Free], [0, 0], [], 0, [], {}), 0, [], [0, 0], [], map[], [])

  // ---- Steps ----

  function SubmitStep(w: World, env: Env, r: Request, grant: Option<nat>): World {
    var (result, s) := Submit(w.s, |env.storage|, env.latency, r, grant);
    if result.Accepted? && result.handle.slot < NUM_SLOTS
    then w.(s := s, tickets := w.tickets + [Ticket(result.handle, r, w.now)],
            holder := w.holder[result.handle.slot := |w.tickets|])
    else w.(s := s)
  }

  function WaitStep(w: World, env: Env, i: nat): World
    requires Sound(w.s, |env.storage|) && i < NUM_SLOTS
  {
    w.(s := WaitSlot(w.s, i))
  }

  function StartStep(w: World, env: Env, i: nat, a: Answers): World
    requires Sound(w.s, |env.storage|) && i < NUM_SLOTS
  {
    w.(s := StartSlot(w.s, i, env.storage, a[i].start))
  }

  function AdvanceStep(w: World, env: Env, i: nat, a: Answers): World
    requires Sound(w.s, |env.storage|) && i < NUM_SLOTS
  {
    var s := AdvanceSlot(w.s, i, a[i].advance);
    if w.s.slots[i].DmaInFlight? && s.slots[i].Completed?
    then w.(s := s, finished := w.finished + [w.holder[i]],
            details := w.details[w.holder[i] := Finish(w.now + 1, w.s.slots[i].tx, s.slots[i].completion)])
    else w.(s := s)
  }

  function ConsumeStep(w: World, env: Env): World
    requires Sound(w.s, |env.storage|)
  {
    var (c, s) := Consume(w.s);
    if c.Some? then w.(s := s, consumed := w.consumed + [c.value]) else w.(s := s)
  }

  // ---- The invariant ----

  /** Where a transaction in flight stands, by the ticks since acceptance and the progress of the
      current tick (0 before it, then past waiting, starting and advancing). */
  predicate OnTime(state: TxState, e: nat, due: nat, stage: nat) {
    if stage < 2 then (state.Authorized? && e == due) || (state.Prepared? && e == due + 1)
    else if stage == 2 then
      (state.Authorized? && e == due) || (state.Prepared? && e == due + 1) || ((state.Requested? || state.Faulted?) && e + 1 == due)
    else (state.Authorized? && e + 1 == due) || (state.Prepared? && e == due)
  }

  predicate Carries(tx: Tx, r: Request, env: Env) {
    r.block < |env.storage| && tx.target == r.target && tx.offset == r.offset && tx.data == env.storage[r.block]
  }

  predicate SlotInv(w: World, env: Env, i: nat, stage: nat)
    requires i < NUM_SLOTS
  {
    var slot, t := w.s.slots[i], w.holder[i];
    slot.Free? ||
    (&& t < |w.tickets| && w.tickets[t].at <= w.now && w.tickets[t].handle == Handle(i, w.s.generations[i])
     && var r, e := w.tickets[t].request, w.now - w.tickets[t].at;
     match slot
     case Waiting(q, n, _) =>
       q == r && n >= 1 && n + e + (if stage == 0 then 0 else 1) == Due(env) && r.block < |env.storage| && t !in w.finished
     case DmaReady(q, _) => q == r && stage == 1 && e + 1 == Due(env) && r.block < |env.storage| && t !in w.finished
     case DmaInFlight(q, d, tx) =>
       && q == r && tx < |w.s.txs| && w.s.txs[tx].domain == d && Carries(w.s.txs[tx], r, env)
       && OnTime(w.s.txs[tx].state, e, Due(env), stage) && t !in w.finished
     case Completed(c) => t in w.details && w.details[t].completion == c)
  }

  /** Two slots in flight have different transactions. */
  predicate TxsApart(s: State) {
    s.slots[0].DmaInFlight? && s.slots[1].DmaInFlight? ==> s.slots[0].tx != s.slots[1].tx
  }

  function DomainOf(slot: Slot): set<nat> {
    if Busy(slot) then {slot.domain} else {}
  }

  /** The live DMA domains are those of the busy slots. */
  predicate DomainsInv(s: State) {
    s.domains == DomainOf(s.slots[0]) + DomainOf(s.slots[1]) && DomainOf(s.slots[0]) !! DomainOf(s.slots[1])
  }

  /** The queue names each completed slot once, in completion order after what was consumed. */
  ghost predicate QueueInv(w: World) {
    && Distinct(w.s.order)
    && (forall q :: 0 <= q < |w.s.order| ==> w.s.order[q] < NUM_SLOTS && w.s.slots[w.s.order[q]].Completed?)
    && (forall i :: 0 <= i < NUM_SLOTS && w.s.slots[i].Completed? ==> i in w.s.order)
    && |w.finished| == |w.consumed| + |w.s.order|
    && (forall q :: 0 <= q < |w.s.order| ==> w.finished[|w.consumed| + q] == w.holder[w.s.order[q]])
    && w.s.eventSequence == |w.finished|
    && |w.consumed| == w.s.generations[0] + w.s.generations[1]
  }

  predicate FinishOk(w: World, env: Env, t: nat) {
    && t < |w.tickets| && t in w.details
    && var f, k := w.details[t], w.tickets[t];
    && f.tx < |w.s.txs| && Terminal(w.s.txs[f.tx].state) && Carries(w.s.txs[f.tx], k.request, env)
    && f.completion == CompletionFor(k.request, k.handle, w.s.txs[f.tx].state)
    && k.at + Due(env) <= f.at <= k.at + Due(env) + 2
  }

  /** What was handed out is what was recorded, in completion order. */
  predicate ConsumedOk(w: World, k: nat)
    requires k < |w.consumed|
  {
    k < |w.finished| && w.finished[k] in w.details && w.consumed[k] == w.details[w.finished[k]].completion
  }

  ghost predicate FinishedInv(w: World, env: Env) {
    && Distinct(w.finished)
    && (forall k :: 0 <= k < |w.finished| ==> FinishOk(w, env, w.finished[k]))
    && (forall k :: 0 <= k < |w.consumed| ==> ConsumedOk(w, k))
  }

  predicate HandleOk(w: World, t: nat)
    requires t < |w.tickets|
  {
    var h := w.tickets[t].handle;
    && h.slot < NUM_SLOTS && h.generation <= w.s.generations[h.slot]
    && (h.generation == w.s.generations[h.slot] ==> !w.s.slots[h.slot].Free? && w.holder[h.slot] == t)
    && (t in w.finished || (h.generation == w.s.generations[h.slot] && Busy(w.s.slots[h.slot])))
  }

  ghost predicate TicketsInv(w: World) {
    && (forall t :: 0 <= t < |w.tickets| ==> HandleOk(w, t))
    && (forall j, k :: 0 <= j < k < |w.tickets| ==> w.tickets[j].handle != w.tickets[k].handle)
  }

  /** The parts of the invariant that no progress of the current tick affects. */
  ghost predicate Ledger(w: World, env: Env) {
    TxsApart(w.s) && DomainsInv(w.s) && QueueInv(w) && FinishedInv(w, env) && TicketsInv(w)
  }

  ghost predicate Inv(w: World, env: Env, stages: Generations) {
    SlotInv(w, env, 0, stages[0]) && SlotInv(w, env, 1, stages[1]) && Ledger(w, env)
  }

  lemma InvSound(w: World, env: Env, stages: Generations)
    requires Inv(w, env, stages)
    ensures Sound(w.s, |env.storage|)
  {
    assert SlotInv(w, env, 0, stages[0]) && SlotInv(w, env, 1, stages[1]);
  }

  /** A transaction list that only grows and moves transactions that are not terminal. */
  predicate TxsGrow(a: seq<Tx>, b: seq<Tx>) {
    |a| <= |b| && forall k :: 0 <= k < |a| ==> b[k] == a[k] || (!Terminal(a[k].state) && b[k] == a[k].(state := b[k].state))
  }

  /** A busy slot that stays busy, in the same domain, changes nothing in the ledger. */
  ghost predicate BusyStep(w: World, v: World, i: nat) {
    && i < NUM_SLOTS && Busy(w.s.slots[i]) && Busy(v.s.slots[i]) && w.s.slots[i].domain == v.s.slots[i].domain
    && TxsGrow(w.s.txs, v.s.txs)
    && v == w.(s := w.s.(slots := w.s.slots[i := v.s.slots[i]], txs := v.s.txs))
  }

  lemma StillBusy(w: World, v: World, env: Env, i: nat)
    requires Ledger(w, env) && BusyStep(w, v, i) && TxsApart(v.s)
    ensures Ledger(v, env)
  {
    hide BusyStep, QueueInv, FinishedInv, TicketsInv, DomainsInv;
    BusyQueue(w, v, i);
    BusyFinished(w, v, env, i);
    BusyTickets(w, v, i);
  }

  lemma BusyQueue(w: World, v: World, i: nat)
    requires QueueInv(w) && DomainsInv(w.s) && BusyStep(w, v, i)
    ensures QueueInv(v) && DomainsInv(v.s)
  {
    hide TxsGrow;
  }

  lemma BusyFinished(w: World, v: World, env: Env, i: nat)
    requires FinishedInv(w, env) && BusyStep(w, v, i)
    ensures FinishedInv(v, env)
  {
    hide Carries;
    forall k | 0 <= k < |w.finished|
      ensures FinishOk(v, env, v.finished[k])
    {
      assert FinishOk(w, env, w.finished[k]);
      StillCarries(w, v, env, w.tickets[w.finished[k]].request, w.details[w.finished[k]].tx);
    }
    forall k | 0 <= k < |w.consumed|
      ensures ConsumedOk(v, k)
    {
      assert ConsumedOk(w, k);
    }
  }

  lemma StillCarries(w: World, v: World, env: Env, r: Request, k: nat)
    requires TxsGrow(w.s.txs, v.s.txs) && k < |w.s.txs| && Terminal(w.s.txs[k].state) && Carries(w.s.txs[k], r, env)
    ensures k < |v.s.txs| && v.s.txs[k] == w.s.txs[k]
  {
  }

  lemma BusyTickets(w: World, v: World, i: nat)
    requires TicketsInv(w) && BusyStep(w, v, i)
    ensures TicketsInv(v)
  {
    hide TxsGrow;
    forall t | 0 <= t < |w.tickets|
      ensures HandleOk(v, t)
    {
      assert HandleOk(w, t);
    }
  }

  lemma OtherSlot(w: World, v: World, env: Env, i: nat, stage: nat)
    requires i < NUM_SLOTS && SlotInv(w, env, i, stage)
    requires v.s.slots[i] == w.s.slots[i] && v.s.generations[i] == w.s.generations[i] && v.holder[i] == w.holder[i]
    requires v.now == w.now && |v.tickets| >= |w.tickets| && v.tickets[..|w.tickets|] == w.tickets
    requires v.s.slots[i].DmaInFlight? && v.s.slots[i].tx < |w.s.txs| ==>
      v.s.slots[i].tx < |v.s.txs| && v.s.txs[v.s.slots[i].tx] == w.s.txs[v.s.slots[i].tx]
    requires !w.s.slots[i].Free? && w.holder[i] !in w.finished ==> v.holder[i] !in v.finished
    requires !w.s.slots[i].Free? && w.holder[i] in w.details ==> v.holder[i] in v.details && v.details[v.holder[i]] == w.details[v.holder[i]]
    ensures SlotInv(v, env, i, stage)
  {
    hide Carries, OnTime;
    if w.holder[i] < |w.tickets| {
      assert v.tickets[w.holder[i]] == v.tickets[..|w.tickets|][w.holder[i]];
    }
  }

  lemma WaitKeeps(w: World, env: Env, stages: Generations, i: nat)
    requires Inv(w, env, stages) && i < NUM_SLOTS && stages[i] == 0
    ensures Sound(w.s, |env.storage|) && Inv(WaitStep(w, env, i), env, stages[i := 1])
  {
    hide Ledger, Sound;
    InvSound(w, env, stages);
    var v := WaitStep(w, env, i);
    OtherSlot(w, v, env, 1 - i, stages[1 - i]);
    if w.s.slots[i].Waiting? {
      StillApart(w, v, env);
      StillBusy(w, v, env, i);
    }
  }

  lemma StillApart(w: World, v: World, env: Env)
    requires Ledger(w, env)
    requires forall i :: 0 <= i < NUM_SLOTS && v.s.slots[i].DmaInFlight? ==> v.s.slots[i] == w.s.slots[i]
    ensures TxsApart(v.s)
  {
    assert v.s.slots[0].DmaInFlight? ==> v.s.slots[0] == w.s.slots[0];
    assert v.s.slots[1].DmaInFlight? ==> v.s.slots[1] == w.s.slots[1];
  }

  lemma StartKeeps(w: World, env: Env, stages: Generations, i: nat, a: Answers)
    requires Inv(w, env, stages) && i < NUM_SLOTS && stages[i] == 1
    ensures Sound(w.s, |env.storage|) && Inv(StartStep(w, env, i, a), env, stages[i := 2])
  {
    hide Ledger, Sound;
    InvSound(w, env, stages);
    var v := StartStep(w, env, i, a);
    assert SlotInv(w, env, 1 - i, stages[1 - i]);
    OtherSlot(w, v, env, 1 - i, stages[1 - i]);
    if w.s.slots[i].DmaReady? {
      StillBusy(w, v, env, i);
    }
  }

  lemma AdvanceKeeps(w: World, env: Env, stages: Generations, i: nat, a: Answers)
    requires Inv(w, env, stages) && i < NUM_SLOTS && stages[i] == 2
    ensures Sound(w.s, |env.storage|) && Inv(AdvanceStep(w, env, i, a), env, stages[i := 3])
  {
    hide Ledger, SlotInv, Sound, AdvanceStep;
    InvSound(w, env, stages);
    if w.s.slots[i].DmaInFlight? {
      AdvanceOther(w, env, stages, i, a);
      AdvanceOwn(w, env, stages, i, a);
      if AdvanceStep(w, env, i, a).s.slots[i].Completed? {
        AdvanceCompletes(w, env, stages, i, a);
      } else {
        AdvanceContinues(w, env, stages, i, a);
      }
    } else {
      AdvanceIdle(w, env, stages, i, a);
    }
  }

  lemma AdvanceIdle(w: World, env: Env, stages: Generations, i: nat, a: Answers)
    requires Inv(w, env, stages) && i < NUM_SLOTS && stages[i] == 2 && Sound(w.s, |env.storage|)
    requires !w.s.slots[i].DmaInFlight?
    ensures AdvanceStep(w, env, i, a) == w && SlotInv(w, env, i, 3)
  {
    hide Ledger;
    assert SlotInv(w, env, i, 2);
  }

  lemma AdvanceContinues(w: World, env: Env, stages: Generations, i: nat, a: Answers)
    requires Inv(w, env, stages) && i < NUM_SLOTS && Sound(w.s, |env.storage|)
    requires w.s.slots[i].DmaInFlight? && !AdvanceStep(w, env, i, a).s.slots[i].Completed?
    ensures Ledger(AdvanceStep(w, env, i, a), env)
  {
    hide SlotInv, DomainsInv, QueueInv, FinishedInv, TicketsInv;
    assert TxsApart(w.s);
    StillBusy(w, AdvanceStep(w, env, i, a), env, i);
  }

  lemma AdvanceOther(w: World, env: Env, stages: Generations, i: nat, a: Answers)
    requires Inv(w, env, stages) && i < NUM_SLOTS && Sound(w.s, |env.storage|) && w.s.slots[i].DmaInFlight?
    ensures SlotInv(AdvanceStep(w, env, i, a), env, 1 - i, stages[1 - i])
  {
    hide Carries, OnTime, Distinct, DomainsInv;
    assert TxsApart(w.s);
    assert HoldersApart(w, env, stages);
    OtherSlot(w, AdvanceStep(w, env, i, a), env, 1 - i, stages[1 - i]);
  }

  /** Two occupied slots hold different tickets, by their handles. */
  predicate HoldersApart(w: World, env: Env, stages: Generations) {
    SlotInv(w, env, 0, stages[0]) && SlotInv(w, env, 1, stages[1]) && !w.s.slots[0].Free? && !w.s.slots[1].Free? ==>
      w.holder[0] != w.holder[1]
  }

  lemma AdvanceOwn(w: World, env: Env, stages: Generations, i: nat, a: Answers)
    requires Inv(w, env, stages) && i < NUM_SLOTS && stages[i] == 2 && Sound(w.s, |env.storage|)
    requires w.s.slots[i].DmaInFlight?
    ensures SlotInv(AdvanceStep(w, env, i, a), env, i, 3)
  {
    hide Ledger;
  }

  lemma AdvanceCompletes(w: World, env: Env, stages: Generations, i: nat, a: Answers)
    requires Inv(w, env, stages) && i < NUM_SLOTS && stages[i] == 2 && Sound(w.s, |env.storage|)
    requires w.s.slots[i].DmaInFlight? && AdvanceStep(w, env, i, a).s.slots[i].Completed?
    ensures Ledger(AdvanceStep(w, env, i, a), env)
  {
    hide QueueInv, FinishedInv, TicketsInv;
    AdvanceQueue(w, env, stages, i, a);
    AdvanceFinished(w, env, stages, i, a);
    AdvanceTickets(w, env, stages, i, a);
    assert TxsApart(w.s) && DomainsInv(w.s);
  }

  lemma AdvanceQueue(w: World, env: Env, stages: Generations, i: nat, a: Answers)
    requires Inv(w, env, stages) && i < NUM_SLOTS && Sound(w.s, |env.storage|)
    requires w.s.slots[i].DmaInFlight? && AdvanceStep(w, env, i, a).s.slots[i].Completed?
    ensures QueueInv(AdvanceStep(w, env, i, a))
  {
    hide FinishedInv, TicketsInv, SlotInv, DomainsInv, Carries;
    assert QueueInv(w);
    var v := AdvanceStep(w, env, i, a);
    forall j | 0 <= j < NUM_SLOTS && v.s.slots[j].Completed?
      ensures j in v.s.order
    {
      assert j != i ==> w.s.slots[j].Completed?;
    }
  }

  lemma AdvanceFinished(w: World, env: Env, stages: Generations, i: nat, a: Answers)
    requires Inv(w, env, stages) && i < NUM_SLOTS && stages[i] == 2 && Sound(w.s, |env.storage|)
    requires w.s.slots[i].DmaInFlight? && AdvanceStep(w, env, i, a).s.slots[i].Completed?
    ensures FinishedInv(AdvanceStep(w, env, i, a), env)
  {
    hide QueueInv, TicketsInv, DomainsInv;
    var v, t := AdvanceStep(w, env, i, a), w.holder[i];
    assert SlotInv(w, env, i, 2);
    assert FinishOk(v, env, t);
    forall k | 0 <= k < |v.finished|
      ensures FinishOk(v, env, v.finished[k])
    {
      if k < |w.finished| {
        assert FinishOk(w, env, w.finished[k]);
        assert w.finished[k] != t;
      }
    }
    forall k | 0 <= k < |v.consumed|
      ensures ConsumedOk(v, k)
    {
      assert ConsumedOk(w, k);
      assert w.finished[k] != t;
    }
  }

  lemma AdvanceTickets(w: World, env: Env, stages: Generations, i: nat, a: Answers)
    requires Inv(w, env, stages) && i < NUM_SLOTS && Sound(w.s, |env.storage|)
    requires w.s.slots[i].DmaInFlight? && AdvanceStep(w, env, i, a).s.slots[i].Completed?
    ensures TicketsInv(AdvanceStep(w, env, i, a))
  {
    hide QueueInv, FinishedInv, DomainsInv, Carries, OnTime;
    var v := AdvanceStep(w, env, i, a);
    assert SlotInv(w, env, i, stages[i]);
    forall t | 0 <= t < |v.tickets|
      ensures HandleOk(v, t)
    {
      assert HandleOk(w, t);
    }
  }

  // ---- Submission and consumption ----

  lemma SubmitKeeps(w: World, env: Env, r: Request, grant: Option<nat>)
    requires Inv(w, env, [0, 0]) && (grant.Some? ==> grant.value !in w.s.domains)
    ensures Inv(SubmitStep(w, env, r, grant), env, [0, 0])
  {
    hide FinishedInv, TicketsInv, SlotInv, QueueInv, TxsApart, DomainsInv;
    if Accepts(w, env, r, grant) {
      SubmitSlots(w, env, r, grant);
      SubmitFinished(w, env, r, grant);
      SubmitTickets(w, env, r, grant);
      SubmitQueue(w, env, r, grant);
      SubmitDomains(w, env, r, grant);
    } else {
      assert SubmitStep(w, env, r, grant) == w;
    }
  }

  lemma SubmitQueue(w: World, env: Env, r: Request, grant: Option<nat>)
    requires Inv(w, env, [0, 0]) && Accepts(w, env, r, grant)
    ensures QueueInv(SubmitStep(w, env, r, grant))
  {
    hide FinishedInv, TicketsInv, SlotInv, TxsApart, DomainsInv;
    assert QueueInv(w);
  }

  lemma SubmitDomains(w: World, env: Env, r: Request, grant: Option<nat>)
    requires Inv(w, env, [0, 0]) && Accepts(w, env, r, grant) && grant.value !in w.s.domains
    ensures TxsApart(SubmitStep(w, env, r, grant).s) && DomainsInv(SubmitStep(w, env, r, grant).s)
  {
    hide FinishedInv, TicketsInv, SlotInv, QueueInv;
    assert TxsApart(w.s) && DomainsInv(w.s);
  }

  predicate Accepts(w: World, env: Env, r: Request, grant: Option<nat>) {
    Submit(w.s, |env.storage|, env.latency, r, grant).0.Accepted?
  }

  lemma SubmitSlots(w: World, env: Env, r: Request, grant: Option<nat>)
    requires Inv(w, env, [0, 0]) && Accepts(w, env, r, grant)
    ensures SlotInv(SubmitStep(w, env, r, grant), env, 0, 0) && SlotInv(SubmitStep(w, env, r, grant), env, 1, 0)
  {
    hide QueueInv, TicketsInv, DomainsInv, Carries, OnTime;
    var v, i := SubmitStep(w, env, r, grant), FreeSlot(w.s.slots).value;
    forall k | 0 <= k < |w.finished|
      ensures w.finished[k] < |w.tickets|
    {
      assert FinishOk(w, env, w.finished[k]);
    }
    hide FinishedInv;
    OtherSlot(w, v, env, 1 - i, 0);
  }

  lemma SubmitFinished(w: World, env: Env, r: Request, grant: Option<nat>)
    requires Inv(w, env, [0, 0]) && Accepts(w, env, r, grant)
    ensures FinishedInv(SubmitStep(w, env, r, grant), env)
  {
    hide QueueInv, TicketsInv, DomainsInv, Carries, SlotInv;
    var v := SubmitStep(w, env, r, grant);
    forall k | 0 <= k < |v.consumed|
      ensures ConsumedOk(v, k)
    {
      assert ConsumedOk(w, k);
    }
    forall k | 0 <= k < |v.finished|
      ensures FinishOk(v, env, v.finished[k])
    {
      assert FinishOk(w, env, w.finished[k]);
    }
  }

  lemma SubmitTickets(w: World, env: Env, r: Request, grant: Option<nat>)
    requires Inv(w, env, [0, 0]) && Accepts(w, env, r, grant)
    ensures TicketsInv(SubmitStep(w, env, r, grant))
  {
    hide QueueInv, DomainsInv, FinishedInv, SlotInv;
    var v, i := SubmitStep(w, env, r, grant), FreeSlot(w.s.slots).value;
    forall t | 0 <= t < |v.tickets|
      ensures HandleOk(v, t)
    {
      assert t < |w.tickets| ==> HandleOk(w, t);
    }
    forall j, k | 0 <= j < k < |v.tickets|
      ensures v.tickets[j].handle != v.tickets[k].handle
    {
      assert HandleOk(w, j);
    }
  }

  lemma ConsumeKeeps(w: World, env: Env)
    requires Inv(w, env, [0, 0]) && Sound(w.s, |env.storage|)
    ensures Inv(ConsumeStep(w, env), env, [0, 0])
  {
    hide QueueInv, FinishedInv, TicketsInv, SlotInv, TxsApart, DomainsInv;
    if w.s.order != [] {
      ConsumeQueue(w, env);
      ConsumeFinished(w, env);
      ConsumeTickets(w, env);
      ConsumeSlots(w, env);
      ConsumeDomains(w, env);
    }
  }

  lemma ConsumeDomains(w: World, env: Env)
    requires Inv(w, env, [0, 0]) && w.s.order != [] && Sound(w.s, |env.storage|)
    ensures TxsApart(ConsumeStep(w, env).s) && DomainsInv(ConsumeStep(w, env).s)
  {
    hide FinishedInv, TicketsInv, SlotInv, QueueInv;
    assert TxsApart(w.s) && DomainsInv(w.s);
  }

  lemma ConsumeSlots(w: World, env: Env)
    requires Inv(w, env, [0, 0]) && w.s.order != [] && Sound(w.s, |env.storage|)
    ensures SlotInv(ConsumeStep(w, env), env, 0, 0) && SlotInv(ConsumeStep(w, env), env, 1, 0)
  {
    var v, i := ConsumeStep(w, env), w.s.order[0];
    assert w.s.slots[i].Completed?;
    hide Ledger, Sound, OnTime, Carries;
    OtherSlot(w, v, env, 1 - i, 0);
  }

  lemma ConsumeQueue(w: World, env: Env)
    requires Inv(w, env, [0, 0]) && w.s.order != [] && Sound(w.s, |env.storage|)
    ensures QueueInv(ConsumeStep(w, env))
  {
    hide FinishedInv, TicketsInv, DomainsInv, SlotInv, TxsApart, Sound;
    var i := w.s.order[0];
    assert QueueInv(w) && w.s.slots[i].Completed?;
    hide Inv;
    ConsumeNamed(w, env);
    ConsumeLists(w, env);
    ConsumeShifts(w, env);
  }

  lemma ConsumeNamed(w: World, env: Env)
    requires QueueInv(w) && w.s.order != [] && Sound(w.s, |env.storage|)
    ensures var v := ConsumeStep(w, env);
      && Distinct(v.s.order) && |v.finished| == |v.consumed| + |v.s.order| && v.s.eventSequence == |v.finished|
      && |v.consumed| == v.s.generations[0] + v.s.generations[1]
  {
    assert w.s.slots[w.s.order[0]].Completed?;
    hide Sound;
  }

  lemma ConsumeLists(w: World, env: Env)
    requires QueueInv(w) && w.s.order != [] && Sound(w.s, |env.storage|)
    ensures var v := ConsumeStep(w, env);
      forall j :: 0 <= j < NUM_SLOTS && v.s.slots[j].Completed? ==> j in v.s.order
  {
    hide Sound;
    var v, i := ConsumeStep(w, env), w.s.order[0];
    forall j | 0 <= j < NUM_SLOTS && v.s.slots[j].Completed?
      ensures j in v.s.order
    {
      assert j in w.s.order && j != i;
      var k :| 0 <= k < |w.s.order| && w.s.order[k] == j;
      assert v.s.order[k - 1] == j;
    }
  }

  lemma ConsumeShifts(w: World, env: Env)
    requires QueueInv(w) && w.s.order != [] && Sound(w.s, |env.storage|)
    ensures var v := ConsumeStep(w, env);
      forall q :: 0 <= q < |v.s.order| ==>
        v.s.order[q] < NUM_SLOTS && v.s.slots[v.s.order[q]].Completed? && |v.consumed| + q < |v.finished|
        && v.finished[|v.consumed| + q] == v.holder[v.s.order[q]]
  {
    hide Sound;
    var v := ConsumeStep(w, env);
    forall q | 0 <= q < |v.s.order|
      ensures v.s.order[q] < NUM_SLOTS && v.s.slots[v.s.order[q]].Completed? && |v.consumed| + q < |v.finished|
      ensures v.finished[|v.consumed| + q] == v.holder[v.s.order[q]]
    {
      assert v.s.order[q] == w.s.order[q + 1] && w.s.order[0] != w.s.order[q + 1];
      assert w.finished[|w.consumed| + (q + 1)] == w.holder[w.s.order[q + 1]];
    }
  }

  lemma ConsumeFinished(w: World, env: Env)
    requires Inv(w, env, [0, 0]) && w.s.order != [] && Sound(w.s, |env.storage|)
    ensures FinishedInv(ConsumeStep(w, env), env)
  {
    hide TicketsInv, DomainsInv, Carries, OnTime;
    var v, i := ConsumeStep(w, env), w.s.order[0];
    assert w.s.slots[i].Completed? && w.finished[|w.consumed| + 0] == w.holder[i];
    assert SlotInv(w, env, i, 0);
    hide QueueInv, SlotInv;
    forall k | 0 <= k < |v.consumed|
      ensures ConsumedOk(v, k)
    {
      assert k < |w.consumed| ==> ConsumedOk(w, k);
    }
    forall k | 0 <= k < |v.finished|
      ensures FinishOk(v, env, v.finished[k])
    {
      assert FinishOk(w, env, w.finished[k]);
    }
  }

  lemma ConsumeTickets(w: World, env: Env)
    requires Inv(w, env, [0, 0]) && w.s.order != [] && Sound(w.s, |env.storage|)
    ensures TicketsInv(ConsumeStep(w, env))
  {
    var v, i := ConsumeStep(w, env), w.s.order[0];
    assert w.s.slots[i].Completed? && w.finished[|w.consumed| + 0] == w.holder[i];
    hide QueueInv, FinishedInv, DomainsInv, SlotInv;
    forall t | 0 <= t < |v.tickets|
      ensures HandleOk(v, t)
    {
      assert HandleOk(w, t);
    }
  }

  // ---- Ticks and runs ----

  function TickStep(w: World, env: Env, a: Answers): World
    requires Sound(w.s, |env.storage|)
  {
    var n := |env.storage|;
    WaitSound(w.s, 0, n);
    var w1 := WaitStep(w, env, 0);
    WaitSound(w1.s, 1, n);
    var w2 := WaitStep(w1, env, 1);
    StartSound(w2.s, 0, env.storage, a[0].start);
    var w3 := StartStep(w2, env, 0, a);
    StartSound(w3.s, 1, env.storage, a[1].start);
    var w4 := StartStep(w3, env, 1, a);
    AdvanceSound(w4.s, 0, a[0].advance, n);
    var w5 := AdvanceStep(w4, env, 0, a);
    var w6 := AdvanceStep(w5, env, 1, a);
    w6.(now := w6.now + 1)
  }

  /** The history steps are the controller's tick. */
  lemma TickIsTick(w: World, env: Env, a: Answers)
    requires Sound(w.s, |env.storage|)
    ensures TickStep(w, env, a).s == Tick(w.s, env.storage, a)
  {
    hide WaitSlot, StartSlot, AdvanceSlot;
    var n := |env.storage|;
    assert WaitAll(w.s, 2, n) == WaitSlot(WaitAll(w.s, 1, n), 1);
    var s := WaitAll(w.s, 2, n);
    assert StartAll(s, 2, env.storage, a) == StartSlot(StartAll(s, 1, env.storage, a), 1, env.storage, a[1].start);
    var t := StartAll(s, 2, env.storage, a);
    assert AdvanceAll(t, 2, a, n) == AdvanceSlot(AdvanceAll(t, 1, a, n), 1, a[1].advance);
  }

  lemma TickKeeps(w: World, env: Env, a: Answers)
    requires Inv(w, env, [0, 0]) && Sound(w.s, |env.storage|)
    ensures Inv(TickStep(w, env, a), env, [0, 0])
  {
    hide Inv, Sound, WaitStep, StartStep, AdvanceStep;
    WaitKeeps(w, env, [0, 0], 0);
    var w1 := WaitStep(w, env, 0);
    assert [0, 0][0 := 1] == [1, 0];
    WaitKeeps(w1, env, [1, 0], 1);
    var w2 := WaitStep(w1, env, 1);
    assert [1, 0][1 := 1] == [1, 1];
    StartKeeps(w2, env, [1, 1], 0, a);
    var w3 := StartStep(w2, env, 0, a);
    assert [1, 1][0 := 2] == [2, 1];
    StartKeeps(w3, env, [2, 1], 1, a);
    var w4 := StartStep(w3, env, 1, a);
    assert [2, 1][1 := 2] == [2, 2];
    AdvanceKeeps(w4, env, [2, 2], 0, a);
    var w5 := AdvanceStep(w4, env, 0, a);
    assert [2, 2][0 := 3] == [3, 2];
    AdvanceKeeps(w5, env, [3, 2], 1, a);
    var w6 := AdvanceStep(w5, env, 1, a);
    assert [3, 2][1 := 3] == [3, 3];
    NextTick(w6, env);
  }

  lemma NextTick(w: World, env: Env)
    requires Inv(w, env, [3, 3])
    ensures Inv(w.(now := w.now + 1), env, [0, 0])
  {
    hide Carries;
    var v := w.(now := w.now + 1);
    assert SlotInv(w, env, 0, 3) && SlotInv(w, env, 1, 3);
    forall k | 0 <= k < |v.finished|
      ensures FinishOk(v, env, v.finished[k])
    {
      assert FinishOk(w, env, w.finished[k]);
    }
    forall k | 0 <= k < |v.consumed|
      ensures ConsumedOk(v, k)
    {
      assert ConsumedOk(w, k);
    }
    forall t | 0 <= t < |v.tickets|
      ensures HandleOk(v, t)
    {
      assert HandleOk(w, t);
    }
  }

  datatype Event =
    | DoSubmit(request: Request, grant: Option<nat>)
    | DoTick(answers: Answers)
    | DoConsume

  /** The fabric's contract: a granted domain is not a live one. */
  predicate Honest(w: World, ev: Event) {
    ev.DoSubmit? && ev.grant.Some? ==> ev.grant.value !in w.s.domains
  }

  function Step(w: World, env: Env, ev: Event): World
    requires Sound(w.s, |env.storage|)
  {
    match ev
    case DoSubmit(r, grant) => SubmitStep(w, env, r, grant)
    case DoTick(a) => TickStep(w, env, a)
    case DoConsume => ConsumeStep(w, env)
  }

  /** The worlds reached by a run, if the fabric keeps its contract. */
  ghost predicate Reaches(env: Env, events: seq<Event>, w: World)
    decreases events
  {
    if events == [] then w == START
    else exists v ::
      && Reaches(env, events[..|events| - 1], v)
      && Sound(v.s, |env.storage|) && Honest(v, events[|events| - 1]) && w == Step(v, env, events[|events| - 1])
  }

  lemma StartInv(env: Env)
    ensures Inv(START, env, [0, 0])
  {
  }

  lemma {:induction false} RunKeeps(env: Env, events: seq<Event>, w: World)
    requires Reaches(env, events, w)
    ensures Inv(w, env, [0, 0]) && Sound(w.s, |env.storage|)
    decreases events
  {
    if events == [] {
      StartInv(env);
    } else {
      hide Inv, Sound, TickStep, SubmitStep, ConsumeStep;
      var front, ev := events[..|events| - 1], events[|events| - 1];
      var v :| Reaches(env, front, v) && Sound(v.s, |env.storage|) && Honest(v, ev) && w == Step(v, env, ev);
      RunKeeps(env, front, v);
      match ev
      case DoSubmit(r, grant) => SubmitKeeps(v, env, r, grant);
      case DoTick(a) => TickKeeps(v, env, a);
      case DoConsume => ConsumeKeeps(v, env);
    }
    InvSound(w, env, [0, 0]);
  }

  // ---- The laws ----

  function BusyCount(slots: Slots): nat {
    (if Busy(slots[0]) then 1 else 0) + (if Busy(slots[1]) then 1 else 0)
  }

  /** Block requests complete exactly once. In every run: accepted handles are pairwise distinct; no
      ticket finishes twice; every accepted ticket is either finished or held by a busy slot, never
      both; the queue lists each completed slot once; and event_sequence, the slot generations, the
      queue and the live DMA domains account for one another. */
  lemma ExactlyOnce(env: Env, events: seq<Event>, w: World)
    requires Reaches(env, events, w)
    ensures forall j, k :: 0 <= j < k < |w.tickets| ==> w.tickets[j].handle != w.tickets[k].handle
    ensures Distinct(w.finished) && forall k :: 0 <= k < |w.finished| ==> w.finished[k] < |w.tickets|
    ensures forall t :: 0 <= t < |w.tickets| ==>
      (t !in w.finished <==> exists i :: 0 <= i < NUM_SLOTS && Busy(w.s.slots[i]) && w.holder[i] == t)
    ensures Distinct(w.s.order)
    ensures forall i :: 0 <= i < NUM_SLOTS ==> (i in w.s.order <==> w.s.slots[i].Completed?)
    ensures w.s.eventSequence == w.s.generations[0] + w.s.generations[1] + |w.s.order| == |w.finished|
    ensures |w.s.domains| == BusyCount(w.s.slots)
    ensures |w.tickets| == |w.finished| + BusyCount(w.s.slots)
  {
    hide Reaches, Inv, Sound;
    RunKeeps(env, events, w);
    QueueFacts(w, env);
    FinishedFacts(w, env);
    forall t | 0 <= t < |w.tickets|
      ensures t !in w.finished <==> exists i :: 0 <= i < NUM_SLOTS && Busy(w.s.slots[i]) && w.holder[i] == t
    {
      TicketFacts(w, env, t);
    }
    TicketCount(w, env);
  }

  lemma QueueFacts(w: World, env: Env)
    requires Inv(w, env, [0, 0])
    ensures Distinct(w.s.order) && forall i :: 0 <= i < NUM_SLOTS ==> (i in w.s.order <==> w.s.slots[i].Completed?)
    ensures w.s.eventSequence == w.s.generations[0] + w.s.generations[1] + |w.s.order| == |w.finished|
    ensures |w.s.domains| == BusyCount(w.s.slots)
  {
    hide SlotInv, FinishedInv, TicketsInv;
    DomainCount(w.s);
  }

  lemma FinishedFacts(w: World, env: Env)
    requires Inv(w, env, [0, 0])
    ensures Distinct(w.finished) && forall k :: 0 <= k < |w.finished| ==> w.finished[k] < |w.tickets|
    ensures forall j, k :: 0 <= j < k < |w.tickets| ==> w.tickets[j].handle != w.tickets[k].handle
  {
    hide SlotInv, QueueInv, DomainsInv, Carries, HandleOk;
    forall k | 0 <= k < |w.finished|
      ensures w.finished[k] < |w.tickets|
    {
      assert FinishOk(w, env, w.finished[k]);
    }
  }

  /** A ticket is unfinished exactly while a busy slot holds it, and then that slot's request is its own. */
  lemma TicketFacts(w: World, env: Env, t: nat)
    requires Inv(w, env, [0, 0]) && t < |w.tickets|
    ensures t !in w.finished <==> exists i :: 0 <= i < NUM_SLOTS && Busy(w.s.slots[i]) && w.holder[i] == t
    ensures forall i :: 0 <= i < NUM_SLOTS && Busy(w.s.slots[i]) && w.holder[i] == t ==>
      w.s.slots[i].request == w.tickets[t].request
    ensures t !in w.finished ==> w.now < w.tickets[t].at + Due(env) + 2
  {
    assert HandleOk(w, t);
    assert SlotInv(w, env, 0, 0) && SlotInv(w, env, 1, 0);
    hide Ledger, Carries;
    if t !in w.finished {
      assert Busy(w.s.slots[w.tickets[t].handle.slot]);
    }
  }

  lemma DomainCount(s: State)
    requires DomainsInv(s)
    ensures |s.domains| == BusyCount(s.slots)
  {
  }

  /** Distinct numbers below a bound that miss a set of that many others. */
  lemma {:induction false} Covering(s: seq<nat>, n: nat, rest: set<nat>)
    requires Distinct(s) && (forall k :: 0 <= k < |s| ==> s[k] < n && s[k] !in rest)
    requires (forall t :: t in rest ==> t < n) && (forall t: nat :: t < n ==> t in s || t in rest)
    ensures n == |s| + |rest|
    decreases s
  {
    if s == [] {
      Below(n, rest);
    } else {
      var x, front := s[|s| - 1], s[..|s| - 1];
      forall t: nat | t < n
        ensures t in front || t in rest + {x}
      {
        if t in s && t != x {
          var k :| 0 <= k < |s| && s[k] == t;
          assert front[k] == t;
        }
      }
      Covering(front, n, rest + {x});
    }
  }

  lemma {:induction false} Below(n: nat, s: set<nat>)
    requires forall t: nat :: t < n <==> t in s
    ensures |s| == n
  {
    if n == 0 {
      assert s == {};
    } else {
      Below(n - 1, s - {n - 1});
    }
  }

  lemma TicketCount(w: World, env: Env)
    requires Inv(w, env, [0, 0])
    ensures |w.tickets| == |w.finished| + BusyCount(w.s.slots)
  {
    hide Carries, OnTime, QueueInv;
    var rest := (if Busy(w.s.slots[0]) then {w.holder[0]} else {}) + (if Busy(w.s.slots[1]) then {w.holder[1]} else {});
    assert SlotInv(w, env, 0, 0) && SlotInv(w, env, 1, 0);
    forall k | 0 <= k < |w.finished|
      ensures w.finished[k] < |w.tickets| && w.finished[k] !in rest
    {
      assert FinishOk(w, env, w.finished[k]);
    }
    forall t: nat | t < |w.tickets|
      ensures t in w.finished || t in rest
    {
      assert HandleOk(w, t);
    }
    Covering(w.finished, |w.tickets|, rest);
  }

  /** Completions are handed out first-in first-out: the k-th consumed is the k-th to complete and
      carries its own request's handle, requester, block and delegation, with the status of its own
      transaction, which moved that block to that target; a success is a committed one. */
  lemma ConsumedInOrder(env: Env, events: seq<Event>, w: World, k: nat)
    requires Reaches(env, events, w) && k < |w.consumed|
    ensures k < |w.finished| && w.finished[k] < |w.tickets|
    ensures var t := w.tickets[w.finished[k]];
      exists x :: 0 <= x < |w.s.txs| && Terminal(w.s.txs[x].state) && Carries(w.s.txs[x], t.request, env)
                  && w.consumed[k] == CompletionFor(t.request, t.handle, w.s.txs[x].state)
  {
    hide Reaches, Carries;
    RunKeeps(env, events, w);
    assert ConsumedOk(w, k) && FinishOk(w, env, w.finished[k]);
  }

  /** Bounded completion: a request completes no earlier than max(latency, 1) ticks after acceptance and
      no later than two ticks after that, and the countdown never underflows. */
  lemma BoundedCompletion(env: Env, events: seq<Event>, w: World, t: nat)
    requires Reaches(env, events, w) && t < |w.tickets|
    ensures Sound(w.s, |env.storage|)
    ensures var due := w.tickets[t].at + Latency(env.latency);
      && (t in w.finished ==> t in w.details && due <= w.details[t].at <= due + 2)
      && (w.now < due ==> t !in w.finished)
      && (w.now >= due + 2 ==> t in w.finished)
  {
    hide Reaches, Inv, Sound;
    RunKeeps(env, events, w);
    FinishedInPast(env, events, w);
    TicketFacts(w, env, t);
    if t in w.finished {
      FinishedOnTime(w, env, t);
    }
  }

  lemma FinishedOnTime(w: World, env: Env, t: nat)
    requires Inv(w, env, [0, 0]) && t in w.finished
    ensures FinishOk(w, env, t)
  {
    hide SlotInv, QueueInv, TicketsInv, DomainsInv, FinishOk;
    var k :| 0 <= k < |w.finished| && w.finished[k] == t;
    assert FinishOk(w, env, w.finished[k]);
  }

  ghost predicate AllPast(w: World, limit: nat) {
    forall t :: t in w.details ==> w.details[t].at <= limit
  }

  lemma AdvancePast(w: World, env: Env, i: nat, a: Answers)
    requires Sound(w.s, |env.storage|) && i < NUM_SLOTS && AllPast(w, w.now + 1)
    ensures AllPast(AdvanceStep(w, env, i, a), w.now + 1) && AdvanceStep(w, env, i, a).now == w.now
  {
    hide AdvanceSlot;
  }

  lemma TickPast(w: World, env: Env, a: Answers)
    requires Sound(w.s, |env.storage|) && AllPast(w, w.now)
    ensures AllPast(TickStep(w, env, a), w.now + 1) && TickStep(w, env, a).now == w.now + 1
  {
    var n := |env.storage|;
    WaitSound(w.s, 0, n);
    var w1 := WaitStep(w, env, 0);
    WaitSound(w1.s, 1, n);
    var w2 := WaitStep(w1, env, 1);
    StartSound(w2.s, 0, env.storage, a[0].start);
    var w3 := StartStep(w2, env, 0, a);
    StartSound(w3.s, 1, env.storage, a[1].start);
    var w4 := StartStep(w3, env, 1, a);
    assert w4.details == w.details && w4.now == w.now;
    AdvanceSound(w4.s, 0, a[0].advance, n);
    hide Sound, WaitSlot, StartSlot, AdvanceSlot, AdvanceStep;
    AdvancePast(w4, env, 0, a);
    AdvancePast(AdvanceStep(w4, env, 0, a), env, 1, a);
  }

  lemma {:induction false} FinishedInPast(env: Env, events: seq<Event>, w: World)
    requires Reaches(env, events, w)
    ensures AllPast(w, w.now)
    decreases events
  {
    if events != [] {
      hide Sound, Consume, Submit, TickStep;
      var front, ev := events[..|events| - 1], events[|events| - 1];
      var v :| Reaches(env, front, v) && Sound(v.s, |env.storage|) && Honest(v, ev) && w == Step(v, env, ev);
      FinishedInPast(env, front, v);
      if ev.DoTick? {
        TickPast(v, env, ev.answers);
      }
    }
  }

  // ---- Pair quiescence ----

  /** The pair's accepted requests that have not finished. */
  function Outstanding(w: World, client: ProcessKey, driver: ProcessKey): set<nat> {
    set t | 0 <= t < |w.tickets| && t !in w.finished && OfPair(w.tickets[t].request, client, driver)
  }

  function Held(w: World, i: nat, client: ProcessKey, driver: ProcessKey): (h: set<nat>)
    requires i < NUM_SLOTS
    ensures |h| == PairSlot(w.s.slots[i], client, driver)
  {
    if Busy(w.s.slots[i]) && OfPair(w.s.slots[i].request, client, driver) then {w.holder[i]} else {}
  }

  lemma HeldTicket(w: World, env: Env, i: nat)
    requires Inv(w, env, [0, 0]) && i < NUM_SLOTS && Busy(w.s.slots[i])
    ensures w.holder[i] < |w.tickets| && w.holder[i] !in w.finished
    ensures w.s.slots[i].request == w.tickets[w.holder[i]].request && w.tickets[w.holder[i]].handle.slot == i
  {
    hide Ledger, OnTime, Carries;
    assert SlotInv(w, env, i, 0);
  }

  /** The nonterminal count of a pair is the number of its accepted requests that have not finished. */
  lemma PairQuiescence(env: Env, events: seq<Event>, w: World, client: ProcessKey, driver: ProcessKey)
    requires Reaches(env, events, w)
    ensures PairCount(w.s.slots, client, driver) == |Outstanding(w, client, driver)|
  {
    hide Reaches, Inv, Sound;
    RunKeeps(env, events, w);
    OutstandingHeld(w, env, client, driver);
  }

  lemma OutstandingHeld(w: World, env: Env, client: ProcessKey, driver: ProcessKey)
    requires Inv(w, env, [0, 0])
    ensures PairCount(w.s.slots, client, driver) == |Outstanding(w, client, driver)|
  {
    hide Inv;
    var out, h0, h1 := Outstanding(w, client, driver), Held(w, 0, client, driver), Held(w, 1, client, driver);
    forall i | 0 <= i < NUM_SLOTS && Busy(w.s.slots[i])
      ensures w.holder[i] in out <==> OfPair(w.s.slots[i].request, client, driver)
      ensures w.holder[i] < |w.tickets| && w.tickets[w.holder[i]].handle.slot == i
    {
      HeldTicket(w, env, i);
    }
    forall t | t in out
      ensures t in h0 + h1
    {
      TicketFacts(w, env, t);
    }
    assert h0 !! h1;
    assert out == h0 + h1;
  }
}
