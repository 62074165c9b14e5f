/** The two-slot block controller with generation-qualified handles and a completion queue. */

module BlockModel {
  import opened Words


  const NUM_SLOTS := 2

  datatype ProcessKey = ProcessKey(slot: nat, generation: nat)

  datatype Delegation = Delegation(client: ProcessKey, driver: ProcessKey)

  datatype Request = Request(
    block: nat, requester: ProcessKey, target: nat, offset: nat, sourceDomain: nat,
    authority: Option<nat>, delegation: Option<Delegation>)

  datatype Handle = Handle(slot: nat, generation: nat)

  datatype Status = Success | DmaFault(reason: nat)

  datatype Completion = Completion(
    handle: Handle, requester: ProcessKey, block: nat, status: Status, delegation: Option<Delegation>)

  datatype SubmitResult = Accepted(handle: Handle) | DeviceBusy | InvalidBlock | DelegationFailed

  // ---- The fabric the controller works through ----

  datatype TxState = Requested | Authorized | Prepared | Committed | Faulted(reason: nat)

  predicate Terminal(s: TxState) {
    s.Committed? || s.Faulted?
  }

  /** A DMA write: where, and which bytes. */
  datatype Tx = Tx(state: TxState, domain: nat, target: nat, offset: nat, data: seq<Byte>)

  /** One advance moves a transaction one phase or faults it; a terminal one stays. */
  function Advanced(s: TxState, fault: Option<nat>): TxState {
    if Terminal(s) then s
    else if fault.Some? then Faulted(fault.value)
    else if s.Requested? then Authorized
    else if s.Authorized? then Prepared
    else Committed
  }

  // ---- The controller ----

  datatype Slot =
    | Free
    | Waiting(request: Request, remaining: nat, domain: nat)
    | DmaReady(request: Request, domain: nat)
    | DmaInFlight(request: Request, domain: nat, tx: nat)
    | Completed(completion: Completion)

  /** An accepted request that hardware may still act on. */
  predicate Busy(s: Slot) {
    s.Waiting? || s.DmaReady? || s.DmaInFlight?
  }

  type Slots = s: seq<Slot> | |s| == NUM_SLOTS witness [Free, Free]
  type Generations = g: seq<nat> | |g| == NUM_SLOTS witness [0, 0]

  datatype State = State(
    slots: Slots, generations: Generations, order: seq<nat>, eventSequence: nat, txs: seq<Tx>, domains: set<nat>)

  function Latency(latency: nat): nat {
    if latency < 1 then 1 else latency
  }

  function FreeSlot(slots: Slots): Option<nat> {
    if slots[0].Free? then Some(0) else if slots[1].Free? then Some(1) else None
  }

  /** The grant is the fabric's answer to the delegation: a domain, or a refusal. */
  function Submit(s: State, blocks: nat, latency: nat, r: Request, grant: Option<nat>): (SubmitResult, State) {
    if r.authority.None? && r.delegation.Some? then (DelegationFailed, s)
    else if r.block >= blocks then (InvalidBlock, s)
    else if FreeSlot(s.slots).None? then (DeviceBusy, s)
    else if grant.None? then (DelegationFailed, s)
    else
      var i := FreeSlot(s.slots).value;
      (Accepted(Handle(i, s.generations[i])),
       s.(slots := s.slots[i := Waiting(r, Latency(latency), grant.value)], domains := s.domains + {grant.value}))
  }

  function WaitSlot(s: State, i: nat): State
    requires i < NUM_SLOTS && (s.slots[i].Waiting? ==> s.slots[i].remaining >= 1)
  {
    var slot := s.slots[i];
    if !slot.Waiting? then s
    else if slot.remaining == 1 then s.(slots := s.slots[i := DmaReady(slot.request, slot.domain)])
    else s.(slots := s.slots[i := slot.(remaining := slot.remaining - 1)])
  }

  /** A transaction whose span is refused starts out faulted. */
  function StartSlot(s: State, i: nat, storage: seq<seq<Byte>>, fault: Option<nat>): State
    requires i < NUM_SLOTS && (s.slots[i].DmaReady? ==> s.slots[i].request.block < |storage|)
  {
    var slot := s.slots[i];
    if !slot.DmaReady? then s
    else
      var r := slot.request;
      var tx := Tx(if fault.Some? then Faulted(fault.value) else Requested, slot.domain, r.target, r.offset, storage[r.block]);
      s.(slots := s.slots[i := DmaInFlight(r, slot.domain, |s.txs|)], txs := s.txs + [tx])
  }

  function CompletionFor(r: Request, h: Handle, s: TxState): Completion {
    Completion(h, r.requester, r.block, if s.Faulted? then DmaFault(s.reason) else Success, r.delegation)
  }

  function AdvanceSlot(s: State, i: nat, fault: Option<nat>): State
    requires i < NUM_SLOTS && (s.slots[i].DmaInFlight? ==> s.slots[i].tx < |s.txs|)
  {
    var slot := s.slots[i];
    if !slot.DmaInFlight? then s
    else
      var tx := s.txs[slot.tx];
      var moved := tx.(state := Advanced(tx.state, fault));
      var t := s.(txs := s.txs[slot.tx := moved]);
      if !Terminal(moved.state) then t
      else t.(slots := s.slots[i := Completed(CompletionFor(slot.request, Handle(i, s.generations[i]), moved.state))],
              domains := s.domains - {slot.domain}, order := s.order + [i], eventSequence := s.eventSequence + 1)
  }

  function Consume(s: State): (Option<Completion>, State)
    requires s.order != [] ==> s.order[0] < NUM_SLOTS
  {
    if s.order == [] then (None, s)
    else
      var i := s.order[0];
      var t := s.(order := s.order[1..]);
      if s.slots[i].Completed?
      then (Some(s.slots[i].completion),
            t.(slots := s.slots[i := Free], generations := s.generations[i := s.generations[i] + 1]))
      else (None, t)
  }

  /** The request was delegated by this client to this driver. */
  predicate OfPair(r: Request, client: ProcessKey, driver: ProcessKey) {
    r.delegation == Some(Delegation(client, driver))
  }

  function PairSlot(slot: Slot, client: ProcessKey, driver: ProcessKey): nat {
    if Busy(slot) && OfPair(slot.request, client, driver) then 1 else 0
  }

  function PairCount(slots: Slots, client: ProcessKey, driver: ProcessKey): nat {
    PairSlot(slots[0], client, driver) + PairSlot(slots[1], client, driver)
  }

  /** What the fabric answers for a slot in one tick. */
  datatype Answer = Answer(start: Option<nat>, advance: Option<nat>)

  type Answers = a: seq<Answer> | |a| == NUM_SLOTS witness [Answer(None, None), Answer(None, None)]

  // ---- What every operation keeps, enough for every index and subtraction to be in range ----

  predicate Sound(s: State, blocks: nat) {
    && (forall i :: 0 <= i < NUM_SLOTS ==>
          match s.slots[i]
          case Free => true
          case Completed(_) => true
          case Waiting(r, n, _) => n >= 1 && r.block < blocks
          case DmaReady(r, _) => r.block < blocks
          case DmaInFlight(_, _, tx) => tx < |s.txs|)
    && (forall k :: 0 <= k < |s.order| ==> s.order[k] < NUM_SLOTS)
  }

  lemma WaitSound(s: State, i: nat, blocks: nat)
    requires Sound(s, blocks) && i < NUM_SLOTS
    ensures Sound(WaitSlot(s, i), blocks)
  {
  }

  lemma StartSound(s: State, i: nat, storage: seq<seq<Byte>>, fault: Option<nat>)
    requires Sound(s, |storage|) && i < NUM_SLOTS
    ensures Sound(StartSlot(s, i, storage, fault), |storage|)
  {
  }

  lemma AdvanceSound(s: State, i: nat, fault: Option<nat>, blocks: nat)
    requires Sound(s, blocks) && i < NUM_SLOTS
    ensures Sound(AdvanceSlot(s, i, fault), blocks)
  {
  }

  /** The first slots, in turn. */
  function WaitAll(s: State, n: nat, blocks: nat): (t: State)
    requires Sound(s, blocks) && n <= NUM_SLOTS
    ensures Sound(t, blocks)
  {
    if n == 0 then s
    else
      var t := WaitAll(s, n - 1, blocks);
      WaitSound(t, n - 1, blocks);
      WaitSlot(t, n - 1)
  }

  function StartAll(s: State, n: nat, storage: seq<seq<Byte>>, a: Answers): (t: State)
    requires Sound(s, |storage|) && n <= NUM_SLOTS
    ensures Sound(t, |storage|)
  {
    if n == 0 then s
    else
      var t := StartAll(s, n - 1, storage, a);
      StartSound(t, n - 1, storage, a[n - 1].start);
      StartSlot(t, n - 1, storage, a[n - 1].start)
  }

  function AdvanceAll(s: State, n: nat, a: Answers, blocks: nat): (t: State)
    requires Sound(s, blocks) && n <= NUM_SLOTS
    ensures Sound(t, blocks)
  {
    if n == 0 then s
    else
      var t := AdvanceAll(s, n - 1, a, blocks);
      AdvanceSound(t, n - 1, a[n - 1].advance, blocks);
      AdvanceSlot(t, n - 1, a[n - 1].advance)
  }

  function Tick(s: State, storage: seq<seq<Byte>>, a: Answers): State
    requires Sound(s, |storage|)
  {
    AdvanceAll(StartAll(WaitAll(s, NUM_SLOTS, |storage|), NUM_SLOTS, storage, a), NUM_SLOTS, a, |storage|)
  }

}

/** The controller and the fabric it works through, in place. */
module BlockController {
  import opened Words
  import opened BlockModel
  import Model = BlockModel

  class Fabric {
    var txs: seq<Tx>
    var domains: set<nat>

    constructor ()
      ensures txs == [] && domains == {}
    {
      txs, domains := [], {};
    }

    method Submit(tx: Tx) returns (index: nat)
      modifies this`txs
      ensures index == |old(txs)| && txs == old(txs) + [tx]
    {
      index := |txs|;
      txs := txs + [tx];
    }

    method Advance(index: nat, fault: Option<nat>)
      requires index < |txs|
      modifies this`txs
      ensures txs == old(txs)[index := old(txs)[index].(state := Advanced(old(txs)[index].state, fault))]
    {
      var tx := txs[index];
      match tx.state {
        case Committed =>
        case Faulted(_) =>
        case Requested => txs := txs[index := tx.(state := if fault.Some? then Faulted(fault.value) else Authorized)];
        case Authorized => txs := txs[index := tx.(state := if fault.Some? then Faulted(fault.value) else Prepared)];
        case Prepared => txs := txs[index := tx.(state := if fault.Some? then Faulted(fault.value) else Committed)];
      }
    }
  }

  class Controller {
    var slots: Slots
    var generations: Generations
    var order: seq<nat>
    var eventSequence: nat
    const storage: seq<seq<Byte>>
    const latency: nat

    constructor (storage: seq<seq<Byte>>, latency: nat)
      ensures slots == [Free, Free] && generations == [0, 0] && order == [] && eventSequence == 0
      ensures this.storage == storage && this.latency == latency
    {
      slots, generations, order, eventSequence := [Free, Free], [0, 0], [], 0;
      this.storage, this.latency := storage, latency;
    }

    ghost function View(fabric: Fabric): State
      reads this, fabric
    {
      State(slots, generations, order, eventSequence, fabric.txs, fabric.domains)
    }

    method Submit(request: Request, fabric: Fabric, grant: Option<nat>) returns (result: SubmitResult)
      modifies this, fabric
      ensures (result, View(fabric)) == Model.Submit(old(View(fabric)), |storage|, latency, request, grant)
    {
      if request.authority.None? && request.delegation.Some? {
        return DelegationFailed;
      }
      if request.block >= |storage| {
        return InvalidBlock;
      }
      var i := 0;
      while i < NUM_SLOTS && !slots[i].Free?
        invariant i <= NUM_SLOTS && forall k :: 0 <= k < i ==> !slots[k].Free?
      {
        i := i + 1;
      }
      if i == NUM_SLOTS {
        return DeviceBusy;
      }
      if grant.None? {
        return DelegationFailed;
      }
      fabric.domains := fabric.domains + {grant.value};
      var handle := Handle(i, generations[i]);
      slots := slots[i := Waiting(request, if latency < 1 then 1 else latency, grant.value)];
      return Accepted(handle);
    }

    /** Count down; a request whose latency is over becomes ready. */
    method TickWaiting(fabric: Fabric)
      requires Sound(View(fabric), |storage|)
      modifies this`slots
      ensures View(fabric) == WaitAll(old(View(fabric)), NUM_SLOTS, |storage|)
    {
      for i := 0 to NUM_SLOTS
        invariant View(fabric) == WaitAll(old(View(fabric)), i, |storage|)
      {
        if slots[i].Waiting? {
          var remaining := slots[i].remaining - 1;
          if remaining == 0 {
            slots := slots[i := DmaReady(slots[i].request, slots[i].domain)];
          } else {
            slots := slots[i := slots[i].(remaining := remaining)];
          }
        }
      }
    }

    /** Start the fabric transaction of every ready request. */
    method TickStart(fabric: Fabric, answers: Answers)
      requires Sound(View(fabric), |storage|)
      modifies this`slots, fabric`txs
      ensures View(fabric) == StartAll(old(View(fabric)), NUM_SLOTS, storage, answers)
    {
      for i := 0 to NUM_SLOTS
        invariant View(fabric) == StartAll(old(View(fabric)), i, storage, answers)
      {
        if slots[i].DmaReady? {
          var request, domain, fault := slots[i].request, slots[i].domain, answers[i].start;
          var tx := fabric.Submit(Tx(if fault.Some? then Faulted(fault.value) else Requested,
                                     domain, request.target, request.offset, storage[request.block]));
          slots := slots[i := DmaInFlight(request, domain, tx)];
        }
      }
    }

    /** Advance every transaction in flight; a terminal one completes its slot. */
    method TickAdvance(fabric: Fabric, answers: Answers)
      requires Sound(View(fabric), |storage|)
      modifies this, fabric
      ensures View(fabric) == AdvanceAll(old(View(fabric)), NUM_SLOTS, answers, |storage|)
    {
      for i := 0 to NUM_SLOTS
        invariant View(fabric) == AdvanceAll(old(View(fabric)), i, answers, |storage|)
      {
        if slots[i].DmaInFlight? {
          var slot := slots[i];
          if !Terminal(fabric.txs[slot.tx].state) {
            fabric.Advance(slot.tx, answers[i].advance);
          }
          var state := fabric.txs[slot.tx].state;
          if Terminal(state) {
            var status := if state.Faulted? then DmaFault(state.reason) else Success;
            fabric.domains := fabric.domains - {slot.domain};
            var handle := Handle(i, generations[i]);
            var request := slot.request;
            slots := slots[i := Completed(Completion(handle, request.requester, request.block, status, request.delegation))];
            order := order + [i];
            eventSequence := eventSequence + 1;
          }
        }
      }
    }

    method Tick(fabric: Fabric, answers: Answers)
      requires Sound(View(fabric), |storage|)
      modifies this, fabric
      ensures View(fabric) == Model.Tick(old(View(fabric)), storage, answers)
    {
      TickWaiting(fabric);
      TickStart(fabric, answers);
      TickAdvance(fabric, answers);
    }

    method ConsumeCompletion(ghost fabric: Fabric) returns (c: Option<Completion>)
      requires Sound(View(fabric), |storage|)
      modifies this
      ensures (c, View(fabric)) == Consume(old(View(fabric)))
    {
      if order == [] {
        return None;
      }
      var i := order[0];
      order := order[1..];
      if slots[i].Completed? {
        c := Some(slots[i].completion);
        slots := slots[i := Free];
        generations := generations[i := generations[i] + 1];
      } else {
        c := None;
      }
    }

    method NonterminalPairRequestCount(client: ProcessKey, driver: ProcessKey) returns (n: nat)
      ensures n == PairCount(slots, client, driver)
    {
      n := 0;
      for i := 0 to NUM_SLOTS
        invariant n == (if i > 0 then PairSlot(slots[0], client, driver) else 0)
          + (if i > 1 then PairSlot(slots[1], client, driver) else 0)
      {
        if slots[i].Waiting? || slots[i].DmaReady? || slots[i].DmaInFlight? {
          var delegation := slots[i].request.delegation;
          if delegation.Some?
             && delegation.value.client.slot == client.slot && delegation.value.client.generation == client.generation
             && delegation.value.driver.slot == driver.slot && delegation.value.driver.generation == driver.generation {
            n := n + 1;
          }
        }
      }
    }
  }
}
