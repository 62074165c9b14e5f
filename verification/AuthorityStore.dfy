/** The durable authority store: authorization, the commit decision, the transaction over a
    compare-and-commit record, and the boot latch. */

module AuthorityStore {
  import opened Words

  type U64 = x: int | 0 <= x < TWO64

  datatype Verdict = Unknown | Invalid | Valid

  datatype Operation = Select | ReserveBoot

  datatype Context = Context(anchor: U64, installation: U64, policy: U64, challenge: U64, now: U64, selected: bool)

  datatype Access = Access(
    anchor: U64, installation: U64, policy: U64, caller: U64, incarnation: U64, operation: Operation,
    first: U64, until: U64, authentic: Verdict, status: Verdict)

  datatype Request = Request(
    anchor: U64, installation: U64, policy: U64, caller: U64, incarnation: U64, sequence: U64,
    expected: U64, operation: Operation, argument: U64, attempt: U64)

  datatype State = State(revision: U64, value: U64, boot: U64, last: Option<Request>)

  datatype Outcome = Outcome(revision: U64, value: U64, boot: U64)

  datatype Error =
    | NotAuthorized | Conflict | ExpiredRequest | NoCapacity | Exhausted | InvalidRequest
    | BackendUnavailable | BackendBusy | CorruptRecord | CommitUncertain | BootDenied

  function OutcomeOf(s: State): Outcome {
    Outcome(s.revision, s.value, s.boot)
  }

  function Sequence(s: State): U64 {
    if s.last.Some? then s.last.value.sequence else 0
  }

  predicate Authorized(c: Context, r: Request, a: Access) {
    && c.selected && c.anchor != 0 && c.installation != 0
    && r.anchor == c.anchor && r.installation == c.installation && r.policy == c.policy
    && a.anchor == r.anchor && a.installation == r.installation && a.policy == r.policy
    && r.caller != 0 && r.incarnation != 0
    && a.caller == r.caller && a.incarnation == r.incarnation && a.operation == r.operation
    && a.authentic == Valid && a.status == Valid
    && a.first < a.until && a.first <= c.now < a.until
  }

  datatype Decision = Replay(outcome: Outcome) | Commit(state: State)

  function CheckedAdd(x: U64): Option<U64> {
    if x + 1 < TWO64 then Some(x + 1) else None
  }

  function Prepare(c: Context, s: State, r: Request, a: Access, capacity: bool): Result<Decision, Error> {
    if !Authorized(c, r, a) then Err(NotAuthorized)
    else if s.last == Some(r) && r.sequence != 0 then Ok(Replay(OutcomeOf(s)))
    else if r.sequence < Sequence(s) then Err(ExpiredRequest)
    else if r.sequence == Sequence(s) then Err(Conflict)
    else if CheckedAdd(Sequence(s)).None? then Err(Exhausted)
    else if CheckedAdd(s.revision).None? then Err(Exhausted)
    else if r.sequence != CheckedAdd(Sequence(s)).value || r.expected != s.revision then Err(Conflict)
    else if !capacity then Err(NoCapacity)
    else if r.argument == 0 then Err(InvalidRequest)
    else if r.operation == Select && r.attempt == 0 then
      Ok(Commit(State(s.revision + 1, r.argument, s.boot, Some(r))))
    else if r.operation == ReserveBoot && r.attempt != 0 && r.argument == s.value then
      if CheckedAdd(s.boot).None? then Err(Exhausted)
      else Ok(Commit(State(s.revision + 1, s.value, s.boot + 1, Some(r))))
    else Err(InvalidRequest)
  }

  /** The request is the next one for this state and can take effect in it. */
  predicate Enabled(s: State, r: Request) {
    && r.sequence == Sequence(s) + 1 && r.expected == s.revision && s.revision + 1 < TWO64
    && r.argument != 0
    && match r.operation
       case Select => r.attempt == 0
       case ReserveBoot => r.attempt != 0 && r.argument == s.value && s.boot + 1 < TWO64
  }

  /** What a request means: a selection installs a value, a reservation takes the next boot number. */
  function Effect(s: State, r: Request): State
    requires Enabled(s, r)
  {
    match r.operation
    case Select => State(s.revision + 1, r.argument, s.boot, Some(r))
    case ReserveBoot => State(s.revision + 1, s.value, s.boot + 1, Some(r))
  }

  /** The decision commits exactly the enabled, authorized requests, and replays exactly the last one. */
  lemma PrepareDecides(c: Context, s: State, r: Request, a: Access, capacity: bool)
    ensures var d := Prepare(c, s, r, a, capacity);
      && (forall t :: d == Ok(Commit(t)) <==> Authorized(c, r, a) && capacity && Enabled(s, r) && t == Effect(s, r))
      && (forall o :: d == Ok(Replay(o)) <==> Authorized(c, r, a) && s.last == Some(r) && r.sequence != 0 && o == OutcomeOf(s))
  {
  }

  /** What the backend does with a commit whose comparison succeeds. */
  datatype Fate = Applied | Refused(error: Error) | Uncertain(applied: bool)

  predicate TakesEffect(fate: Fate) {
    fate.Applied? || (fate.Uncertain? && fate.applied)
  }

  /** The outcome of one transaction with no other writer between its load and its commit, when the
      record is (or is not) the context's own. */
  function Transacted(s: State, own: bool, c: Context, r: Request, a: Access, capacity: bool, load: Option<Error>, fate: Fate)
    : (Result<Outcome, Error>, State)
  {
    if !Authorized(c, r, a) || !own then (Err(NotAuthorized), s)
    else if load.Some? then (Err(load.value), s)
    else
      match Prepare(c, s, r, a, capacity)
      case Err(e) => (Err(e), s)
      case Ok(Replay(o)) => (Ok(o), s)
      case Ok(Commit(t)) =>
        (match fate case Applied => Ok(OutcomeOf(t)) case Refused(e) => Err(e) case Uncertain(_) => Err(CommitUncertain),
         if TakesEffect(fate) then t else s)
  }

  class DurableRecord {
    const anchor: U64
    const installation: U64
    var record: State

    constructor (anchor: U64, installation: U64, initial: State)
      ensures this.anchor == anchor && this.installation == installation && record == initial
    {
      this.anchor, this.installation, record := anchor, installation, initial;
    }

    method Load(anchor: U64, installation: U64, failure: Option<Error>) returns (r: Result<State, Error>)
      ensures (this.anchor, this.installation) != (anchor, installation) ==> r == Err(NotAuthorized)
      ensures (this.anchor, this.installation) == (anchor, installation) ==>
        r == if failure.Some? then Err(failure.value) else Ok(record)
    {
      if this.anchor != anchor || this.installation != installation {
        return Err(NotAuthorized);
      }
      if failure.Some? {
        return Err(failure.value);
      }
      return Ok(record);
    }

    /** Compare with the record and replace it whole, or leave it alone. */
    method CompareAndCommit(anchor: U64, installation: U64, before: State, after: State, fate: Fate)
      returns (r: Result<State, Error>)
      modifies this
      ensures record == if (this.anchor, this.installation) == (anchor, installation) && old(record) == before
        && TakesEffect(fate) then after else old(record)
      ensures r.Ok? <==> (this.anchor, this.installation) == (anchor, installation) && old(record) == before && fate.Applied?
      ensures r.Ok? ==> r.value == after
      ensures (this.anchor, this.installation) == (anchor, installation) && old(record) == before ==>
        (fate.Refused? ==> r == Err(fate.error)) && (fate.Uncertain? ==> r == Err(CommitUncertain))
    {
      if this.anchor != anchor || this.installation != installation {
        return Err(NotAuthorized);
      }
      if record != before {
        return Err(Conflict);
      }
      match fate {
        case Refused(e) => return Err(e);
        case Applied =>
          record := after;
          return Ok(after);
        case Uncertain(applied) =>
          if applied {
            record := after;
          }
          return Err(CommitUncertain);
      }
    }
  }

  /** An unauthorized request never reaches the store. */
  method Transact(b: DurableRecord, c: Context, r: Request, a: Access, capacity: bool, load: Option<Error>, fate: Fate)
    returns (result: Result<Outcome, Error>)
    modifies b
    ensures (result, b.record) ==
      Transacted(old(b.record), (b.anchor, b.installation) == (c.anchor, c.installation), c, r, a, capacity, load, fate)
  {
    if !Authorized(c, r, a) {
      return Err(NotAuthorized);
    }
    var loaded := b.Load(c.anchor, c.installation, load);
    if loaded.Err? {
      return Err(loaded.error);
    }
    var before := loaded.value;
    var decision := Prepare(c, before, r, a, capacity);
    if decision.Err? {
      return Err(decision.error);
    }
    match decision.value {
      case Replay(o) => return Ok(o);
      case Commit(after) =>
        var done := b.CompareAndCommit(c.anchor, c.installation, before, after, fate);
        if done.Err? {
          return Err(done.error);
        }
        return Ok(OutcomeOf(after));
    }
  }

  // ---- Boot admission ----

  datatype Enrollment = Enrollment(anchor: U64, installation: U64, person: U64, revision: U64, enrolled: bool)

  datatype BootEvidence = BootEvidence(head: U64, boot: U64, freshness: Verdict, artifact: Verdict)

  predicate Admissible(c: Context, s: State, r: Request, a: Access, e: Enrollment, f: BootEvidence) {
    && Authorized(c, r, a) && s.last == Some(r) && r.sequence != 0
    && r.operation == ReserveBoot
    && e.enrolled && e.revision != 0 && e.person != 0 && e.anchor == c.anchor && e.installation == c.installation
    && s.revision == f.head && s.boot == f.boot && f.boot != 0
    && c.challenge != 0 && r.attempt == c.challenge && s.value == r.argument && s.value != 0
    && f.freshness == Valid && f.artifact == Valid
  }

  /** Volatile: a crash drops it. */
  class BootLatch {
    var active: Option<U64>

    constructor ()
      ensures active == None
    {
      active := None;
    }

    method Admit(c: Context, s: State, r: Request, a: Access, e: Enrollment, f: BootEvidence)
      returns (result: Result<U64, Error>)
      modifies this
      ensures result == if old(active).None? && Admissible(c, s, r, a, e, f) then Ok(s.boot) else Err(BootDenied)
      ensures active == if result.Ok? then Some(s.boot) else old(active)
    {
      if active.Some? || !Admissible(c, s, r, a, e, f) {
        return Err(BootDenied);
      }
      active := Some(s.boot);
      return Ok(s.boot);
    }

    predicate AcceptsSavedContext(boot: U64)
      reads this
    {
      Accepts(active, boot)
    }
  }

  predicate Accepts(active: Option<U64>, boot: U64) {
    boot != 0 && active == Some(boot)
  }
}

/** The store and boot chain over whole runs: many callers, retries, uncertain commits and crashes. */
module AuthorityRuns {
  import opened Words
  import opened AuthorityStore

  /** A caller between its load and its commit. */
  datatype Call = Call(request: Request, before: State, after: State)

  /** An Ok answer given to a request. */
  datatype Answer = Answer(request: Request, outcome: Outcome)

  /** A successful admission: the boot epoch, the reservation and the state it was admitted with. */
  datatype Admission = Admission(epoch: nat, request: Request, state: State)

  /** The record, the states committed so far, the calls in flight, the answers and admissions given,
      the trusted challenge of every boot epoch so far (the last is current) and the current latch. */
  datatype World = World(
    record: State, history: seq<State>, calls: map<nat, Call>, answers: seq<Answer>,
    challenges: seq<U64>, latch: Option<U64>, admissions: seq<Admission>)

  datatype Event =
    | Begin(call: nat, c: Context, r: Request, a: Access, capacity: bool)
    | Finish(call: nat, fate: Fate)
    | Crash(challenge: U64)
    | Admit(c: Context, s: State, r: Request, a: Access, e: Enrollment, f: BootEvidence)

  /** Load and decide. */
  function Began(w: World, call: nat, c: Context, r: Request, a: Access, capacity: bool): World {
    match Prepare(c, w.record, r, a, capacity)
    case Err(_) => w
    case Ok(Replay(o)) => w.(answers := w.answers + [Answer(r, o)])
    case Ok(Commit(t)) => w.(calls := w.calls[call := Call(r, w.record, t)])
  }

  /** Compare and commit, against whatever the record has become since the load. */
  function Finished(w: World, call: nat, fate: Fate): World {
    if call !in w.calls then w
    else
      var k := w.calls[call];
      var w1 := w.(calls := w.calls - {call});
      if w.record != k.before then w1
      else
        var w2 := if TakesEffect(fate) then w1.(record := k.after, history := w.history + [k.after]) else w1;
        if fate.Applied? then w2.(answers := w.answers + [Answer(k.request, OutcomeOf(k.after))]) else w2
  }

  function Admitted(w: World, c: Context, s: State, r: Request, a: Access, e: Enrollment, f: BootEvidence): World
    requires w.challenges != []
  {
    if w.latch.None? && Admissible(c, s, r, a, e, f)
    then w.(latch := Some(s.boot), admissions := w.admissions + [Admission(|w.challenges| - 1, r, s)])
    else w
  }

  function Step(w: World, ev: Event): World
    requires w.challenges != []
  {
    match ev
    case Begin(call, c, r, a, capacity) => Began(w, call, c, r, a, capacity)
    case Finish(call, fate) => Finished(w, call, fate)
    case Crash(challenge) => w.(challenges := w.challenges + [challenge], latch := None)
    case Admit(c, s, r, a, e, f) => Admitted(w, c, s, r, a, e, f)
  }

  /** Trusted inputs: an admission is given the current challenge and a state that was committed at
      some time, not necessarily the latest. A restart may bring any challenge, an old one included. */
  predicate Trusted(w: World, ev: Event) {
    && w.challenges != []
    && (ev.Admit? ==> ev.c.challenge == w.challenges[|w.challenges| - 1] && ev.s in w.history)
  }

  datatype Outcomes = Possible(world: World) | Impossible

  /** The world after a run of trusted events. */
  function Run(initial: State, challenge: U64, events: seq<Event>): Outcomes
    decreases events
  {
    if events == [] then Possible(World(initial, [], map[], [], [challenge], None, []))
    else
      var front, last := Run(initial, challenge, events[..|events| - 1]), events[|events| - 1];
      if front.Impossible? || !Trusted(front.world, last) then Impossible
      else Possible(Step(front.world, last))
  }

  /** An uninterrupted transaction is a load step followed by a commit step. */
  lemma TransactIsBeginFinish(w: World, call: nat, c: Context, r: Request, a: Access, capacity: bool, fate: Fate)
    requires call !in w.calls
    ensures var w' := Finished(Began(w, call, c, r, a, capacity), call, fate);
      var (result, record) := Transacted(w.record, true, c, r, a, capacity, None, fate);
      && w'.record == record
      && w'.answers == w.answers + if result.Ok? then [Answer(r, result.value)] else []
  {
    assert w.answers + [] == w.answers;
  }

  // ---- What every run keeps ----

  /** The state a committed state was built on. */
  function Base(initial: State, history: seq<State>, k: nat): State
    requires k <= |history|
  {
    if k == 0 then initial else history[k - 1]
  }

  predicate Follows(s: State, t: State) {
    t.last.Some? && Enabled(s, t.last.value) && t == Effect(s, t.last.value)
  }

  predicate Link(initial: State, history: seq<State>, k: nat)
    requires k < |history|
  {
    Follows(Base(initial, history, k), history[k])
  }

  /** Each committed state is the effect of one request on the one before. */
  ghost predicate Chain(initial: State, history: seq<State>) {
    forall k :: 0 <= k < |history| ==> Link(initial, history, k)
  }

  /** The request's effect is durable and its outcome is this one. */
  ghost predicate Durable(history: seq<State>, r: Request, o: Outcome) {
    exists k :: 0 <= k < |history| && history[k].last == Some(r) && o == OutcomeOf(history[k])
  }

  predicate Decided(k: Call) {
    Follows(k.before, k.after) && k.after.last == Some(k.request)
  }

  ghost predicate StoreInv(w: World, initial: State) {
    && Chain(initial, w.history)
    && w.record == Base(initial, w.history, |w.history|)
    && (forall id :: id in w.calls ==> Decided(w.calls[id]))
    && (forall k :: 0 <= k < |w.answers| ==> Durable(w.history, w.answers[k].request, w.answers[k].outcome))
  }

  lemma DurableGrows(history: seq<State>, t: State, r: Request, o: Outcome)
    requires Durable(history, r, o)
    ensures Durable(history + [t], r, o)
  {
    var k :| 0 <= k < |history| && history[k].last == Some(r) && o == OutcomeOf(history[k]);
    assert (history + [t])[k] == history[k];
  }

  lemma ChainGrows(initial: State, history: seq<State>, t: State)
    requires Chain(initial, history) && Follows(Base(initial, history, |history|), t)
    ensures Chain(initial, history + [t]) && t in history + [t]
  {
    var h := history + [t];
    assert h[|history|] == t;
    forall k | 0 <= k < |h|
      ensures Link(initial, h, k)
    {
      assert k < |history| ==> Link(initial, history, k);
      assert Base(initial, h, k) == Base(initial, history, k);
    }
  }

  lemma BeganKeeps(w: World, initial: State, call: nat, c: Context, r: Request, a: Access, capacity: bool)
    requires StoreInv(w, initial) && initial.last == None
    ensures StoreInv(Began(w, call, c, r, a, capacity), initial)
  {
    PrepareDecides(c, w.record, r, a, capacity);
    hide Prepare, Authorized, Enabled;
    var w' := Began(w, call, c, r, a, capacity);
    if w'.answers != w.answers {
      assert w.history != [];
      assert w.history[|w.history| - 1] == w.record;
    }
  }

  lemma FinishedKeeps(w: World, initial: State, call: nat, fate: Fate)
    requires StoreInv(w, initial)
    ensures StoreInv(Finished(w, call, fate), initial)
  {
    hide Follows, Chain;
    var w' := Finished(w, call, fate);
    if w'.history != w.history {
      var k := w.calls[call];
      ChainGrows(initial, w.history, k.after);
      forall j | 0 <= j < |w'.answers|
        ensures Durable(w'.history, w'.answers[j].request, w'.answers[j].outcome)
      {
        if j < |w.answers| {
          DurableGrows(w.history, k.after, w.answers[j].request, w.answers[j].outcome);
        } else {
          assert w'.history[|w.history|] == k.after;
        }
      }
    }
  }

  lemma {:induction false} RunKeeps(initial: State, challenge: U64, events: seq<Event>)
    requires initial.last == None && Run(initial, challenge, events).Possible?
    ensures StoreInv(Run(initial, challenge, events).world, initial)
    decreases events
  {
    if events != [] {
      hide StoreInv, Began, Finished, Admitted, Trusted;
      RunKeeps(initial, challenge, events[..|events| - 1]);
      var w := Run(initial, challenge, events[..|events| - 1]).world;
      match events[|events| - 1]
      case Begin(call, c, r, a, capacity) => BeganKeeps(w, initial, call, c, r, a, capacity);
      case Finish(call, fate) => FinishedKeeps(w, initial, call, fate);
      case Crash(x) => OnlyStore(w, Step(w, Crash(x)), initial);
      case Admit(c, s, r, a, e, f) => AdmittedIsApart(w, c, s, r, a, e, f, initial);
    }
  }

  lemma OnlyStore(w: World, v: World, initial: State)
    requires StoreInv(w, initial)
    requires w.record == v.record && w.history == v.history && w.calls == v.calls && w.answers == v.answers
    ensures StoreInv(v, initial)
  {
  }

  lemma AdmittedIsApart(
    w: World, c: Context, s: State, r: Request, a: Access, e: Enrollment, f: BootEvidence, initial: State)
    requires StoreInv(w, initial) && w.challenges != []
    ensures StoreInv(Admitted(w, c, s, r, a, e, f), initial)
  {
    OnlyStore(w, Admitted(w, c, s, r, a, e, f), initial);
  }

  /** Positions in the history determine sequence and revision. */
  lemma {:induction false} ChainCounts(initial: State, history: seq<State>, k: nat)
    requires initial.last == None && Chain(initial, history) && k <= |history|
    ensures Sequence(Base(initial, history, k)) == k
    ensures Base(initial, history, k).revision == initial.revision + k
  {
    if k > 0 {
      ChainCounts(initial, history, k - 1);
      assert Link(initial, history, k - 1);
    }
  }

  lemma SameRequestSamePosition(initial: State, history: seq<State>, j: nat, k: nat)
    requires initial.last == None && Chain(initial, history) && j < |history| && k < |history|
    requires history[j].last == history[k].last
    ensures j == k
  {
    ChainCounts(initial, history, j + 1);
    ChainCounts(initial, history, k + 1);
  }

  /** Exactly-once: over every interleaving of callers, retries and commits that fail uncertainly,
      no request takes effect twice, any two Ok answers to the same request are the same outcome,
      every Ok answer's effect is in the durable history, and the record's growth since the start
      is the latest sequence number, which is the number of effects. */
  lemma ExactlyOnce(initial: State, challenge: U64, events: seq<Event>)
    requires initial.last == None && Run(initial, challenge, events).Possible?
    ensures var w := Run(initial, challenge, events).world;
      && (forall j, k :: 0 <= j < k < |w.history| ==> w.history[j].last != w.history[k].last)
      && (forall j, k :: 0 <= j < k < |w.answers| && w.answers[j].request == w.answers[k].request ==>
            w.answers[j].outcome == w.answers[k].outcome)
      && (forall k :: 0 <= k < |w.answers| ==> Durable(w.history, w.answers[k].request, w.answers[k].outcome))
      && w.record == Base(initial, w.history, |w.history|)
      && w.record.revision - initial.revision == Sequence(w.record) == |w.history|
  {
    hide Run, Follows, Chain;
    RunKeeps(initial, challenge, events);
    var w := Run(initial, challenge, events).world;
    ChainCounts(initial, w.history, |w.history|);
    forall j, k | 0 <= j < k < |w.history|
      ensures w.history[j].last != w.history[k].last
    {
      if w.history[j].last == w.history[k].last {
        SameRequestSamePosition(initial, w.history, j, k);
      }
    }
    forall j, k | 0 <= j < k < |w.answers| && w.answers[j].request == w.answers[k].request
      ensures w.answers[j].outcome == w.answers[k].outcome
    {
      var r := w.answers[j].request;
      var a :| 0 <= a < |w.history| && w.history[a].last == Some(r) && w.answers[j].outcome == OutcomeOf(w.history[a]);
      var b :| 0 <= b < |w.history| && w.history[b].last == Some(r) && w.answers[k].outcome == OutcomeOf(w.history[b]);
      SameRequestSamePosition(initial, w.history, a, b);
    }
  }

  /** One at a time, in some order: the state after a list of requests, if each is enabled in turn. */
  function Sequentially(s: State, requests: seq<Request>): Option<State>
    decreases requests
  {
    if requests == [] then Some(s)
    else
      var p := Sequentially(s, requests[..|requests| - 1]);
      var r := requests[|requests| - 1];
      if p.Some? && Enabled(p.value, r) then Some(Effect(p.value, r)) else None
  }

  ghost function Requests(history: seq<State>): seq<Request>
    requires forall k :: 0 <= k < |history| ==> history[k].last.Some?
  {
    seq(|history|, k requires 0 <= k < |history| => history[k].last.value)
  }

  lemma {:induction false} ChainIsSequential(initial: State, history: seq<State>)
    requires Chain(initial, history)
    ensures forall k :: 0 <= k < |history| ==> history[k].last.Some?
    ensures Sequentially(initial, Requests(history)) == Some(Base(initial, history, |history|))
    decreases history
  {
    hide Enabled, Effect;
    assert forall k :: 0 <= k < |history| ==> Link(initial, history, k) && history[k].last.Some?;
    if history != [] {
      var front, n := history[..|history| - 1], |history| - 1;
      forall k | 0 <= k < |front|
        ensures Link(initial, front, k)
      {
        assert Link(initial, history, k);
        assert Base(initial, front, k) == Base(initial, history, k);
      }
      ChainIsSequential(initial, front);
      assert Requests(history)[..n] == Requests(front);
      assert Base(initial, front, n) == Base(initial, history, n);
      assert Link(initial, history, n);
    }
  }

  /** The record is what its committed requests give one at a time: the run is linearizable. */
  lemma Linearizable(initial: State, challenge: U64, events: seq<Event>)
    requires initial.last == None && Run(initial, challenge, events).Possible?
    ensures var w := Run(initial, challenge, events).world;
      && (forall k :: 0 <= k < |w.history| ==> w.history[k].last.Some?)
      && Sequentially(initial, Requests(w.history)) == Some(w.record)
  {
    RunKeeps(initial, challenge, events);
    ChainIsSequential(initial, Run(initial, challenge, events).world.history);
  }

  // ---- The boot chain ----

  /** Boot numbers never go down along the history. */
  lemma {:induction false} BootsGrow(initial: State, history: seq<State>, j: nat, k: nat)
    requires Chain(initial, history) && j <= k <= |history|
    ensures Base(initial, history, j).boot <= Base(initial, history, k).boot
    decreases k - j
  {
    if j < k {
      BootsGrow(initial, history, j, k - 1);
      assert Link(initial, history, k - 1);
    }
  }

  lemma LaterReservation(initial: State, history: seq<State>, j: nat, k: nat)
    requires Chain(initial, history) && j < k < |history|
    requires history[k].last.Some? && history[k].last.value.operation == ReserveBoot
    ensures history[j].boot < history[k].boot
  {
    BootsGrow(initial, history, j + 1, k);
    assert Link(initial, history, k);
  }

  /** Two committed reservations have the same boot number exactly when they are the same request. */
  lemma SameBootSameReservation(initial: State, history: seq<State>, s: State, t: State)
    requires initial.last == None && Chain(initial, history) && s in history && t in history
    requires s.last.Some? && s.last.value.operation == ReserveBoot
    requires t.last.Some? && t.last.value.operation == ReserveBoot
    ensures s.boot == t.boot <==> s.last == t.last
  {
    var j :| 0 <= j < |history| && history[j] == s;
    var k :| 0 <= k < |history| && history[k] == t;
    if j < k {
      LaterReservation(initial, history, j, k);
    } else if k < j {
      LaterReservation(initial, history, k, j);
    }
    if s.last == t.last {
      SameRequestSamePosition(initial, history, j, k);
    }
  }

  ghost predicate Admits(w: World, m: Admission) {
    && m.epoch < |w.challenges| && m.state in w.history
    && m.state.last == Some(m.request) && m.request.operation == ReserveBoot
    && m.request.attempt == w.challenges[m.epoch] && m.state.boot != 0
  }

  ghost predicate BootInv(w: World) {
    && w.challenges != []
    && (forall k :: 0 <= k < |w.admissions| ==> Admits(w, w.admissions[k]))
    && (forall j, k :: 0 <= j < k < |w.admissions| ==> w.admissions[j].epoch < w.admissions[k].epoch)
    && (w.latch.None? ==> forall k :: 0 <= k < |w.admissions| ==> w.admissions[k].epoch < |w.challenges| - 1)
    && (w.latch.Some? ==> w.admissions != [] && var m := w.admissions[|w.admissions| - 1];
          m.epoch == |w.challenges| - 1 && w.latch == Some(m.state.boot))
  }

  lemma BootStep(w: World, ev: Event)
    requires BootInv(w) && Trusted(w, ev)
    ensures BootInv(Step(w, ev))
  {
    hide BootInv, Began, Finished, Admitted;
    match ev
    case Begin(call, c, r, a, capacity) =>
      BeganApart(w, call, c, r, a, capacity);
      StoreApart(w, Step(w, ev));
    case Finish(call, fate) =>
      FinishedApart(w, call, fate);
      StoreApart(w, Step(w, ev));
    case Crash(x) => BootCrash(w, x);
    case Admit(c, s, r, a, e, f) => BootAdmit(w, c, s, r, a, e, f);
  }

  lemma BeganApart(w: World, call: nat, c: Context, r: Request, a: Access, capacity: bool)
    ensures var v := Began(w, call, c, r, a, capacity); v == w.(answers := v.answers, calls := v.calls)
  {
    hide Prepare;
  }

  lemma FinishedApart(w: World, call: nat, fate: Fate)
    ensures var v := Finished(w, call, fate);
      && v == w.(answers := v.answers, calls := v.calls, record := v.record, history := v.history)
      && w.history <= v.history
  {
  }

  /** The store's own steps leave the boot chain alone. */
  lemma StoreApart(w: World, v: World)
    requires BootInv(w) && v == w.(answers := v.answers, calls := v.calls, record := v.record, history := v.history)
    requires w.history <= v.history
    ensures BootInv(v)
  {
    forall k | 0 <= k < |v.admissions|
      ensures Admits(v, v.admissions[k])
    {
      assert Admits(w, w.admissions[k]);
    }
  }

  lemma BootCrash(w: World, challenge: U64)
    requires BootInv(w) && Trusted(w, Crash(challenge))
    ensures BootInv(Step(w, Crash(challenge)))
  {
    var v := Step(w, Crash(challenge));
    forall k | 0 <= k < |v.admissions|
      ensures Admits(v, v.admissions[k])
    {
      assert Admits(w, w.admissions[k]);
    }
  }

  lemma BootAdmit(w: World, c: Context, s: State, r: Request, a: Access, e: Enrollment, f: BootEvidence)
    requires BootInv(w) && Trusted(w, Admit(c, s, r, a, e, f))
    ensures BootInv(Admitted(w, c, s, r, a, e, f))
  {
    hide Authorized;
    var v := Admitted(w, c, s, r, a, e, f);
    forall k | 0 <= k < |v.admissions|
      ensures Admits(v, v.admissions[k])
    {
      assert k < |w.admissions| ==> Admits(w, w.admissions[k]);
    }
  }

  lemma {:induction false} BootRuns(initial: State, challenge: U64, events: seq<Event>)
    requires Run(initial, challenge, events).Possible?
    ensures BootInv(Run(initial, challenge, events).world)
    decreases events
  {
    if events != [] {
      hide BootInv, Step;
      var front := events[..|events| - 1];
      BootRuns(initial, challenge, front);
      BootStep(Run(initial, challenge, front).world, events[|events| - 1]);
    }
  }

  /** Over every run, challenges repeated or not: two successful admissions return the same boot number
      exactly when they admit the same reservation, and then they were given the same challenge. */
  lemma SameBootSameAdmission(initial: State, challenge: U64, events: seq<Event>, j: nat, k: nat)
    requires initial.last == None && Run(initial, challenge, events).Possible?
    requires var n := |Run(initial, challenge, events).world.admissions|; j < n && k < n
    ensures var w := Run(initial, challenge, events).world; var m, m' := w.admissions[j], w.admissions[k];
      && (m.state.boot == m'.state.boot <==> m.request == m'.request)
      && m.epoch < |w.challenges| && m'.epoch < |w.challenges|
      && (m.state.boot == m'.state.boot ==> w.challenges[m.epoch] == w.challenges[m'.epoch])
  {
    hide Run, Chain;
    RunKeeps(initial, challenge, events);
    BootRuns(initial, challenge, events);
    var w := Run(initial, challenge, events).world;
    assert Admits(w, w.admissions[j]) && Admits(w, w.admissions[k]);
    SameBootSameReservation(initial, w.history, w.admissions[j].state, w.admissions[k].state);
  }

  /** When challenges never repeat, no two successful admissions return the same boot number, even when
      one is given an old committed state. */
  lemma BootNumbersUnique(initial: State, challenge: U64, events: seq<Event>, j: nat, k: nat)
    requires initial.last == None && Run(initial, challenge, events).Possible?
    requires Distinct(Run(initial, challenge, events).world.challenges)
    requires j < k < |Run(initial, challenge, events).world.admissions|
    ensures var w := Run(initial, challenge, events).world;
      w.admissions[j].state.boot != w.admissions[k].state.boot
  {
    hide Run;
    BootRuns(initial, challenge, events);
    SameBootSameAdmission(initial, challenge, events, j, k);
  }

  /** The current latch accepts a context saved under an admission exactly when it admitted the same
      reservation itself. */
  lemma SavedContexts(initial: State, challenge: U64, events: seq<Event>, j: nat)
    requires initial.last == None && Run(initial, challenge, events).Possible?
    requires j < |Run(initial, challenge, events).world.admissions|
    ensures var w := Run(initial, challenge, events).world; var last := w.admissions[|w.admissions| - 1];
      Accepts(w.latch, w.admissions[j].state.boot) <==> w.latch.Some? && w.admissions[j].request == last.request
  {
    hide Run;
    BootRuns(initial, challenge, events);
    var w := Run(initial, challenge, events).world;
    assert Admits(w, w.admissions[j]);
    SameBootSameAdmission(initial, challenge, events, j, |w.admissions| - 1);
  }

  /** Hence, when challenges never repeat, exactly in its own epoch: contexts saved before a crash are
      never accepted after it. */
  lemma SavedContextsExpire(initial: State, challenge: U64, events: seq<Event>, j: nat)
    requires initial.last == None && Run(initial, challenge, events).Possible?
    requires Distinct(Run(initial, challenge, events).world.challenges)
    requires j < |Run(initial, challenge, events).world.admissions|
    ensures var w := Run(initial, challenge, events).world;
      Accepts(w.latch, w.admissions[j].state.boot) <==> w.admissions[j].epoch == |w.challenges| - 1
  {
    hide Run;
    BootRuns(initial, challenge, events);
    SavedContexts(initial, challenge, events, j);
    var w := Run(initial, challenge, events).world;
    var last := |w.admissions| - 1;
    if w.latch.Some? && j < last {
      BootNumbersUnique(initial, challenge, events, j, last);
      SameBootSameAdmission(initial, challenge, events, j, last);
    }
  }

  // ---- A challenge used twice ----

  const CONTEXT := Context(1, 1, 1, 9, 0, true)
  const RESERVATION := Request(1, 1, 1, 1, 1, 1, 0, ReserveBoot, 7, 9)
  const ACCESS := Access(1, 1, 1, 1, 1, ReserveBoot, 0, 1, Valid, Valid)
  const RESERVED := State(1, 7, 1, Some(RESERVATION))
  const ADMIT := Admit(CONTEXT, RESERVED, RESERVATION, ACCESS, Enrollment(1, 1, 1, 1, true), BootEvidence(1, 1, Valid, Valid))

  /** One reservation, an admission, a crash that brings back the same challenge, and an admission. */
  const REPEATED: seq<Event> :=
    [Begin(0, CONTEXT, RESERVATION, ACCESS, true), Finish(0, Applied), ADMIT, Crash(9), ADMIT]

  lemma RunSnoc(initial: State, challenge: U64, front: seq<Event>, last: Event)
    requires var r := Run(initial, challenge, front); r.Possible? && Trusted(r.world, last)
    ensures Run(initial, challenge, front + [last]) == Possible(Step(Run(initial, challenge, front).world, last))
  {
    assert (front + [last])[..|front + [last]| - 1] == front;
  }

  /** The run is possible, both admissions return boot number 1, and the second latch accepts a context
      saved under the first. */
  lemma RepeatedChallengeRepeatsBoot()
    ensures var r := Run(State(0, 7, 0, None), 9, REPEATED);
      && r.Possible? && r.world.challenges == [9, 9]
      && r.world.admissions == [Admission(0, RESERVATION, RESERVED), Admission(1, RESERVATION, RESERVED)]
      && Accepts(r.world.latch, r.world.admissions[0].state.boot)
  {
    hide Run, Began, Finished, Admitted, Trusted;
    var initial := State(0, 7, 0, None);
    ReservedRun(initial);
    var w := Run(initial, 9, [REPEATED[0], REPEATED[1]]).world;
    AdmitStep(w);
    RunSnoc(initial, 9, [REPEATED[0], REPEATED[1]], ADMIT);
    var v := Step(w, ADMIT);
    CrashTrusted(v);
    RunSnoc(initial, 9, [REPEATED[0], REPEATED[1]] + [ADMIT], Crash(9));
    AdmitStep(Step(v, Crash(9)));
    RunSnoc(initial, 9, [REPEATED[0], REPEATED[1]] + [ADMIT] + [Crash(9)], ADMIT);
    assert REPEATED == [REPEATED[0], REPEATED[1]] + [ADMIT] + [Crash(9)] + [ADMIT];
  }

  lemma ReservedRun(initial: State)
    requires initial == State(0, 7, 0, None)
    ensures var r := Run(initial, 9, [REPEATED[0], REPEATED[1]]);
      r.Possible? && r.world.history == [RESERVED] && r.world.challenges == [9] && r.world.latch == None && r.world.admissions == []
  {
    var w := World(initial, [], map[], [], [9], None, []);
    assert Run(initial, 9, []) == Possible(w);
    hide Run;
    RunSnoc(initial, 9, [], REPEATED[0]);
    assert Step(w, REPEATED[0]) == w.(calls := map[0 := Call(RESERVATION, initial, RESERVED)]);
    RunSnoc(initial, 9, [] + [REPEATED[0]], REPEATED[1]);
    assert [] + [REPEATED[0]] + [REPEATED[1]] == [REPEATED[0], REPEATED[1]];
  }

  lemma AdmitStep(w: World)
    requires w.challenges != [] && w.challenges[|w.challenges| - 1] == 9 && w.latch == None && RESERVED in w.history
    ensures Trusted(w, ADMIT)
    ensures Step(w, ADMIT) == w.(latch := Some(1), admissions := w.admissions + [Admission(|w.challenges| - 1, RESERVATION, RESERVED)])
  {
  }

  lemma CrashTrusted(w: World)
    requires w.challenges != []
    ensures Trusted(w, Crash(9))
  {
  }
}
