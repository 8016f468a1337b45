/** The search-sync wait groups of hoodie/sync.py as a transition system.

    asyncio runs one task at a time, so the code between two `await`s is one atomic step.  A run is a
    sequence of such steps; every lemma that speaks of `Execute(INITIAL, steps)` speaks of every run. */
module SearchSync {

  type DocId = nat
  type GroupId = nat

  /** The position in the event log at which an entry was registered.  It stands for the identity of
      the entry object and of the future created for it: both are made by that registration. */
  type Ticket = nat

  datatype Kind = Write | Delete

  datatype Key = Key(index: string, kind: Kind)

  /** What a future holds.  `at` is the position of the event that resolved it. */
  datatype Status = Waiting | Settled(at: nat) | TimedOut(at: nat) | Failed(at: nat) | Abandoned

  /** `NeverStarted` is a task cancelled before its first step: its coroutine is not entered, not even for the
      `finally` that takes the group out of the registry. */
  datatype Ending = AllSettled | BudgetSpent | Crashed | Killed | NeverStarted

  /** Where the polling task stands.  `Idle` is a group whose task was not created yet. */
  datatype Phase =
    | Idle
    | Scheduled
    | InFlight(attempt: int, budget: int, sentAt: nat, snapshot: map<DocId, Ticket>)
    | Sleeping(attempt: int, budget: int)
    | Done(ending: Ending)

  datatype Group = Group(
    key: Key,
    pending: map<DocId, Ticket>,
    waiters: map<DocId, seq<Ticket>>,
    phase: Phase,
    total: nat)

  type Futures = map<Ticket, Status>

  datatype Event =
    | Registered(group: GroupId, doc: DocId)
    | Dispatched(group: GroupId, attempt: int, snapshot: map<DocId, Ticket>)
    | Answered(group: GroupId, sentAt: nat, matched: set<DocId>)
    | Decided(group: GroupId)
    | WaiterCancelled(ticket: Ticket)

  datatype System = System(
    groups: seq<Group>,
    registry: map<Key, GroupId>,
    futures: Futures,
    log: seq<Event>)

  const INITIAL := System([], map[], map[], [])

  // ---- One group -------------------------------------------------------------------------------

  function NewGroup(key: Key): Group {
    Group(key, map[], map[], Idle, 0)
  }

  /** The futures after `_resolve` ran for every document in `docs`. */
  function ResolveDocs(futures: Futures, waiters: map<DocId, seq<Ticket>>, docs: set<DocId>, status: Status): Futures {
    map t | t in futures ::
      if futures[t].Waiting? && exists d :: d in docs && d in waiters && t in waiters[d] then status else futures[t]
  }

  function Enrol(g: Group, doc: DocId, ticket: Ticket): Group {
    g.(pending := g.pending[doc := ticket],
       waiters := g.waiters[doc := (if doc in g.waiters then g.waiters[doc] else []) + [ticket]],
       phase := if g.phase.Idle? then Scheduled else g.phase,
       total := g.total + 1)
  }

  /** The budget is spent: every pending document's waiters get the "never settled" error. */
  function Expire(g: Group, futures: Futures, at: nat): (Group, Futures) {
    (g.(pending := map[], waiters := g.waiters - g.pending.Keys, phase := Done(BudgetSpent)),
     ResolveDocs(futures, g.waiters, g.pending.Keys, TimedOut(at)))
  }

  /** An exception escaped the poll loop: every waiter gets it. */
  function Crash(g: Group, futures: Futures, at: nat): (Group, Futures) {
    (g.(waiters := map[], phase := Done(Crashed)), ResolveDocs(futures, g.waiters, g.waiters.Keys, Failed(at)))
  }

  /** One more round of `poll_until`: `_tick` up to its query. */
  function Dispatch(g: Group, attempt: int, budget: int, now: nat): Group {
    if g.pending == map[] then g.(phase := Done(AllSettled))
    else g.(phase := InFlight(attempt, budget, now, g.pending))
  }

  function SettledIds(kind: Kind, snapshot: map<DocId, Ticket>, matched: set<DocId>): set<DocId> {
    if kind.Write? then matched else snapshot.Keys - matched
  }

  /** How many ids of `order` are handled before one is missing from the snapshot, which raises. */
  function KnownPrefix(order: seq<DocId>, snapshot: map<DocId, Ticket>): (n: nat)
    ensures n <= |order|
    ensures forall i :: 0 <= i < n ==> order[i] in snapshot
    ensures n < |order| ==> order[n] !in snapshot
  {
    if order == [] || order[0] !in snapshot then 0 else 1 + KnownPrefix(order[1..], snapshot)
  }

  /** The ids whose pending entry is still the one the query was sent for. */
  function Credited(pending: map<DocId, Ticket>, snapshot: map<DocId, Ticket>, ids: seq<DocId>): set<DocId> {
    set d | d in ids && d in snapshot && d in pending && pending[d] == snapshot[d]
  }

  function CreditedBy(group: Group, order: seq<DocId>): set<DocId>
    requires group.phase.InFlight?
  {
    Credited(group.pending, group.phase.snapshot, order[..KnownPrefix(order, group.phase.snapshot)])
  }

  /** `_tick` after its query: the credited documents leave the group. */
  function Credit(g: Group, futures: Futures, order: seq<DocId>, at: nat): (Group, Futures)
    requires g.phase.InFlight?
  {
    var docs := CreditedBy(g, order);
    (g.(pending := g.pending - docs, waiters := g.waiters - docs), ResolveDocs(futures, g.waiters, docs, Settled(at)))
  }

  /** An id outside the snapshot raises out of `_tick`; otherwise `poll_until` stops, sleeps or gives up. */
  function Decide(g: Group, futures: Futures, raised: bool, at: nat): (Group, Futures)
    requires g.phase.InFlight?
  {
    if raised then Crash(g, futures, at)
    else if g.pending == map[] then (g.(phase := Done(AllSettled)), futures)
    else if g.phase.attempt < g.phase.budget then (g.(phase := Sleeping(g.phase.attempt, g.phase.budget)), futures)
    else Expire(g, futures, at)
  }

  // ---- The system ------------------------------------------------------------------------------

  datatype Step =
    | Register(key: Key, doc: DocId)
    | Start(group: GroupId, budget: int)
    | Return(group: GroupId, matched: set<DocId>, order: seq<DocId>)
    | Wake(group: GroupId)
    | Raise(group: GroupId)
    | KillTask(group: GroupId)
    | CancelWaiter(ticket: Ticket)

  predicate Live(g: Group) {
    !g.phase.Done? && !g.phase.Idle?
  }

  /** A group that new registrations may still join. */
  predicate Enlisted(g: Group) {
    Live(g) || g.phase == Done(NeverStarted)
  }

  predicate Enabled(s: System, step: Step) {
    match step
    case Register(_, _) => true
    case Start(g, _) => g < |s.groups| && s.groups[g].phase.Scheduled?
    case Return(g, matched, order) =>
      && g < |s.groups|
      && s.groups[g].phase.InFlight?
      && (set d | d in order) == SettledIds(s.groups[g].key.kind, s.groups[g].phase.snapshot, matched)
    case Wake(g) => g < |s.groups| && s.groups[g].phase.Sleeping?
    case Raise(g) => g < |s.groups| && Live(s.groups[g])
    case KillTask(g) => g < |s.groups| && Live(s.groups[g])
    case CancelWaiter(t) => t in s.futures && s.futures[t].Waiting?
  }

  /** Store a group's new state; a group whose coroutine ends leaves the registry. */
  function Put(s: System, g: GroupId, g': Group, futures: Futures, event: Event): System
    requires g < |s.groups|
  {
    System(s.groups[g := g'],
           if g'.phase.Done? && g'.phase.ending != NeverStarted then s.registry - {g'.key} else s.registry,
           futures,
           s.log + [event])
  }

  function WithGroup(s: System, key: Key): System {
    if key in s.registry then s
    else s.(groups := s.groups + [NewGroup(key)], registry := s.registry[key := |s.groups|])
  }

  function RegisterStep(s: System, key: Key, doc: DocId): System {
    var s0 := WithGroup(s, key);
    var g := s0.registry[key];
    var t := |s.log|;
    if g < |s0.groups| then
      Put(s0, g, Enrol(s0.groups[g], doc, t), s0.futures[t := Waiting], Registered(g, doc))
    else s
  }

  function PollStep(s: System, g: GroupId, attempt: int, budget: int): System
    requires g < |s.groups|
  {
    Put(s, g, Dispatch(s.groups[g], attempt, budget, |s.log|), s.futures, Dispatched(g, attempt, s.groups[g].pending))
  }

  function CreditStep(s: System, g: GroupId, matched: set<DocId>, order: seq<DocId>): System
    requires g < |s.groups| && s.groups[g].phase.InFlight?
  {
    var (g', futures') := Credit(s.groups[g], s.futures, order, |s.log|);
    Put(s, g, g', futures', Answered(g, s.groups[g].phase.sentAt, matched))
  }

  function DecideStep(s: System, g: GroupId, raised: bool): System
    requires g < |s.groups| && s.groups[g].phase.InFlight?
  {
    var (g', futures') := Decide(s.groups[g], s.futures, raised, |s.log|);
    Put(s, g, g', futures', Decided(g))
  }

  function Next(s: System, step: Step): System {
    if !Enabled(s, step) then s else
      match step
      case Register(key, doc) => RegisterStep(s, key, doc)
      case Start(g, budget) =>
        if budget < 1 then
          var (g', futures') := Expire(s.groups[g], s.futures, |s.log|);
          Put(s, g, g', futures', Decided(g))
        else PollStep(s, g, 1, budget)
      case Return(g, matched, order) =>
        var raised := KnownPrefix(order, s.groups[g].phase.snapshot) < |order|;
        DecideStep(CreditStep(s, g, matched, order), g, raised)
      case Wake(g) => PollStep(s, g, s.groups[g].phase.attempt + 1, s.groups[g].phase.budget)
      case Raise(g) =>
        var (g', futures') := Crash(s.groups[g], s.futures, |s.log|);
        Put(s, g, g', futures', Decided(g))
      case KillTask(g) =>
        var ending := if s.groups[g].phase.Scheduled? then NeverStarted else Killed;
        Put(s, g, s.groups[g].(phase := Done(ending)), s.futures, Decided(g))
      case CancelWaiter(t) => s.(futures := s.futures[t := Abandoned], log := s.log + [WaiterCancelled(t)])
  }

  function Execute(s: System, steps: seq<Step>): System
    decreases |steps|
  {
    if steps == [] then s
    else Next(Execute(s, steps[..|steps| - 1]), steps[|steps| - 1])
  }

  // ---- The class -------------------------------------------------------------------------------

  lemma ResolveCompose(futures: Futures, waiters: map<DocId, seq<Ticket>>, a: set<DocId>, b: set<DocId>, status: Status)
    requires !status.Waiting?
    ensures ResolveDocs(ResolveDocs(futures, waiters, a, status), waiters - a, b, status)
         == ResolveDocs(futures, waiters, a + b, status)
  {
    var once := ResolveDocs(futures, waiters, a, status);
    var left, right := ResolveDocs(once, waiters - a, b, status), ResolveDocs(futures, waiters, a + b, status);
    assert left.Keys == right.Keys;
    forall t | t in futures ensures left[t] == right[t] {
      if right[t] != futures[t] {
        var d :| d in a + b && d in waiters && t in waiters[d];
        assert d !in a ==> d in b && d in (waiters - a);
      }
    }
  }

  /** Crediting one more id, from what the ids before it left pending. */
  lemma CreditedSnoc(pending: map<DocId, Ticket>, snapshot: map<DocId, Ticket>, order: seq<DocId>, i: nat)
    requires i < |order|
    ensures var done := Credited(pending, snapshot, order[..i]);
      Credited(pending, snapshot, order[..i + 1]) == done + Credited(pending - done, snapshot, [order[i]])
  {
    assert order[..i + 1] == order[..i] + [order[i]];
  }

  /** The part of asyncio the wait groups use: the futures, and a clock that counts events. */
  class EventLoop {
    var futures: Futures
    var clock: nat

    constructor ()
      ensures futures == map[] && clock == 0
    {
      futures, clock := map[], 0;
    }

    /** `Future.set_result` raises on a future that is done already. */
    method SetResult(ticket: Ticket, status: Status)
      requires ticket in futures && futures[ticket].Waiting?
      modifies this`futures
      ensures futures == old(futures)[ticket := status]
    {
      futures := futures[ticket := status];
    }
  }

  class WaitGroup {
    const key: Key
    const loop: EventLoop
    var pending: map<DocId, Ticket>
    var waiters: map<DocId, seq<Ticket>>
    var phase: Phase
    var total: nat

    ghost function Value(): Group
      reads this
    {
      Group(key, pending, waiters, phase, total)
    }

    /** Every listed waiter is a future of the loop, and the clock is ahead of all of them. */
    ghost predicate Valid()
      reads this, loop
    {
      && (forall d, i :: d in waiters && 0 <= i < |waiters[d]| ==> waiters[d][i] in loop.futures)
      && (forall t :: t in loop.futures ==> t < loop.clock)
    }

    constructor (key: Key, loop: EventLoop)
      requires forall t :: t in loop.futures ==> t < loop.clock
      ensures this.key == key && this.loop == loop && Value() == NewGroup(key) && Valid()
    {
      this.key, this.loop := key, loop;
      pending, waiters, phase, total := map[], map[], Idle, 0;
    }

    method Register(doc: DocId) returns (ticket: Ticket)
      requires Valid()
      modifies this, loop
      ensures Valid() && ticket == old(loop.clock) && loop.clock == old(loop.clock) + 1
      ensures Value() == Enrol(old(Value()), doc, ticket)
      ensures loop.futures == old(loop.futures)[ticket := Waiting]
    {
      ticket := loop.clock;
      loop.futures := loop.futures[ticket := Waiting];
      loop.clock := loop.clock + 1;
      pending := pending[doc := ticket];
      waiters := waiters[doc := (if doc in waiters then waiters[doc] else []) + [ticket]];
      total := total + 1;
      if phase.Idle? {
        phase := Scheduled;
      }
    }

    /** Pop the document's waiters and hand each one that is not done yet the result. */
    method Resolve(doc: DocId, status: Status)
      requires Valid() && !status.Waiting?
      modifies this`waiters, loop`futures
      ensures Valid()
      ensures waiters == old(waiters) - {doc}
      ensures loop.futures == ResolveDocs(old(loop.futures), old(waiters), {doc}, status)
    {
      if doc !in waiters {
        assert loop.futures == ResolveDocs(old(loop.futures), old(waiters), {doc}, status);
        return;
      }
      var popped := waiters[doc];
      waiters := waiters - {doc};
      var i := 0;
      while i < |popped|
        invariant 0 <= i <= |popped|
        invariant loop.futures.Keys == old(loop.futures).Keys
        invariant waiters == old(waiters) - {doc}
        invariant forall t :: t in loop.futures ==>
          loop.futures[t] == if old(loop.futures)[t].Waiting? && t in popped[..i] then status else old(loop.futures)[t]
      {
        if loop.futures[popped[i]].Waiting? {
          loop.SetResult(popped[i], status);
        }
        i := i + 1;
      }
      assert popped[..i] == popped;
    }

    /** Resolve the waiters of every document in `docs`. */
    method ResolveEach(docs: set<DocId>, status: Status)
      requires Valid() && !status.Waiting?
      modifies this`waiters, loop`futures
      ensures Valid()
      ensures waiters == old(waiters) - docs
      ensures loop.futures == ResolveDocs(old(loop.futures), old(waiters), docs, status)
    {
      var todo := docs;
      assert loop.futures == ResolveDocs(old(loop.futures), old(waiters), {}, status);
      while todo != {}
        invariant Valid() && todo <= docs
        invariant waiters == old(waiters) - (docs - todo)
        invariant loop.futures == ResolveDocs(old(loop.futures), old(waiters), docs - todo, status)
      {
        var doc :| doc in todo;
        ResolveCompose(old(loop.futures), old(waiters), docs - todo, {doc}, status);
        Resolve(doc, status);
        assert docs - todo + {doc} == docs - (todo - {doc});
        todo := todo - {doc};
      }
      assert docs - todo == docs;
    }

    /** The poll loop gave up. */
    method GiveUp()
      requires Valid()
      modifies this, loop`futures
      ensures Valid()
      ensures (Value(), loop.futures) == Expire(old(Value()), old(loop.futures), loop.clock)
    {
      ResolveEach(pending.Keys, TimedOut(loop.clock));
      pending := map[];
      phase := Done(BudgetSpent);
    }

    /** `_run` caught an exception. */
    method FailEveryone()
      requires Valid()
      modifies this, loop`futures
      ensures Valid()
      ensures (Value(), loop.futures) == Crash(old(Value()), old(loop.futures), loop.clock)
    {
      ResolveEach(waiters.Keys, Failed(loop.clock));
      phase := Done(Crashed);
    }

    /** One turn of `poll_until`: the snapshot is taken, and the query is on its way unless nothing is pending. */
    method Poll(attempt: int, budget: int)
      modifies this
      ensures Value() == Dispatch(old(Value()), attempt, budget, loop.clock)
    {
      if pending == map[] {
        phase := Done(AllSettled);
      } else {
        phase := InFlight(attempt, budget, loop.clock, pending);
      }
    }

    /** One turn of the credit loop. */
    method CreditOne(doc: DocId, snapshot: map<DocId, Ticket>)
      requires Valid() && doc in snapshot
      modifies this`pending, this`waiters, loop`futures
      ensures Valid()
      ensures var done := Credited(old(pending), snapshot, [doc]);
        && pending == old(pending) - done && waiters == old(waiters) - done
        && loop.futures == ResolveDocs(old(loop.futures), old(waiters), done, Settled(loop.clock))
    {
      if doc in pending && pending[doc] == snapshot[doc] {
        assert Credited(pending, snapshot, [doc]) == {doc};
        pending := pending - {doc};
        Resolve(doc, Settled(loop.clock));
      } else {
        assert Credited(pending, snapshot, [doc]) == {};
        assert loop.futures == ResolveDocs(old(loop.futures), old(waiters), {}, Settled(loop.clock));
      }
    }

    /** The credit loop of `_tick`; `order` is the order in which the settled ids come up. */
    method CreditSettled(order: seq<DocId>) returns (raised: bool)
      requires Valid() && phase.InFlight?
      modifies this`pending, this`waiters, loop`futures
      ensures Valid()
      ensures (Value(), loop.futures) == Credit(old(Value()), old(loop.futures), order, loop.clock)
      ensures raised <==> KnownPrefix(order, phase.snapshot) < |order|
    {
      var snapshot := phase.snapshot;
      ghost var n := KnownPrefix(order, snapshot);
      ghost var done: set<DocId> := {};
      var i := 0;
      assert loop.futures == ResolveDocs(old(loop.futures), old(waiters), {}, Settled(loop.clock));
      while i < |order| && order[i] in snapshot
        invariant 0 <= i <= n && Valid() && phase == old(phase) && total == old(total)
        invariant forall j :: 0 <= j < i ==> order[j] in snapshot
        invariant done == Credited(old(pending), snapshot, order[..i])
        invariant pending == old(pending) - done && waiters == old(waiters) - done
        invariant loop.futures == ResolveDocs(old(loop.futures), old(waiters), done, Settled(loop.clock))
      {
        CreditedSnoc(old(pending), snapshot, order, i);
        ghost var more := Credited(pending, snapshot, [order[i]]);
        ResolveCompose(old(loop.futures), old(waiters), done, more, Settled(loop.clock));
        CreditOne(order[i], snapshot);
        done := done + more;
        i := i + 1;
      }
      raised := i < |order|;
    }

    /** Everything between the query's answer and the next `await`. */
    method OnAnswer(order: seq<DocId>)
      requires Valid() && phase.InFlight?
      modifies this, loop
      ensures Valid() && loop.clock == old(loop.clock) + 2
      ensures var (g, futures) := Credit(old(Value()), old(loop.futures), order, old(loop.clock));
        (Value(), loop.futures)
        == Decide(g, futures, KnownPrefix(order, old(phase).snapshot) < |order|, old(loop.clock) + 1)
    {
      var raised := CreditSettled(order);
      loop.clock := loop.clock + 1;
      if raised {
        FailEveryone();
      } else if pending == map[] {
        phase := Done(AllSettled);
      } else if phase.attempt < phase.budget {
        phase := Sleeping(phase.attempt, phase.budget);
      } else {
        GiveUp();
      }
      loop.clock := loop.clock + 1;
    }
  }
}
