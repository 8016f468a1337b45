/** All runs of the search-sync wait groups: no waiter is lost and no credit is stale. */
module SearchSyncRuns {
  import opened SearchSync

  // ---- The invariant ---------------------------------------------------------------------------

  /** Ticket `t` is the latest registration of `doc` with group `g`. */
  ghost predicate Latest(log: seq<Event>, g: GroupId, doc: DocId, t: Ticket) {
    && t < |log|
    && log[t] == Registered(g, doc)
    && forall i :: t < i < |log| ==> log[i] != Registered(g, doc)
  }

  ghost predicate PendingOk(log: seq<Event>, g: GroupId, pending: map<DocId, Ticket>) {
    forall d {:trigger Latest(log, g, d, pending[d])} :: d in pending ==> Latest(log, g, d, pending[d])
  }

  ghost predicate WaitersOk(log: seq<Event>, g: GroupId, waiters: map<DocId, seq<Ticket>>) {
    forall d, i :: d in waiters && 0 <= i < |waiters[d]| ==>
      waiters[d][i] < |log| && log[waiters[d][i]] == Registered(g, d)
  }

  ghost predicate FlightOk(log: seq<Event>, g: GroupId, phase: Phase)
    requires phase.InFlight?
  {
    && phase.sentAt < |log|
    && log[phase.sentAt] == Dispatched(g, phase.attempt, phase.snapshot)
    && forall d :: d in phase.snapshot ==> phase.snapshot[d] < phase.sentAt
  }

  ghost predicate GroupOk(log: seq<Event>, registry: map<Key, GroupId>, g: GroupId, group: Group) {
    && !group.phase.Idle?
    && WaitersOk(log, g, group.waiters)
    && (Enlisted(group) ==>
      && group.key in registry
      && registry[group.key] == g
      && group.pending.Keys == group.waiters.Keys
      && PendingOk(log, g, group.pending))
    && (group.phase.Scheduled? || group.phase.Sleeping? ==> group.pending != map[])
    && (group.phase.InFlight? ==> FlightOk(log, g, group.phase))
  }

  /** A waiting future is listed by its live group, or its group's task was cancelled. */
  ghost predicate Looked(groups: seq<Group>, g: GroupId, doc: DocId, t: Ticket) {
    && g < |groups|
    && (if Enlisted(groups[g]) then doc in groups[g].waiters && t in groups[g].waiters[doc]
        else groups[g].phase == Done(Killed))
  }

  /** A credited future: the answer that credited it belongs to a query sent after the future, and
      after the last entry for its document, registered; and that answer settles its document. */
  ghost predicate Fresh(log: seq<Event>, kind: Kind, t: Ticket, at: nat) {
    && t < at < |log|
    && log[t].Registered?
    && log[at].Answered?
    && var g := log[t].group;
    && var sentAt := log[at].sentAt;
    && log[at].group == g
    && t < sentAt < at
    && log[sentAt].Dispatched?
    && log[sentAt].group == g
    && log[t].doc in SettledIds(kind, log[sentAt].snapshot, log[at].matched)
    && forall i :: sentAt <= i < at ==> log[i] != Registered(g, log[t].doc)
  }

  ghost predicate StatusOk(s: System, t: Ticket)
    requires t in s.futures
  {
    && t < |s.log|
    && s.log[t].Registered?
    && s.log[t].group < |s.groups|
    && match s.futures[t]
       case Waiting => Looked(s.groups, s.log[t].group, s.log[t].doc, t)
       case Settled(at) => Fresh(s.log, s.groups[s.log[t].group].key.kind, t, at)
       case TimedOut(_) => s.groups[s.log[t].group].phase == Done(BudgetSpent)
       case Failed(_) => s.groups[s.log[t].group].phase == Done(Crashed)
       case Abandoned => true
  }

  ghost predicate GroupsOk(s: System) {
    forall g {:trigger GroupOk(s.log, s.registry, g, s.groups[g])} ::
      0 <= g < |s.groups| ==> GroupOk(s.log, s.registry, g, s.groups[g])
  }

  ghost predicate EntryOk(s: System, k: Key)
    requires k in s.registry
  {
    s.registry[k] < |s.groups| && s.groups[s.registry[k]].key == k && Enlisted(s.groups[s.registry[k]])
  }

  ghost predicate RegistryOk(s: System) {
    forall k {:trigger EntryOk(s, k)} :: k in s.registry ==> EntryOk(s, k)
  }

  ghost predicate FuturesOk(s: System) {
    forall t {:trigger StatusOk(s, t)} :: t in s.futures ==> StatusOk(s, t)
  }

  ghost predicate TicketsOk(s: System) {
    forall t :: 0 <= t < |s.log| && s.log[t].Registered? ==> t in s.futures
  }

  ghost predicate Inv(s: System) {
    && GroupsOk(s)
    && RegistryOk(s)
    && FuturesOk(s)
    && TicketsOk(s)
  }

  lemma PendingExtends(log: seq<Event>, g: GroupId, pending: map<DocId, Ticket>, e: Event)
    requires PendingOk(log, g, pending)
    requires forall d :: d in pending ==> e != Registered(g, d)
    ensures PendingOk(log + [e], g, pending)
  {
    forall d | d in pending ensures Latest(log + [e], g, d, pending[d]) {
      assert Latest(log, g, d, pending[d]);
    }
  }

  lemma GroupExtends(log: seq<Event>, registry: map<Key, GroupId>, registry': map<Key, GroupId>, g: GroupId, group: Group, e: Event)
    requires GroupOk(log, registry, g, group)
    requires Enlisted(group) ==> group.key in registry' && registry'[group.key] == g
    requires e.Registered? ==> e.group != g
    ensures GroupOk(log + [e], registry', g, group)
  {
    if Enlisted(group) {
      PendingExtends(log, g, group.pending, e);
    }
  }

  lemma FreshExtends(log: seq<Event>, kind: Kind, t: Ticket, at: nat, e: Event)
    requires Fresh(log, kind, t, at)
    ensures Fresh(log + [e], kind, t, at)
  {
    var log' := log + [e];
    assert forall i :: 0 <= i < |log| ==> log'[i] == log[i];
  }

  /** Status facts of a future survive a step of group `g` that leaves this future alone. */
  lemma StatusExtends(s: System, g: GroupId, g': Group, futures': Futures, e: Event, t: Ticket)
    requires g < |s.groups| && Live(s.groups[g]) && g'.key == s.groups[g].key
    requires t in s.futures && t in futures' && futures'[t] == s.futures[t]
    requires StatusOk(s, t)
    requires s.log[t].group == g && s.futures[t].Waiting? ==>
      Looked(Put(s, g, g', futures', e).groups, g, s.log[t].doc, t)
    ensures StatusOk(Put(s, g, g', futures', e), t)
  {
    var s' := Put(s, g, g', futures', e);
    assert s'.log[t] == s.log[t];
    if s.futures[t].Settled? {
      FreshExtends(s.log, s.groups[s.log[t].group].key.kind, t, s.futures[t].at, e);
    }
  }

  lemma PutKeepsGroups(s: System, g: GroupId, g': Group, futures': Futures, e: Event)
    requires GroupsOk(s) && g < |s.groups| && Live(s.groups[g])
    requires g'.key == s.groups[g].key
    requires !e.Registered?
    requires GroupOk(s.log + [e], Put(s, g, g', futures', e).registry, g, g')
    ensures GroupsOk(Put(s, g, g', futures', e))
  {
    var s' := Put(s, g, g', futures', e);
    forall h | 0 <= h < |s'.groups| ensures GroupOk(s'.log, s'.registry, h, s'.groups[h]) {
      if h != g {
        assert GroupOk(s.log, s.registry, g, s.groups[g]);
        assert GroupOk(s.log, s.registry, h, s.groups[h]);
        GroupExtends(s.log, s.registry, s'.registry, h, s.groups[h], e);
      }
    }
  }

  /** What a step of one live group has to show for the futures. */
  ghost predicate Resolves(s: System, s': System, g: GroupId)
  {
    && s'.futures.Keys == s.futures.Keys
    && (forall t :: t in s.futures && s'.futures[t] != s.futures[t] ==> StatusOk(s', t))
    && (forall t :: t in s.futures && s'.futures[t].Waiting? && t < |s.log| && s.log[t].Registered? && s.log[t].group == g ==>
      Looked(s'.groups, g, s.log[t].doc, t))
  }

  lemma PutKeepsFutures(s: System, g: GroupId, g': Group, futures': Futures, e: Event)
    requires FuturesOk(s) && g < |s.groups| && Live(s.groups[g])
    requires g'.key == s.groups[g].key
    requires Resolves(s, Put(s, g, g', futures', e), g)
    ensures FuturesOk(Put(s, g, g', futures', e))
  {
    var s' := Put(s, g, g', futures', e);
    forall t | t in s'.futures ensures StatusOk(s', t) {
      assert t in s.futures && StatusOk(s, t);
      if s'.futures[t] == s.futures[t] {
        StatusExtends(s, g, g', futures', e, t);
      }
    }
  }

  lemma PutKeepsRegistry(s: System, g: GroupId, g': Group, futures': Futures, e: Event)
    requires RegistryOk(s) && g < |s.groups| && GroupOk(s.log, s.registry, g, s.groups[g]) && Live(s.groups[g])
    requires g'.key == s.groups[g].key && !g'.phase.Idle?
    ensures RegistryOk(Put(s, g, g', futures', e))
  {
    var s' := Put(s, g, g', futures', e);
    forall k | k in s'.registry ensures EntryOk(s', k) {
      assert EntryOk(s, k);
    }
  }

  lemma PutKeepsTickets(s: System, g: GroupId, g': Group, futures': Futures, e: Event)
    requires TicketsOk(s) && g < |s.groups| && !e.Registered? && futures'.Keys == s.futures.Keys
    ensures TicketsOk(Put(s, g, g', futures', e))
  {
  }

  lemma PutPreserves(s: System, g: GroupId, g': Group, futures': Futures, e: Event, s': System)
    requires Inv(s) && g < |s.groups| && Live(s.groups[g])
    requires g'.key == s.groups[g].key && !e.Registered?
    requires s' == Put(s, g, g', futures', e)
    requires GroupOk(s'.log, s'.registry, g, g')
    requires Resolves(s, s', g)
    ensures Inv(s')
  {
    PutKeepsGroups(s, g, g', futures', e);
    PutKeepsFutures(s, g, g', futures', e);
    PutKeepsRegistry(s, g, g', futures', e);
    PutKeepsTickets(s, g, g', futures', e);
  }

  // ---- Every step keeps the invariant ----------------------------------------------------------

  /** `_resolve` only touches waiting futures that registered for one of its documents. */
  lemma ResolveDocsEffect(log: seq<Event>, g: GroupId, futures: Futures, waiters: map<DocId, seq<Ticket>>,
                          docs: set<DocId>, status: Status, t: Ticket)
    requires WaitersOk(log, g, waiters) && t in futures && !status.Waiting?
    ensures var futures' := ResolveDocs(futures, waiters, docs, status);
      && futures'.Keys == futures.Keys
      && (futures'[t] != futures[t] ==>
        && futures[t].Waiting? && futures'[t] == status
        && t < |log| && log[t].Registered? && log[t].group == g
        && log[t].doc in docs && log[t].doc in waiters && t in waiters[log[t].doc])
      && (futures'[t].Waiting? ==>
        futures[t].Waiting? && forall d :: d in docs && d in waiters ==> t !in waiters[d])
  {
  }

  predicate EndsWith(g': Group, group: Group, status: Status) {
    && g'.key == group.key
    && g'.waiters == map[]
    && ((g'.phase == Done(BudgetSpent) && status.TimedOut?) || (g'.phase == Done(Crashed) && status.Failed?))
  }

  lemma FinishFuture(s: System, g: GroupId, g': Group, status: Status, e: Event, t: Ticket)
    requires FuturesOk(s) && g < |s.groups| && Live(s.groups[g]) && WaitersOk(s.log, g, s.groups[g].waiters)
    requires EndsWith(g', s.groups[g], status) && t in s.futures
    ensures var futures' := ResolveDocs(s.futures, s.groups[g].waiters, s.groups[g].waiters.Keys, status);
      && (futures'[t] != s.futures[t] ==> StatusOk(Put(s, g, g', futures', e), t))
      && (t < |s.log| && s.log[t].Registered? && s.log[t].group == g ==> !futures'[t].Waiting?)
  {
    assert StatusOk(s, t);
    ResolveDocsEffect(s.log, g, s.futures, s.groups[g].waiters, s.groups[g].waiters.Keys, status, t);
  }

  /** Ending a group by resolving all its waiters with the status that its ending calls for. */
  lemma FinishKeeps(s: System, g: GroupId, g': Group, status: Status, e: Event)
    requires Inv(s) && g < |s.groups| && Live(s.groups[g]) && !e.Registered?
    requires EndsWith(g', s.groups[g], status)
    ensures Inv(Put(s, g, g', ResolveDocs(s.futures, s.groups[g].waiters, s.groups[g].waiters.Keys, status), e))
  {
    assert GroupOk(s.log, s.registry, g, s.groups[g]);
    var futures' := ResolveDocs(s.futures, s.groups[g].waiters, s.groups[g].waiters.Keys, status);
    var s' := Put(s, g, g', futures', e);
    assert Resolves(s, s', g) by {
      forall t | t in s.futures
        ensures s'.futures[t] != s.futures[t] ==> StatusOk(s', t)
        ensures t < |s.log| && s.log[t].Registered? && s.log[t].group == g ==> !s'.futures[t].Waiting?
      {
        FinishFuture(s, g, g', status, e, t);
      }
    }
    PutPreserves(s, g, g', futures', e, s');
  }

  lemma {:induction false} ExpireKeeps(s: System, g: GroupId, e: Event)
    requires Inv(s) && g < |s.groups| && Live(s.groups[g]) && !e.Registered?
    ensures var (g', futures') := Expire(s.groups[g], s.futures, |s.log|); Inv(Put(s, g, g', futures', e))
  {
    assert GroupOk(s.log, s.registry, g, s.groups[g]);
    FinishKeeps(s, g, Expire(s.groups[g], s.futures, |s.log|).0, TimedOut(|s.log|), e);
  }

  lemma {:induction false} CrashKeeps(s: System, g: GroupId, e: Event)
    requires Inv(s) && g < |s.groups| && Live(s.groups[g]) && !e.Registered?
    ensures var (g', futures') := Crash(s.groups[g], s.futures, |s.log|); Inv(Put(s, g, g', futures', e))
  {
    FinishKeeps(s, g, Crash(s.groups[g], s.futures, |s.log|).0, Failed(|s.log|), e);
  }

  lemma CancelKeeps(s: System, t: Ticket)
    requires Inv(s) && Enabled(s, CancelWaiter(t))
    ensures Inv(Next(s, CancelWaiter(t)))
  {
    var e := WaiterCancelled(t);
    var s' := Next(s, CancelWaiter(t));
    forall g | 0 <= g < |s'.groups| ensures GroupOk(s'.log, s'.registry, g, s'.groups[g]) {
      assert GroupOk(s.log, s.registry, g, s.groups[g]);
      GroupExtends(s.log, s.registry, s.registry, g, s.groups[g], e);
    }
    forall k | k in s'.registry ensures EntryOk(s', k) {
      assert EntryOk(s, k);
    }
    forall u | u in s'.futures ensures StatusOk(s', u) {
      assert StatusOk(s, u);
      if s'.futures[u].Settled? {
        FreshExtends(s.log, s.groups[s.log[u].group].key.kind, u, s.futures[u].at, e);
      }
    }
  }

  /** A future that an answer credits was asked about after it, and its document's last entry, registered. */
  lemma CreditIsFresh(s: System, g: GroupId, matched: set<DocId>, order: seq<DocId>, t: Ticket)
    requires Enabled(s, Return(g, matched, order)) && GroupOk(s.log, s.registry, g, s.groups[g])
    requires t in s.futures
    requires Credit(s.groups[g], s.futures, order, |s.log|).1[t] != s.futures[t]
    ensures Fresh(s.log + [Answered(g, s.groups[g].phase.sentAt, matched)], s.groups[g].key.kind, t, |s.log|)
    ensures s.log[t].group == g
  {
    var group, phase := s.groups[g], s.groups[g].phase;
    var docs := CreditedBy(group, order);
    ResolveDocsEffect(s.log, g, s.futures, group.waiters, docs, Settled(|s.log|), t);
    var d := s.log[t].doc;
    assert d in order;
    assert d in (set x | x in order);
    assert Latest(s.log, g, d, group.pending[d]);
    assert t <= group.pending[d] < phase.sentAt;
  }

  lemma CreditFuture(s: System, g: GroupId, matched: set<DocId>, order: seq<DocId>, t: Ticket, s': System)
    requires Enabled(s, Return(g, matched, order)) && GroupOk(s.log, s.registry, g, s.groups[g])
    requires s' == CreditStep(s, g, matched, order)
    requires t in s.futures && StatusOk(s, t)
    ensures t in s'.futures
    ensures s'.futures[t] != s.futures[t] ==> StatusOk(s', t)
    ensures s'.futures[t].Waiting? && s.log[t].group == g ==> Looked(s'.groups, g, s.log[t].doc, t)
  {
    var group := s.groups[g];
    ResolveDocsEffect(s.log, g, s.futures, group.waiters, CreditedBy(group, order), Settled(|s.log|), t);
    if s'.futures[t] != s.futures[t] {
      CreditIsFresh(s, g, matched, order, t);
    }
  }

  lemma CreditGroup(s: System, g: GroupId, matched: set<DocId>, order: seq<DocId>, s': System)
    requires Enabled(s, Return(g, matched, order)) && GroupOk(s.log, s.registry, g, s.groups[g])
    requires s' == CreditStep(s, g, matched, order)
    ensures GroupOk(s'.log, s'.registry, g, s'.groups[g])
  {
    PendingExtends(s.log, g, s'.groups[g].pending, Answered(g, s.groups[g].phase.sentAt, matched));
  }

  lemma CreditResolves(s: System, g: GroupId, matched: set<DocId>, order: seq<DocId>, s': System)
    requires Enabled(s, Return(g, matched, order)) && GroupOk(s.log, s.registry, g, s.groups[g])
    requires s' == CreditStep(s, g, matched, order)
    requires FuturesOk(s)
    ensures Resolves(s, s', g)
  {
    forall t | t in s.futures
      ensures t in s'.futures && (s'.futures[t] != s.futures[t] ==> StatusOk(s', t))
      ensures s'.futures[t].Waiting? && t < |s.log| && s.log[t].Registered? && s.log[t].group == g ==>
        Looked(s'.groups, g, s.log[t].doc, t)
    {
      assert StatusOk(s, t);
      CreditFuture(s, g, matched, order, t, s');
    }
  }

  lemma CreditKeeps(s: System, g: GroupId, matched: set<DocId>, order: seq<DocId>, s': System)
    requires Inv(s) && Enabled(s, Return(g, matched, order))
    requires s' == CreditStep(s, g, matched, order)
    ensures Inv(s')
  {
    assert GroupOk(s.log, s.registry, g, s.groups[g]);
    CreditGroup(s, g, matched, order, s');
    CreditResolves(s, g, matched, order, s');
    var (g', futures') := Credit(s.groups[g], s.futures, order, |s.log|);
    PutPreserves(s, g, g', futures', Answered(g, s.groups[g].phase.sentAt, matched), s');
  }

  lemma MoveResolves(s: System, g: GroupId, phase: Phase, e: Event, s': System)
    requires FuturesOk(s) && g < |s.groups| && Live(s.groups[g])
    requires s.groups[g].pending.Keys == s.groups[g].waiters.Keys
    requires s' == Put(s, g, s.groups[g].(phase := phase), s.futures, e)
    requires Enlisted(s'.groups[g]) || phase == Done(Killed) || s.groups[g].pending == map[]
    ensures Resolves(s, s', g)
  {
    forall t | t in s.futures && s.futures[t].Waiting? && t < |s.log| && s.log[t].Registered? && s.log[t].group == g
      ensures Looked(s'.groups, g, s.log[t].doc, t)
    {
      assert StatusOk(s, t);
    }
  }

  /** A step that only moves the phase of a group along. */
  lemma MoveKeeps(s: System, g: GroupId, phase: Phase, e: Event, s': System)
    requires Inv(s) && g < |s.groups| && Live(s.groups[g]) && !e.Registered?
    requires s' == Put(s, g, s.groups[g].(phase := phase), s.futures, e)
    requires GroupOk(s'.log, s'.registry, g, s'.groups[g])
    requires Enlisted(s'.groups[g]) || phase == Done(Killed) || s.groups[g].pending == map[]
    ensures Inv(s')
  {
    assert GroupOk(s.log, s.registry, g, s.groups[g]);
    MoveResolves(s, g, phase, e, s');
    PutPreserves(s, g, s.groups[g].(phase := phase), s.futures, e, s');
  }

  lemma MovedGroupOk(log: seq<Event>, registry: map<Key, GroupId>, registry': map<Key, GroupId>, g: GroupId,
                     group: Group, phase: Phase, e: Event)
    requires GroupOk(log, registry, g, group) && Live(group) && !e.Registered? && !phase.Idle?
    requires !phase.Done? || phase.ending.NeverStarted? ==> registry' == registry
    requires phase.Scheduled? || phase.Sleeping? ==> group.pending != map[]
    requires phase.InFlight? ==> FlightOk(log + [e], g, phase)
    ensures GroupOk(log + [e], registry', g, group.(phase := phase))
  {
    PendingExtends(log, g, group.pending, e);
  }

  lemma PollKeeps(s: System, g: GroupId, attempt: int, budget: int)
    requires Inv(s) && g < |s.groups| && (s.groups[g].phase.Scheduled? || s.groups[g].phase.Sleeping?)
    ensures Inv(PollStep(s, g, attempt, budget))
  {
    var group, s' := s.groups[g], PollStep(s, g, attempt, budget);
    assert GroupOk(s.log, s.registry, g, group);
    var e, phase := Dispatched(g, attempt, group.pending), InFlight(attempt, budget, |s.log|, group.pending);
    assert FlightOk(s.log + [e], g, phase) by {
      forall d | d in group.pending ensures group.pending[d] < |s.log| {
        assert Latest(s.log, g, d, group.pending[d]);
      }
    }
    MovedGroupOk(s.log, s.registry, s'.registry, g, group, phase, e);
    MoveKeeps(s, g, phase, e, s');
  }

  lemma KillKeeps(s: System, g: GroupId, ending: Ending, s': System)
    requires Inv(s) && g < |s.groups| && Live(s.groups[g])
    requires ending == if s.groups[g].phase.Scheduled? then NeverStarted else Killed
    requires s' == Put(s, g, s.groups[g].(phase := Done(ending)), s.futures, Decided(g))
    ensures Inv(s')
  {
    assert GroupOk(s.log, s.registry, g, s.groups[g]);
    MovedGroupOk(s.log, s.registry, s'.registry, g, s.groups[g], Done(ending), Decided(g));
    MoveKeeps(s, g, Done(ending), Decided(g), s');
  }

  lemma SettleKeeps(s: System, g: GroupId)
    requires Inv(s) && g < |s.groups| && s.groups[g].phase.InFlight? && s.groups[g].pending == map[]
    ensures Inv(DecideStep(s, g, false))
  {
    var s' := DecideStep(s, g, false);
    assert GroupOk(s.log, s.registry, g, s.groups[g]);
    MovedGroupOk(s.log, s.registry, s'.registry, g, s.groups[g], Done(AllSettled), Decided(g));
    MoveKeeps(s, g, Done(AllSettled), Decided(g), s');
  }

  lemma SleepKeeps(s: System, g: GroupId)
    requires Inv(s) && g < |s.groups| && s.groups[g].phase.InFlight? && s.groups[g].pending != map[]
    requires s.groups[g].phase.attempt < s.groups[g].phase.budget
    ensures Inv(DecideStep(s, g, false))
  {
    var phase, s' := Sleeping(s.groups[g].phase.attempt, s.groups[g].phase.budget), DecideStep(s, g, false);
    assert GroupOk(s.log, s.registry, g, s.groups[g]);
    MovedGroupOk(s.log, s.registry, s'.registry, g, s.groups[g], phase, Decided(g));
    MoveKeeps(s, g, phase, Decided(g), s');
  }

  lemma DecideKeeps(s: System, g: GroupId, raised: bool)
    requires Inv(s) && g < |s.groups| && s.groups[g].phase.InFlight?
    ensures Inv(DecideStep(s, g, raised))
  {
    if raised {
      CrashKeeps(s, g, Decided(g));
    } else if s.groups[g].pending == map[] {
      SettleKeeps(s, g);
    } else if s.groups[g].phase.attempt < s.groups[g].phase.budget {
      SleepKeeps(s, g);
    } else {
      ExpireKeeps(s, g, Decided(g));
    }
  }

  lemma ReturnKeeps(s: System, g: GroupId, matched: set<DocId>, order: seq<DocId>)
    requires Inv(s) && Enabled(s, Return(g, matched, order))
    ensures Inv(Next(s, Return(g, matched, order)))
  {
    CreditKeeps(s, g, matched, order, CreditStep(s, g, matched, order));
    DecideKeeps(CreditStep(s, g, matched, order), g, KnownPrefix(order, s.groups[g].phase.snapshot) < |order|);
  }

  // ---- Registration ----------------------------------------------------------------------------

  /** The group that `_wait_group_for` hands out: an enrolled one, or a new one whose task is created at once. */
  function Host(s: System, key: Key): (GroupId, Group) {
    if key in s.registry && s.registry[key] < |s.groups| then (s.registry[key], s.groups[s.registry[key]])
    else (|s.groups|, NewGroup(key))
  }

  lemma EnrolledGroupOk(log: seq<Event>, registry: map<Key, GroupId>, g: GroupId, group: Group, doc: DocId)
    requires group.phase.Idle? ==> group == NewGroup(group.key)
    requires !group.phase.Idle? ==> GroupOk(log, registry, g, group) && Enlisted(group)
    ensures GroupOk(log + [Registered(g, doc)], registry[group.key := g], g, Enrol(group, doc, |log|))
  {
    var e, group' := Registered(g, doc), Enrol(group, doc, |log|);
    var log' := log + [e];
    assert PendingOk(log', g, group'.pending) by {
      forall d | d in group'.pending ensures Latest(log', g, d, group'.pending[d]) {
        if d != doc {
          assert Latest(log, g, d, group.pending[d]);
        }
      }
    }
    assert WaitersOk(log', g, group'.waiters);
    assert doc in group'.pending;
  }

  lemma {:induction false} RegisterShape(s: System, key: Key, doc: DocId)
    requires RegistryOk(s)
    ensures var (g, group) := Host(s, key);
      var s' := RegisterStep(s, key, doc);
      && s'.log == s.log + [Registered(g, doc)]
      && s'.futures == s.futures[|s.log| := Waiting]
      && s'.registry == s.registry[key := g]
      && g < |s'.groups| && |s.groups| <= |s'.groups| <= |s.groups| + 1
      && (g >= |s.groups| ==> |s'.groups| == g + 1)
      && (g < |s.groups| ==> |s'.groups| == |s.groups|)
      && s'.groups[g] == Enrol(group, doc, |s.log|)
      && group.key == key
      && (group.phase.Idle? ==> g == |s.groups| && group == NewGroup(key))
      && (!group.phase.Idle? ==> g < |s.groups| && group == s.groups[g] && Enlisted(group))
      && forall h :: 0 <= h < |s.groups| && h != g ==> s'.groups[h] == s.groups[h]
  {
    assert key in s.registry ==> EntryOk(s, key);
  }

  lemma RegisterKeepsGroups(s: System, key: Key, doc: DocId, s': System)
    requires GroupsOk(s) && RegistryOk(s) && s' == RegisterStep(s, key, doc)
    ensures GroupsOk(s')
  {
    RegisterShape(s, key, doc);
    var (g, group) := Host(s, key);
    forall h | 0 <= h < |s'.groups| ensures GroupOk(s'.log, s'.registry, h, s'.groups[h]) {
      if h == g {
        assert g < |s.groups| ==> GroupOk(s.log, s.registry, g, group);
        EnrolledGroupOk(s.log, s.registry, g, group, doc);
      } else {
        assert GroupOk(s.log, s.registry, h, s.groups[h]);
        GroupExtends(s.log, s.registry, s'.registry, h, s.groups[h], Registered(g, doc));
      }
    }
  }

  lemma RegisterKeepsFutures(s: System, key: Key, doc: DocId, s': System)
    requires FuturesOk(s) && RegistryOk(s) && s' == RegisterStep(s, key, doc)
    ensures FuturesOk(s')
  {
    RegisterShape(s, key, doc);
    var (g, group) := Host(s, key);
    forall t | t in s'.futures ensures StatusOk(s', t) {
      if t == |s.log| {
        assert s'.groups[g].waiters[doc][|s'.groups[g].waiters[doc]| - 1] == t;
      } else {
        assert StatusOk(s, t);
        if s.futures[t].Settled? {
          FreshExtends(s.log, s.groups[s.log[t].group].key.kind, t, s.futures[t].at, Registered(g, doc));
        }
        if s.futures[t].Waiting? && s.log[t].group == g && s.log[t].doc == doc && Enlisted(group) {
          var i :| 0 <= i < |group.waiters[doc]| && group.waiters[doc][i] == t;
          assert s'.groups[g].waiters[doc][i] == t;
        }
      }
    }
  }

  lemma RegisterKeepsRest(s: System, key: Key, doc: DocId, s': System)
    requires RegistryOk(s) && TicketsOk(s) && s' == RegisterStep(s, key, doc)
    ensures RegistryOk(s') && TicketsOk(s')
  {
    RegisterShape(s, key, doc);
    forall k | k in s'.registry ensures EntryOk(s', k) {
      assert k in s.registry ==> EntryOk(s, k);
    }
  }

  lemma RegisterKeeps(s: System, key: Key, doc: DocId)
    requires Inv(s)
    ensures Inv(Next(s, Register(key, doc)))
  {
    var s' := RegisterStep(s, key, doc);
    RegisterKeepsGroups(s, key, doc, s');
    RegisterKeepsFutures(s, key, doc, s');
    RegisterKeepsRest(s, key, doc, s');
  }

  lemma StartKeeps(s: System, g: GroupId, budget: int)
    requires Inv(s) && Enabled(s, Start(g, budget))
    ensures Inv(Next(s, Start(g, budget)))
  {
    if budget < 1 {
      ExpireKeeps(s, g, Decided(g));
    } else {
      PollKeeps(s, g, 1, budget);
    }
  }

  lemma WakePolls(s: System, g: GroupId)
    requires g < |s.groups| && s.groups[g].phase.Sleeping?
    ensures Next(s, Wake(g)) == PollStep(s, g, s.groups[g].phase.attempt + 1, s.groups[g].phase.budget)
  {
  }

  lemma WakeKeeps(s: System, g: GroupId, s': System)
    requires Inv(s) && g < |s.groups| && s.groups[g].phase.Sleeping?
    requires s' == PollStep(s, g, s.groups[g].phase.attempt + 1, s.groups[g].phase.budget)
    ensures Inv(s')
  {
    PollKeeps(s, g, s.groups[g].phase.attempt + 1, s.groups[g].phase.budget);
  }

  lemma RaiseKeeps(s: System, g: GroupId)
    requires Inv(s) && Enabled(s, Raise(g))
    ensures Inv(Next(s, Raise(g)))
  {
    CrashKeeps(s, g, Decided(g));
  }

  /** Every step, of any group or caller, keeps the invariant. */
  lemma NextKeeps(s: System, step: Step, s': System)
    requires Inv(s) && s' == Next(s, step)
    ensures Inv(s')
  {
    if !Enabled(s, step) {
    } else if step.Register? {
      RegisterKeeps(s, step.key, step.doc);
    } else if step.Start? {
      StartKeeps(s, step.group, step.budget);
    } else if step.Return? {
      ReturnKeeps(s, step.group, step.matched, step.order);
    } else if step.CancelWaiter? {
      CancelKeeps(s, step.ticket);
    } else if step.Wake? {
      WakePolls(s, step.group);
      WakeKeeps(s, step.group, s');
    } else if step.Raise? {
      RaiseKeeps(s, step.group);
    } else {
      KillKeeps(s, step.group, if s.groups[step.group].phase.Scheduled? then NeverStarted else Killed, s');
    }
  }

  lemma {:induction false} EveryRunKeeps(steps: seq<Step>)
    ensures Inv(Execute(INITIAL, steps))
    decreases |steps|
  {
    if steps != [] {
      EveryRunKeeps(steps[..|steps| - 1]);
      NextKeeps(Execute(INITIAL, steps[..|steps| - 1]), steps[|steps| - 1], Execute(INITIAL, steps));
    }
  }

  // ---- What every run keeps --------------------------------------------------------------------

  /** The group's polling task was cancelled from outside. */
  predicate Cancelled(g: Group) {
    g.phase == Done(Killed) || g.phase == Done(NeverStarted)
  }

  /** Between two steps, a group that can still be joined lists the same documents in both tables; every future
      ever registered is known; and one that still waits is listed by its registered group, unless that group's
      task was cancelled from outside. */
  lemma {:induction false} NoLostWaiter(steps: seq<Step>, t: Ticket)
    ensures var s := Execute(INITIAL, steps);
      t < |s.log| && s.log[t].Registered? ==>
        var g, d := s.log[t].group, s.log[t].doc;
        && g < |s.groups|
        && t in s.futures
        && (Enlisted(s.groups[g]) ==> s.groups[g].pending.Keys == s.groups[g].waiters.Keys)
        && (s.futures[t].Waiting? && Enlisted(s.groups[g]) ==>
          && s.groups[g].key in s.registry && s.registry[s.groups[g].key] == g
          && d in s.groups[g].waiters && t in s.groups[g].waiters[d])
        && (s.groups[g].phase.Done? && !Cancelled(s.groups[g]) ==> !s.futures[t].Waiting?)
  {
    EveryRunKeeps(steps);
    var s := Execute(INITIAL, steps);
    if t < |s.log| && s.log[t].Registered? {
      assert StatusOk(s, t);
      assert GroupOk(s.log, s.registry, s.log[t].group, s.groups[s.log[t].group]);
    }
  }

  lemma ExecuteSnoc(s: System, steps: seq<Step>, step: Step)
    ensures Execute(s, steps + [step]) == Next(Execute(s, steps), step)
  {
    var all := steps + [step];
    assert all[..|all| - 1] == steps;
  }

  /** The group and system after one registration in an empty system. */
  function Alone(key: Key, doc: DocId, phase: Phase): Group {
    Group(key, map[doc := 0], map[doc := [0]], phase, 1)
  }

  lemma FirstRegistration(key: Key, doc: DocId)
    ensures Execute(INITIAL, [Register(key, doc)])
         == System([Alone(key, doc, Scheduled)], map[key := 0], map[0 := Waiting], [Registered(0, doc)])
  {
    assert [Register(key, doc)] == [] + [Register(key, doc)];
    ExecuteSnoc(INITIAL, [], Register(key, doc));
    assert [] + [0 as Ticket] == [0];
  }

  // ---- Cancelled polling tasks -----------------------------------------------------------------

  /** `t` waits for a group whose task was cancelled. */
  ghost predicate Stranded(s: System, t: Ticket) {
    && t in s.futures && s.futures[t].Waiting?
    && t < |s.log| && s.log[t].Registered?
    && s.log[t].group < |s.groups| && Cancelled(s.groups[s.log[t].group])
  }

  lemma PutLeavesStranded(s: System, g: GroupId, g': Group, docs: set<DocId>, status: Status, e: Event, s': System, t: Ticket)
    requires Stranded(s, t) && g < |s.groups| && Live(s.groups[g]) && WaitersOk(s.log, g, s.groups[g].waiters)
    requires !status.Waiting?
    requires s' == Put(s, g, g', ResolveDocs(s.futures, s.groups[g].waiters, docs, status), e)
    ensures Stranded(s', t)
  {
    ResolveDocsEffect(s.log, g, s.futures, s.groups[g].waiters, docs, status, t);
  }

  lemma MoveLeavesStranded(s: System, g: GroupId, g': Group, e: Event, t: Ticket)
    requires Stranded(s, t) && g < |s.groups| && Live(s.groups[g])
    ensures Stranded(Put(s, g, g', s.futures, e), t)
  {
  }

  lemma DecideLeavesStranded(s: System, g: GroupId, raised: bool, t: Ticket)
    requires Stranded(s, t) && g < |s.groups| && s.groups[g].phase.InFlight? && WaitersOk(s.log, g, s.groups[g].waiters)
    ensures Stranded(DecideStep(s, g, raised), t)
  {
    var group, s' := s.groups[g], DecideStep(s, g, raised);
    var g' := Decide(group, s.futures, raised, |s.log|).0;
    if raised {
      PutLeavesStranded(s, g, g', group.waiters.Keys, Failed(|s.log|), Decided(g), s', t);
    } else if group.pending != map[] && group.phase.attempt >= group.phase.budget {
      PutLeavesStranded(s, g, g', group.pending.Keys, TimedOut(|s.log|), Decided(g), s', t);
    } else {
      MoveLeavesStranded(s, g, g', Decided(g), t);
    }
  }

  lemma ReturnLeavesStranded(s: System, g: GroupId, matched: set<DocId>, order: seq<DocId>, t: Ticket)
    requires Inv(s) && Stranded(s, t) && Enabled(s, Return(g, matched, order))
    ensures Stranded(Next(s, Return(g, matched, order)), t)
  {
    assert GroupOk(s.log, s.registry, g, s.groups[g]);
    var s1 := CreditStep(s, g, matched, order);
    PutLeavesStranded(s, g, Credit(s.groups[g], s.futures, order, |s.log|).0, CreditedBy(s.groups[g], order),
                      Settled(|s.log|), Answered(g, s.groups[g].phase.sentAt, matched), s1, t);
    CreditKeeps(s, g, matched, order, s1);
    assert GroupOk(s1.log, s1.registry, g, s1.groups[g]);
    DecideLeavesStranded(s1, g, KnownPrefix(order, s.groups[g].phase.snapshot) < |order|, t);
  }

  lemma StepLeavesStranded(s: System, step: Step, t: Ticket)
    requires Inv(s) && Stranded(s, t) && step != CancelWaiter(t)
    ensures Stranded(Next(s, step), t)
  {
    if !Enabled(s, step) || step.CancelWaiter? {
    } else if step.Register? {
      RegisterShape(s, step.key, step.doc);
    } else if step.Return? {
      ReturnLeavesStranded(s, step.group, step.matched, step.order, t);
    } else {
      var g := step.group;
      var group := s.groups[g];
      assert GroupOk(s.log, s.registry, g, group);
      if step.Start? && step.budget < 1 {
        PutLeavesStranded(s, g, Expire(group, s.futures, |s.log|).0, group.pending.Keys, TimedOut(|s.log|), Decided(g),
                          Next(s, step), t);
      } else if step.Raise? {
        PutLeavesStranded(s, g, Crash(group, s.futures, |s.log|).0, group.waiters.Keys, Failed(|s.log|), Decided(g),
                          Next(s, step), t);
      }
    }
  }

  /** A future of a group whose task was cancelled, registered before or after, waits through every later run unless
      it is cancelled itself. */
  lemma {:induction false} StrandedForever(s: System, steps: seq<Step>, t: Ticket)
    requires Inv(s) && Stranded(s, t) && CancelWaiter(t) !in steps
    ensures Inv(Execute(s, steps)) && Stranded(Execute(s, steps), t)
    decreases |steps|
  {
    if steps != [] {
      var k := |steps| - 1;
      StrandedForever(s, steps[..k], t);
      StepLeavesStranded(Execute(s, steps[..k]), steps[k], t);
      NextKeeps(Execute(s, steps[..k]), steps[k], Execute(s, steps));
    }
  }

  /** The registry hands out a group whose task never started. */
  predicate Stalled(s: System, key: Key) {
    && key in s.registry && s.registry[key] < |s.groups|
    && s.groups[s.registry[key]].phase == Done(NeverStarted)
  }

  /** The step cancels a task of that key before its first step. */
  predicate KillsUnstarted(s: System, step: Step, key: Key) {
    && step.KillTask? && step.group < |s.groups|
    && s.groups[step.group].phase.Scheduled? && s.groups[step.group].key == key
  }

  lemma PutStalls(s: System, g: GroupId, g': Group, futures: Futures, e: Event, key: Key)
    requires Inv(s) && g < |s.groups| && Live(s.groups[g]) && g'.key == s.groups[g].key
    ensures Stalled(Put(s, g, g', futures, e), key) <==>
      Stalled(s, key) || (g'.phase == Done(NeverStarted) && g'.key == key)
  {
    assert GroupOk(s.log, s.registry, g, s.groups[g]);
    assert key in s.registry ==> EntryOk(s, key);
  }

  lemma {:induction false} ReturnStalls(s: System, g: GroupId, matched: set<DocId>, order: seq<DocId>, key: Key)
    requires Inv(s) && Enabled(s, Return(g, matched, order))
    ensures Stalled(Next(s, Return(g, matched, order)), key) <==> Stalled(s, key)
  {
    var s1 := CreditStep(s, g, matched, order);
    CreditKeeps(s, g, matched, order, s1);
    PutStalls(s, g, s1.groups[g], s1.futures, Answered(g, s.groups[g].phase.sentAt, matched), key);
    var raised := KnownPrefix(order, s.groups[g].phase.snapshot) < |order|;
    var s2 := DecideStep(s1, g, raised);
    PutStalls(s1, g, s2.groups[g], s2.futures, Decided(g), key);
  }

  lemma {:induction false} StallStep(s: System, step: Step, key: Key)
    requires Inv(s)
    ensures Stalled(Next(s, step), key) <==> Stalled(s, key) || KillsUnstarted(s, step, key)
  {
    if !Enabled(s, step) || step.CancelWaiter? {
    } else if step.Register? {
      RegisterShape(s, step.key, step.doc);
      assert key in s.registry ==> EntryOk(s, key);
    } else if step.Return? {
      ReturnStalls(s, step.group, step.matched, step.order, key);
    } else {
      var g, s' := step.group, Next(s, step);
      PutStalls(s, g, s'.groups[g], s'.futures, s'.log[|s.log|], key);
    }
  }

  ghost predicate KillsUnstartedAt(steps: seq<Step>, i: nat, key: Key) {
    i < |steps| && KillsUnstarted(Execute(INITIAL, steps[..i]), steps[i], key)
  }

  /** Some step of the run cancelled a task of that key before its first step. */
  ghost predicate KilledUnstarted(steps: seq<Step>, key: Key) {
    exists i {:trigger KillsUnstartedAt(steps, i, key)} :: 0 <= i && KillsUnstartedAt(steps, i, key)
  }

  lemma SameKillAt(init: seq<Step>, steps: seq<Step>, i: nat, key: Key)
    requires init <= steps && i < |init|
    ensures KillsUnstartedAt(init, i, key) <==> KillsUnstartedAt(steps, i, key)
  {
    assert init[..i] == steps[..i];
  }

  lemma KilledUnstartedSnoc(steps: seq<Step>, key: Key)
    requires steps != []
    ensures KilledUnstarted(steps, key) <==>
      || KilledUnstarted(steps[..|steps| - 1], key)
      || KillsUnstarted(Execute(INITIAL, steps[..|steps| - 1]), steps[|steps| - 1], key)
  {
    var init, k := steps[..|steps| - 1], |steps| - 1;
    forall i | 0 <= i < k ensures KillsUnstartedAt(init, i, key) <==> KillsUnstartedAt(steps, i, key) {
      SameKillAt(init, steps, i, key);
    }
    assert KillsUnstartedAt(steps, k, key) <==> KillsUnstarted(Execute(INITIAL, init), steps[k], key);
  }

  lemma {:induction false} StalledExactlyWhen(steps: seq<Step>, key: Key)
    ensures Stalled(Execute(INITIAL, steps), key) <==> KilledUnstarted(steps, key)
    decreases |steps|
  {
    if steps != [] {
      var init := steps[..|steps| - 1];
      StalledExactlyWhen(init, key);
      EveryRunKeeps(init);
      StallStep(Execute(INITIAL, init), steps[|steps| - 1], key);
      KilledUnstartedSnoc(steps, key);
    }
  }

  /** Where a registration ends up: with the group the registry names, as latest entry and last waiter of its
      document. */
  ghost predicate JoinedAs(s: System, key: Key, doc: DocId, t: Ticket) {
    && key in s.registry && s.registry[key] < |s.groups|
    && t in s.futures && s.futures[t].Waiting?
    && t < |s.log| && s.log[t] == Registered(s.registry[key], doc)
    && var group := s.groups[s.registry[key]];
    && group.key == key
    && doc in group.pending && group.pending[doc] == t
    && doc in group.waiters && group.waiters[doc] != [] && group.waiters[doc][|group.waiters[doc]| - 1] == t
  }

  /** A registration always joins the group the registry names.  That group is being polled for if and only if no
      task of the key was ever cancelled before its first step; otherwise the registration is stranded. */
  lemma {:induction false} RegistrationReachesLiveGroupIff(steps: seq<Step>, key: Key, doc: DocId)
    ensures var s := Execute(INITIAL, steps);
      var s' := Execute(INITIAL, steps + [Register(key, doc)]);
      && JoinedAs(s', key, doc, |s.log|)
      && (key in s.registry ==> s'.registry[key] == s.registry[key])
      && (Live(s'.groups[s'.registry[key]]) <==> !KilledUnstarted(steps, key))
      && (Stranded(s', |s.log|) <==> KilledUnstarted(steps, key))
  {
    EveryRunKeeps(steps);
    ExecuteSnoc(INITIAL, steps, Register(key, doc));
    var s := Execute(INITIAL, steps);
    RegisterShape(s, key, doc);
    StalledExactlyWhen(steps, key);
    assert key in s.registry ==> EntryOk(s, key);
  }

  /** Such a run: one registration, its task cancelled at once, and the next registration of the same key; neither
      future is ever resolved, whatever happens later. */
  lemma {:induction false} CancelledTaskStrandsWaiters(key: Key, doc: DocId, other: DocId, steps: seq<Step>)
    requires CancelWaiter(0) !in steps && CancelWaiter(2) !in steps
    ensures var s := Execute(Execute(INITIAL, [Register(key, doc), KillTask(0), Register(key, other)]), steps);
      && 0 in s.futures && s.futures[0].Waiting? && 2 in s.futures && s.futures[2].Waiting?
      && |s.log| > 2 && s.log[0] == Registered(0, doc) && s.log[2] == Registered(0, other)
  {
    var first, two := [Register(key, doc)], [Register(key, doc), KillTask(0)];
    FirstRegistration(key, doc);
    assert two == first + [KillTask(0)];
    ExecuteSnoc(INITIAL, first, KillTask(0));
    assert two + [Register(key, other)] == [Register(key, doc), KillTask(0), Register(key, other)];
    assert two[..1] == first;
    assert KillsUnstartedAt(two, 1, key);
    assert KilledUnstarted(two, key);
    var s := Execute(INITIAL, two);
    assert s.registry == map[key := 0] && |s.log| == 2;
    RegistrationReachesLiveGroupIff(two, key, other);
    EveryRunKeeps(two + [Register(key, other)]);
    ExecuteSnoc(INITIAL, two, Register(key, other));
    var s' := Execute(INITIAL, two + [Register(key, other)]);
    RegisterShape(s, key, other);
    assert s'.log[0] == s.log[0] == Registered(0, doc);
    StepLeavesStrandedFrom(s, Register(key, other), 0, two);
    StrandedForever(s', steps, 0);
    StrandedForever(s', steps, 2);
    LogKept(s', steps, 0);
    LogKept(s', steps, 2);
  }

  lemma StepLeavesStrandedFrom(s: System, step: Step, t: Ticket, steps: seq<Step>)
    requires s == Execute(INITIAL, steps) && Stranded(s, t) && step != CancelWaiter(t)
    ensures Stranded(Next(s, step), t)
  {
    EveryRunKeeps(steps);
    StepLeavesStranded(s, step, t);
  }

  lemma {:induction false} LogGrows(s: System, step: Step, t: Ticket)
    requires t < |s.log|
    ensures t < |Next(s, step).log| && Next(s, step).log[t] == s.log[t]
  {
  }

  lemma {:induction false} LogKept(s: System, steps: seq<Step>, t: Ticket)
    requires t < |s.log|
    ensures t < |Execute(s, steps).log| && Execute(s, steps).log[t] == s.log[t]
    decreases |steps|
  {
    if steps != [] {
      LogKept(s, steps[..|steps| - 1], t);
      LogGrows(Execute(s, steps[..|steps| - 1]), steps[|steps| - 1], t);
    }
  }

  ghost predicate Keeps(s: System, s': System, t: Ticket)
    requires t in s.futures
  {
    t in s'.futures && |s.log| <= |s'.log| && s'.futures[t] == s.futures[t]
  }

  lemma DecideKeepsDone(s: System, g: GroupId, raised: bool, t: Ticket)
    requires g < |s.groups| && s.groups[g].phase.InFlight?
    requires t in s.futures && t < |s.log| && !s.futures[t].Waiting?
    ensures Keeps(s, DecideStep(s, g, raised), t)
  {
  }

  lemma StepKeepsDone(s: System, step: Step, t: Ticket)
    requires t in s.futures && t < |s.log| && !s.futures[t].Waiting?
    ensures Keeps(s, Next(s, step), t)
  {
    if Enabled(s, step) && step.Return? {
      var s1 := CreditStep(s, step.group, step.matched, step.order);
      assert Keeps(s, s1, t);
      DecideKeepsDone(s1, step.group, KnownPrefix(step.order, s.groups[step.group].phase.snapshot) < |step.order|, t);
    }
  }

  /** A future that is done keeps its result through every later step. */
  lemma {:induction false} ResolvedOnce(s: System, steps: seq<Step>, t: Ticket)
    requires t in s.futures && t < |s.log| && !s.futures[t].Waiting?
    ensures Keeps(s, Execute(s, steps), t)
    decreases |steps|
  {
    if steps != [] {
      ResolvedOnce(s, steps[..|steps| - 1], t);
      StepKeepsDone(Execute(s, steps[..|steps| - 1]), steps[|steps| - 1], t);
    }
  }

  /** A success is never stale.  The answer that gave it settles the future's document, and belongs to a
      query that was sent after this future, and after the latest entry for the document, registered:
      no registration of the document lies between the dispatch and the answer. */
  lemma {:induction false} NoStaleCredit(steps: seq<Step>, t: Ticket)
    ensures var s := Execute(INITIAL, steps);
      t in s.futures && s.futures[t].Settled? ==>
        var at := s.futures[t].at;
        && t < at < |s.log| && s.log[t].Registered? && s.log[at].Answered?
        && var (g, d, sentAt) := (s.log[t].group, s.log[t].doc, s.log[at].sentAt);
        && s.log[at].group == g && g < |s.groups|
        && t < sentAt < at
        && s.log[sentAt].Dispatched? && s.log[sentAt].group == g
        && d in SettledIds(s.groups[g].key.kind, s.log[sentAt].snapshot, s.log[at].matched)
        && forall i :: sentAt <= i < at ==> s.log[i] != Registered(g, d)
  {
    EveryRunKeeps(steps);
    var s := Execute(INITIAL, steps);
    if t in s.futures && s.futures[t].Settled? {
      assert StatusOk(s, t);
    }
  }

  /** The snapshot a task dispatches is never empty, so `_tick` always sends its query. */
  lemma {:induction false} DispatchIsNeverEmpty(steps: seq<Step>, g: GroupId)
    ensures var s := Execute(INITIAL, steps);
      g < |s.groups| && (s.groups[g].phase.Scheduled? || s.groups[g].phase.Sleeping?) ==> s.groups[g].pending != map[]
  {
    EveryRunKeeps(steps);
    var s := Execute(INITIAL, steps);
    if g < |s.groups| {
      assert GroupOk(s.log, s.registry, g, s.groups[g]);
    }
  }

  function LateRun(key: Key): System {
    System([Group(key, map[0 := 0, 1 := 2], map[0 := [0], 1 := [2]], InFlight(1, 1, 1, map[0 := 0]), 2)],
           map[key := 0],
           map[0 := Waiting, 2 := Waiting],
           [Registered(0, 0), Dispatched(0, 1, map[0 := 0]), Registered(0, 1)])
  }

  lemma LateRunIsReached(key: Key)
    ensures Execute(INITIAL, [Register(key, 0), Start(0, 1), Register(key, 1)]) == LateRun(key)
  {
    var a, b, c := Register(key, 0), Start(0, 1), Register(key, 1);
    FirstRegistration(key, 0);
    assert [a, b] == [a] + [b] && [a, b, c] == [a, b] + [c];
    ExecuteSnoc(INITIAL, [a], b);
    var s2 := System([Alone(key, 0, InFlight(1, 1, 1, map[0 := 0]))], map[key := 0], map[0 := Waiting],
                     [Registered(0, 0), Dispatched(0, 1, map[0 := 0])]);
    assert Execute(INITIAL, [a, b]) == s2;
    ExecuteSnoc(INITIAL, [a, b], c);
    assert [] + [2 as Ticket] == [2];
    var s3 := RegisterStep(s2, key, 1);
    assert s3.groups == LateRun(key).groups;
    assert s3.futures == LateRun(key).futures && s3.registry == LateRun(key).registry && s3.log == LateRun(key).log;
  }

  /** The document `doc` was registered with the third event, its future has timed out, and no query asked for it. */
  ghost predicate TimedOutUnasked(s: System, doc: DocId) {
    && 2 in s.futures && s.futures[2].TimedOut?
    && |s.log| > 2 && s.log[2] == Registered(0, doc)
    && forall i :: 0 <= i < |s.log| && s.log[i].Dispatched? ==> doc !in s.log[i].snapshot
  }

  /** An answer that names no document credits nothing. */
  lemma {:induction false} LateCredit(key: Key, s: System)
    requires key.kind.Write? && s == LateRun(key)
    ensures Enabled(s, Return(0, {}, []))
    ensures CreditStep(s, 0, {}, []) == s.(log := s.log + [Answered(0, 1, {})])
  {
    var s1 := CreditStep(s, 0, {}, []);
    assert s1.groups[0] == s.groups[0];
    assert s1.futures == s.futures;
  }

  lemma {:induction false} LateAnswer(key: Key, s: System)
    requires key.kind.Write? && s == LateRun(key)
    ensures TimedOutUnasked(Next(s, Return(0, {}, [])), 1)
  {
    LateCredit(key, s);
    var s1 := s.(log := s.log + [Answered(0, 1, {})]);
    assert 1 in s1.groups[0].waiters && s1.groups[0].waiters[1][0] == 2;
    assert s1.groups[0].pending.Keys == {0, 1};
    assert Next(s, Return(0, {}, [])) == DecideStep(s1, 0, false);
  }

  /** A late registrant gets what is left of its group's budget, which may be nothing: here the second
      document times out although no query ever asked about it. */
  lemma LateRegistrantMayGoUnchecked(key: Key)
    requires key.kind.Write?
    ensures TimedOutUnasked(Execute(INITIAL, [Register(key, 0), Start(0, 1), Register(key, 1), Return(0, {}, [])]), 1)
  {
    LateRunIsReached(key);
    LateAnswer(key, LateRun(key));
    var steps, last := [Register(key, 0), Start(0, 1), Register(key, 1)], Return(0, {}, []);
    assert [Register(key, 0), Start(0, 1), Register(key, 1), last] == steps + [last];
    ExecuteSnoc(INITIAL, steps, last);
  }

  /** The document's entry was registered, or replaced, while the query was in flight. */
  ghost predicate Late(g: Group, doc: DocId)
    requires g.phase.InFlight?
  {
    doc in g.pending && (doc in g.phase.snapshot ==> g.pending[doc] != g.phase.snapshot[doc])
  }

  lemma LateStaysPending(s: System, g: GroupId, matched: set<DocId>, order: seq<DocId>, doc: DocId)
    requires Enabled(s, Return(g, matched, order)) && Late(s.groups[g], doc)
    ensures var group := CreditStep(s, g, matched, order).groups[g];
      doc in group.pending && group.pending[doc] == s.groups[g].pending[doc] && group.phase == s.groups[g].phase
  {
    assert doc !in CreditedBy(s.groups[g], order);
  }

  /** Whether a late registrant is ever asked about is decided by the budget alone: with an attempt left it stays
      pending and is in the very next query's snapshot, otherwise the group gives up on it with this answer. */
  lemma {:induction false} LateRegistrantIsAskedIffBudgetLeft(s: System, g: GroupId, matched: set<DocId>,
                                                              order: seq<DocId>, doc: DocId)
    requires Enabled(s, Return(g, matched, order)) && Late(s.groups[g], doc)
    requires KnownPrefix(order, s.groups[g].phase.snapshot) == |order|
    ensures var s1 := Next(s, Return(g, matched, order));
      var s2 := Next(s1, Wake(g));
      var (attempt, budget) := (s.groups[g].phase.attempt, s.groups[g].phase.budget);
      && g < |s1.groups| && g < |s2.groups|
      && (attempt < budget ==>
            && s1.groups[g].phase.Sleeping? && s2.groups[g].phase.InFlight?
            && doc in s2.groups[g].phase.snapshot
            && s2.groups[g].phase.snapshot[doc] == s.groups[g].pending[doc])
      && (attempt >= budget ==> s1.groups[g].phase == Done(BudgetSpent) && s2 == s1)
  {
    LateStaysPending(s, g, matched, order, doc);
    var s0 := CreditStep(s, g, matched, order);
    var s1 := DecideStep(s0, g, false);
    assert Next(s, Return(g, matched, order)) == s1;
    if s.groups[g].phase.attempt < s.groups[g].phase.budget {
      assert s1.groups[g].phase.Sleeping? && s1.groups[g].pending == s0.groups[g].pending;
      WakePolls(s1, g);
    }
  }

  /** An answer inside the snapshot never raises out of the credit loop. */
  lemma {:induction false} AnswerInsideSnapshotNeverRaises(order: seq<DocId>, snapshot: map<DocId, Ticket>)
    ensures KnownPrefix(order, snapshot) == |order| <==> forall i :: 0 <= i < |order| ==> order[i] in snapshot
  {
    if KnownPrefix(order, snapshot) < |order| {
      assert order[KnownPrefix(order, snapshot)] !in snapshot;
    }
  }

  /** A step that the polling task of `g` takes itself. */
  predicate OwnStep(s: System, step: Step, g: GroupId) {
    Enabled(s, step) && (step.Start? || step.Return? || step.Wake? || step.Raise?) && step.group == g
  }

  function OwnSteps(s: System, steps: seq<Step>, g: GroupId): nat
    decreases |steps|
  {
    if steps == [] then 0
    else
      var init := steps[..|steps| - 1];
      OwnSteps(s, init, g) + if OwnStep(Execute(s, init), steps[|steps| - 1], g) then 1 else 0
  }

  /** The policy's `max_attempts`, whenever a task of `g` starts. */
  predicate BudgetIs(steps: seq<Step>, g: GroupId, budget: int) {
    forall i :: 0 <= i < |steps| && steps[i].Start? && steps[i].group == g ==> steps[i].budget == budget
  }

  function Most(budget: int): nat {
    if budget < 1 then 1 else 2 * budget
  }

  /** After `n` steps of its own, this is where the task stands. */
  predicate Counted(phase: Phase, n: nat, max: int) {
    match phase
    case Idle => n == 0
    case Scheduled => n == 0
    case InFlight(attempt, budget, _, _) => budget == max && 1 <= attempt <= max && n == 2 * attempt - 1
    case Sleeping(attempt, budget) => budget == max && 1 <= attempt < max && n == 2 * attempt
    case Done(ending) => n <= Most(max) && (ending == BudgetSpent ==> n == Most(max))
  }

  lemma {:induction false} ReturnCounts(s: System, step: Step, n: nat, max: int)
    requires step.Return? && Enabled(s, step) && Counted(s.groups[step.group].phase, n, max)
    ensures var s' := Next(s, step);
      && |s'.groups| == |s.groups| && Counted(s'.groups[step.group].phase, n + 1, max)
      && forall h :: 0 <= h < |s.groups| && h != step.group ==> s'.groups[h] == s.groups[h]
  {
    var s1 := CreditStep(s, step.group, step.matched, step.order);
    assert s1.groups[step.group].phase == s.groups[step.group].phase;
  }

  lemma {:induction false} OwnStepCounts(s: System, step: Step, g: GroupId, n: nat, max: int)
    requires RegistryOk(s) && (step.Start? && step.group == g ==> step.budget == max)
    requires if g < |s.groups| then Counted(s.groups[g].phase, n, max) else n == 0
    ensures var (s', n') := (Next(s, step), n + if OwnStep(s, step, g) then 1 else 0);
      if g < |s'.groups| then Counted(s'.groups[g].phase, n', max) else n' == 0
  {
    if step.Register? {
      RegisterShape(s, step.key, step.doc);
    } else if step.Return? && Enabled(s, step) {
      if step.group == g {
        ReturnCounts(s, step, n, max);
      } else {
        ReturnElsewhere(s, step, g);
      }
    }
  }

  lemma {:induction false} ReturnElsewhere(s: System, step: Step, g: GroupId)
    requires step.Return? && Enabled(s, step) && step.group != g
    ensures |Next(s, step).groups| == |s.groups| && (g < |s.groups| ==> Next(s, step).groups[g] == s.groups[g])
  {
  }

  /** A polling task with a budget of `max` attempts takes at most `2 * max` steps of its own over any run: it starts,
      and answers and awakenings alternate until the budget is spent. */
  lemma {:induction false} PollingIsBounded(steps: seq<Step>, g: GroupId, max: int)
    requires BudgetIs(steps, g, max)
    ensures var (s, n) := (Execute(INITIAL, steps), OwnSteps(INITIAL, steps, g));
      && n <= Most(max)
      && if g < |s.groups| then Counted(s.groups[g].phase, n, max) else n == 0
    decreases |steps|
  {
    if steps != [] {
      var init, last := steps[..|steps| - 1], steps[|steps| - 1];
      PollingIsBounded(init, g, max);
      EveryRunKeeps(init);
      OwnStepCounts(Execute(INITIAL, init), last, g, OwnSteps(INITIAL, init, g), max);
    }
  }
}
