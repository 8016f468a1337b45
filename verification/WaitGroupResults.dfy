/** What becomes of a future: what every step makes of it, and what its result says about the run. */
module SearchSyncResults {

  import opened SearchSync
  import opened SearchSyncRuns

  /** `t` waits for document `d` with group `g`, whose task is still there. */
  ghost predicate WaitsFor(s: System, t: Ticket, g: GroupId, d: DocId) {
    && t in s.futures && s.futures[t].Waiting?
    && t < |s.log| && s.log[t] == Registered(g, d)
    && g < |s.groups| && Live(s.groups[g])
  }

  lemma WaiterIsListed(s: System, t: Ticket, g: GroupId, d: DocId)
    requires Inv(s) && WaitsFor(s, t, g, d)
    ensures var group := s.groups[g];
      && d in group.pending && d in group.waiters && t in group.waiters[d]
      && WaitersOk(s.log, g, group.waiters)
  {
    assert StatusOk(s, t) && GroupOk(s.log, s.registry, g, s.groups[g]);
  }

  /** Resolving documents of its own group reaches a waiter exactly when its document is among them. */
  lemma {:induction false} ResolveReaches(s: System, t: Ticket, g: GroupId, d: DocId, docs: set<DocId>, status: Status)
    requires Inv(s) && WaitsFor(s, t, g, d) && !status.Waiting?
    ensures ResolveDocs(s.futures, s.groups[g].waiters, docs, status)[t] == if d in docs then status else Waiting
  {
    WaiterIsListed(s, t, g, d);
    ResolveDocsEffect(s.log, g, s.futures, s.groups[g].waiters, docs, status, t);
  }

  lemma {:induction false} ResolveElsewhere(s: System, t: Ticket, g: GroupId, d: DocId, h: GroupId, docs: set<DocId>,
                                            status: Status)
    requires Inv(s) && WaitsFor(s, t, g, d) && h < |s.groups| && h != g && !status.Waiting?
    ensures ResolveDocs(s.futures, s.groups[h].waiters, docs, status)[t] == Waiting
  {
    assert GroupOk(s.log, s.registry, h, s.groups[h]);
    ResolveDocsEffect(s.log, h, s.futures, s.groups[h].waiters, docs, status, t);
  }

  // ---- The answer to a query -------------------------------------------------------------------

  /** The answer settles the entry that is pending for `d`: that very entry was asked about, and the answer has the
      document, or for a deletion does not. */
  predicate Settles(group: Group, matched: set<DocId>, d: DocId)
    requires group.phase.InFlight?
  {
    && d in group.pending && d in group.phase.snapshot && group.pending[d] == group.phase.snapshot[d]
    && (group.key.kind.Write? <==> d in matched)
  }

  predicate Inside(group: Group, order: seq<DocId>)
    requires group.phase.InFlight?
  {
    forall i :: 0 <= i < |order| ==> order[i] in group.phase.snapshot
  }

  lemma {:induction false} CreditedIffSettled(group: Group, matched: set<DocId>, order: seq<DocId>, d: DocId)
    requires group.phase.InFlight? && Inside(group, order)
    requires (set x | x in order) == SettledIds(group.key.kind, group.phase.snapshot, matched)
    ensures d in CreditedBy(group, order) <==> Settles(group, matched, d)
    ensures KnownPrefix(order, group.phase.snapshot) == |order|
  {
    AnswerInsideSnapshotNeverRaises(order, group.phase.snapshot);
    var settled := SettledIds(group.key.kind, group.phase.snapshot, matched);
    assert order[..KnownPrefix(order, group.phase.snapshot)] == order;
    assert d in order <==> d in settled by {
      assert d in (set x | x in order) <==> d in order;
    }
  }

  /** After an answer inside its snapshot, a waiting future succeeds exactly if its document's entry is settled; if
      not it goes on waiting while attempts are left, and times out with the last. */
  lemma {:induction false} AnswerDecides(s: System, g: GroupId, matched: set<DocId>, order: seq<DocId>, t: Ticket, d: DocId)
    requires Inv(s) && Enabled(s, Return(g, matched, order)) && Inside(s.groups[g], order) && WaitsFor(s, t, g, d)
    ensures var (group, s') := (s.groups[g], Next(s, Return(g, matched, order)));
      t in s'.futures && s'.futures[t] ==
        if Settles(group, matched, d) then Settled(|s.log|)
        else if group.phase.attempt < group.phase.budget then Waiting
        else TimedOut(|s.log| + 1)
  {
    var s1 := CreditStep(s, g, matched, order);
    CreditedIffSettled(s.groups[g], matched, order, d);
    ResolveReaches(s, t, g, d, CreditedBy(s.groups[g], order), Settled(|s.log|));
    CreditKeeps(s, g, matched, order, s1);
    assert Next(s, Return(g, matched, order)) == DecideStep(s1, g, false);
    if !Settles(s.groups[g], matched, d) {
      assert s1.log[t] == s.log[t] && WaitsFor(s1, t, g, d);
      WaiterIsListed(s1, t, g, d);
      ResolveReaches(s1, t, g, d, s1.groups[g].pending.Keys, TimedOut(|s1.log|));
    }
  }

  /** The entries the answer does not settle. */
  function Unsettled(group: Group, matched: set<DocId>): map<DocId, Ticket>
    requires group.phase.InFlight?
  {
    map d | d in group.pending && !Settles(group, matched, d) :: group.pending[d]
  }

  lemma {:induction false} CreditLeaves(s: System, g: GroupId, matched: set<DocId>, order: seq<DocId>)
    requires Enabled(s, Return(g, matched, order)) && Inside(s.groups[g], order)
    ensures CreditStep(s, g, matched, order).groups[g].pending == Unsettled(s.groups[g], matched)
  {
    var group := s.groups[g];
    forall d ensures d in CreditedBy(group, order) <==> Settles(group, matched, d) {
      CreditedIffSettled(group, matched, order, d);
    }
  }

  /** What that answer leaves of the group: exactly the unsettled entries stay pending, and the task ends when none is
      left, sleeps while attempts are left, and gives up otherwise. */
  lemma {:induction false} AnswerLeaves(s: System, g: GroupId, matched: set<DocId>, order: seq<DocId>)
    requires Enabled(s, Return(g, matched, order)) && Inside(s.groups[g], order)
    ensures var (group, s') := (s.groups[g], Next(s, Return(g, matched, order)));
      && g < |s'.groups| && s'.groups[g].key == group.key
      && var (left, after) := (Unsettled(group, matched), s'.groups[g]);
      && (left == map[] ==> after.pending == left && after.phase == Done(AllSettled))
      && (left != map[] && group.phase.attempt < group.phase.budget ==>
            after.pending == left && after.phase == Sleeping(group.phase.attempt, group.phase.budget))
      && (left != map[] && group.phase.attempt >= group.phase.budget ==> after.phase == Done(BudgetSpent))
  {
    var s1 := CreditStep(s, g, matched, order);
    CreditLeaves(s, g, matched, order);
    CreditedIffSettled(s.groups[g], matched, order, 0);
    assert Next(s, Return(g, matched, order)) == DecideStep(s1, g, false);
  }

  /** An id from outside the snapshot raises: every waiter that no earlier id has settled gets the exception. */
  lemma {:induction false} ForeignIdFailsEveryone(s: System, g: GroupId, matched: set<DocId>, order: seq<DocId>,
                                                  t: Ticket, d: DocId)
    requires Inv(s) && Enabled(s, Return(g, matched, order)) && !Inside(s.groups[g], order) && WaitsFor(s, t, g, d)
    ensures var s' := Next(s, Return(g, matched, order));
      && s'.groups[g].phase == Done(Crashed)
      && t in s'.futures && (s'.futures[t] == Failed(|s.log| + 1) || s'.futures[t] == Settled(|s.log|))
      && (!Settles(s.groups[g], matched, d) ==> s'.futures[t] == Failed(|s.log| + 1))
  {
    var group, s1 := s.groups[g], CreditStep(s, g, matched, order);
    AnswerInsideSnapshotNeverRaises(order, group.phase.snapshot);
    var n := KnownPrefix(order, group.phase.snapshot);
    assert d in CreditedBy(group, order) ==> Settles(group, matched, d) by {
      if d in CreditedBy(group, order) {
        assert d in order[..n] && d in order && d in (set x | x in order);
      }
    }
    ResolveReaches(s, t, g, d, CreditedBy(group, order), Settled(|s.log|));
    CreditKeeps(s, g, matched, order, s1);
    if d !in CreditedBy(group, order) {
      assert s1.log[t] == s.log[t] && WaitsFor(s1, t, g, d);
      WaiterIsListed(s1, t, g, d);
      ResolveReaches(s1, t, g, d, s1.groups[g].waiters.Keys, Failed(|s1.log|));
    }
  }

  // ---- Every other step ------------------------------------------------------------------------

  lemma {:induction false} ReturnElsewhereLeaves(s: System, h: GroupId, matched: set<DocId>, order: seq<DocId>,
                                                 t: Ticket, g: GroupId, d: DocId)
    requires Inv(s) && WaitsFor(s, t, g, d) && h != g && Enabled(s, Return(h, matched, order))
    ensures var s' := Next(s, Return(h, matched, order)); t in s'.futures && s'.futures[t] == Waiting
  {
    var s1 := CreditStep(s, h, matched, order);
    ResolveElsewhere(s, t, g, d, h, CreditedBy(s.groups[h], order), Settled(|s.log|));
    CreditKeeps(s, h, matched, order, s1);
    assert s1.log[t] == s.log[t] && WaitsFor(s1, t, g, d);
    ResolveElsewhere(s1, t, g, d, h, s1.groups[h].waiters.Keys, Failed(|s1.log|));
    ResolveElsewhere(s1, t, g, d, h, s1.groups[h].pending.Keys, TimedOut(|s1.log|));
  }

  /** No other step gives a waiting future anything, but for its own cancellation, an exception in its group's task,
      and a task that starts with no attempts to make. */
  lemma {:induction false} OtherStepsDecide(s: System, step: Step, t: Ticket, g: GroupId, d: DocId)
    requires Inv(s) && WaitsFor(s, t, g, d) && !(step.Return? && step.group == g)
    ensures var s' := Next(s, step);
      t in s'.futures && s'.futures[t] ==
        if step == CancelWaiter(t) then Abandoned
        else if step == Raise(g) then Failed(|s.log|)
        else if step.Start? && step.group == g && step.budget < 1 && s.groups[g].phase.Scheduled? then TimedOut(|s.log|)
        else Waiting
  {
    WaiterIsListed(s, t, g, d);
    if !Enabled(s, step) {
    } else if step.Return? {
      ReturnElsewhereLeaves(s, step.group, step.matched, step.order, t, g, d);
    } else if step.Raise? {
      var h := step.group;
      if h == g {
        ResolveReaches(s, t, g, d, s.groups[g].waiters.Keys, Failed(|s.log|));
      } else {
        ResolveElsewhere(s, t, g, d, h, s.groups[h].waiters.Keys, Failed(|s.log|));
      }
    } else if step.Start? && step.budget < 1 {
      var h := step.group;
      if h == g {
        ResolveReaches(s, t, g, d, s.groups[g].pending.Keys, TimedOut(|s.log|));
      } else {
        ResolveElsewhere(s, t, g, d, h, s.groups[h].pending.Keys, TimedOut(|s.log|));
      }
    } else if step.Register? {
      RegisterShape(s, step.key, step.doc);
    }
  }

  // ---- What is left over is asked about again --------------------------------------------------

  /** The step is not one of the sleeping task of `g`. */
  predicate LeavesAsleep(step: Step, g: GroupId) {
    step != Wake(g) && step != Raise(g) && step != KillTask(g)
  }

  /** The task of `g` sleeps after this attempt, with the document still to be settled. */
  predicate SleepsOn(s: System, g: GroupId, attempt: int, budget: int, d: DocId) {
    g < |s.groups| && s.groups[g].phase == Sleeping(attempt, budget) && d in s.groups[g].pending
  }

  lemma {:induction false} StepLeavesAsleep(s: System, step: Step, g: GroupId, attempt: int, budget: int, d: DocId)
    requires Inv(s) && SleepsOn(s, g, attempt, budget, d) && LeavesAsleep(step, g)
    ensures SleepsOn(Next(s, step), g, attempt, budget, d)
  {
    if step.Register? {
      RegisterShape(s, step.key, step.doc);
    } else if step.Return? && Enabled(s, step) {
      ReturnElsewhere(s, step, g);
    }
  }

  lemma {:induction false} RunLeavesAsleep(s: System, steps: seq<Step>, g: GroupId, attempt: int, budget: int, d: DocId)
    requires Inv(s) && SleepsOn(s, g, attempt, budget, d) && forall step :: step in steps ==> LeavesAsleep(step, g)
    ensures Inv(Execute(s, steps)) && SleepsOn(Execute(s, steps), g, attempt, budget, d)
    decreases |steps|
  {
    if steps != [] {
      var init, last := steps[..|steps| - 1], steps[|steps| - 1];
      RunLeavesAsleep(s, init, g, attempt, budget, d);
      StepLeavesAsleep(Execute(s, init), last, g, attempt, budget, d);
      NextKeeps(Execute(s, init), last, Execute(s, steps));
    }
  }

  lemma {:induction false} WakesUpWith(s: System, between: seq<Step>, g: GroupId, attempt: int, budget: int, d: DocId)
    requires Inv(s) && SleepsOn(s, g, attempt, budget, d) && forall step :: step in between ==> LeavesAsleep(step, g)
    ensures var s2 := Execute(s, between);
      var s3 := Next(s2, Wake(g));
      && g < |s2.groups| && g < |s3.groups|
      && s3.groups[g].phase == InFlight(attempt + 1, budget, |s2.log|, s2.groups[g].pending)
      && d in s3.groups[g].phase.snapshot
      && s3.log == s2.log + [Dispatched(g, attempt + 1, s3.groups[g].phase.snapshot)]
  {
    RunLeavesAsleep(s, between, g, attempt, budget, d);
    WakePolls(Execute(s, between), g);
  }

  /** The first query of a task asks about every document registered until it is sent. */
  lemma {:induction false} FirstQueryAsksAboutAll(s: System, g: GroupId, budget: int)
    requires Inv(s) && Enabled(s, Start(g, budget)) && budget >= 1
    ensures var s' := Next(s, Start(g, budget));
      && g < |s'.groups| && s'.groups[g].phase == InFlight(1, budget, |s.log|, s.groups[g].pending)
      && s'.log == s.log + [Dispatched(g, 1, s.groups[g].pending)]
  {
    assert GroupOk(s.log, s.registry, g, s.groups[g]);
  }

  lemma {:induction false} SpentStays(s: System, between: seq<Step>, g: GroupId)
    requires Inv(s) && g < |s.groups|
    ensures var s2 := Execute(s, between); g < |s2.groups| && g < |Next(s2, Wake(g)).groups|
  {
    GroupsStay(s, between);
    StepKeepsGroups(Execute(s, between), Wake(g));
  }

  /** Every document an answer leaves unsettled, late or not, is asked about again if and only if an attempt is left:
      then, whatever others do until the task wakes up, the next query's snapshot has it. */
  lemma {:induction false} UnsettledIsAskedAgainIffBudgetLeft(s: System, g: GroupId, matched: set<DocId>,
                                                              order: seq<DocId>, between: seq<Step>, d: DocId)
    requires Inv(s) && Enabled(s, Return(g, matched, order)) && Inside(s.groups[g], order)
    requires d in s.groups[g].pending && !Settles(s.groups[g], matched, d)
    requires forall step :: step in between ==> LeavesAsleep(step, g)
    ensures var (attempt, budget) := (s.groups[g].phase.attempt, s.groups[g].phase.budget);
      var s1 := Next(s, Return(g, matched, order));
      var s2 := Execute(s1, between);
      var s3 := Next(s2, Wake(g));
      && g < |s1.groups| && g < |s2.groups| && g < |s3.groups|
      && (attempt >= budget ==> s1.groups[g].phase == Done(BudgetSpent))
      && (attempt < budget ==>
            && s3.groups[g].phase == InFlight(attempt + 1, budget, |s2.log|, s2.groups[g].pending)
            && d in s3.groups[g].phase.snapshot
            && s3.log == s2.log + [Dispatched(g, attempt + 1, s3.groups[g].phase.snapshot)])
  {
    var group, s1 := s.groups[g], Next(s, Return(g, matched, order));
    AnswerLeaves(s, g, matched, order);
    assert d in Unsettled(group, matched);
    NextKeeps(s, Return(g, matched, order), s1);
    if group.phase.attempt < group.phase.budget {
      WakesUpWith(s1, between, g, group.phase.attempt, group.phase.budget, d);
    } else {
      SpentStays(s1, between, g);
    }
  }

  lemma {:induction false} GroupsStay(s: System, steps: seq<Step>)
    requires Inv(s)
    ensures Inv(Execute(s, steps)) && |s.groups| <= |Execute(s, steps).groups|
    decreases |steps|
  {
    if steps != [] {
      var init, last := steps[..|steps| - 1], steps[|steps| - 1];
      GroupsStay(s, init);
      NextKeeps(Execute(s, init), last, Execute(s, steps));
      StepKeepsGroups(Execute(s, init), last);
    }
  }

  lemma {:induction false} StepKeepsGroups(s: System, step: Step)
    requires Inv(s)
    ensures |s.groups| <= |Next(s, step).groups|
  {
    if step.Register? {
      RegisterShape(s, step.key, step.doc);
    }
  }

  // ---- A time-out comes after the last attempt -------------------------------------------------

  /** How many queries the group has sent. */
  function Queries(log: seq<Event>, g: GroupId): nat {
    if log == [] then 0
    else
      var last := log[|log| - 1];
      Queries(log[..|log| - 1], g) + if last.Dispatched? && last.group == g then 1 else 0
  }

  lemma {:induction false} QueriesSnoc(log: seq<Event>, e: Event, g: GroupId)
    ensures Queries(log + [e], g) == Queries(log, g) + if e.Dispatched? && e.group == g then 1 else 0
  {
    assert (log + [e])[..|log|] == log;
  }

  function AllAttempts(max: int): nat {
    if max < 1 then 0 else max
  }

  /** Where the task stands after `n` queries. */
  predicate Sent(phase: Phase, n: nat, max: int) {
    match phase
    case Idle => n == 0
    case Scheduled => n == 0
    case InFlight(attempt, budget, _, _) => budget == max && 1 <= attempt <= max && n == attempt
    case Sleeping(attempt, budget) => budget == max && 1 <= attempt < max && n == attempt
    case Done(ending) => n <= AllAttempts(max) && (ending == BudgetSpent ==> n == AllAttempts(max))
  }

  ghost predicate SentOk(s: System, g: GroupId, max: int) {
    if g < |s.groups| then Sent(s.groups[g].phase, Queries(s.log, g), max) else Queries(s.log, g) == 0
  }

  lemma DecideSends(group: Group, futures: Futures, raised: bool, at: nat, n: nat, max: int)
    requires group.phase.InFlight? && Sent(group.phase, n, max)
    ensures Sent(Decide(group, futures, raised, at).0.phase, n, max)
  {
  }

  lemma {:induction false} ReturnSends(s: System, h: GroupId, matched: set<DocId>, order: seq<DocId>, g: GroupId, max: int)
    requires Enabled(s, Return(h, matched, order)) && SentOk(s, g, max)
    ensures SentOk(Next(s, Return(h, matched, order)), g, max)
  {
    var s1 := CreditStep(s, h, matched, order);
    QueriesSnoc(s.log, Answered(h, s.groups[h].phase.sentAt, matched), g);
    QueriesSnoc(s1.log, Decided(h), g);
    assert s1.groups[h].phase == s.groups[h].phase;
    if h == g {
      DecideSends(s1.groups[g], s1.futures, KnownPrefix(order, s.groups[g].phase.snapshot) < |order|, |s1.log|,
                  Queries(s.log, g), max);
    }
  }

  lemma {:induction false} PollSends(s: System, h: GroupId, attempt: int, budget: int, g: GroupId, max: int)
    requires h < |s.groups| && s.groups[h].pending != map[] && SentOk(s, g, max)
    requires h == g ==> budget == max && 1 <= attempt <= max && Queries(s.log, g) == attempt - 1
    ensures SentOk(PollStep(s, h, attempt, budget), g, max)
  {
    QueriesSnoc(s.log, Dispatched(h, attempt, s.groups[h].pending), g);
  }

  lemma {:induction false} RegisterSends(s: System, key: Key, doc: DocId, g: GroupId, max: int)
    requires Inv(s) && SentOk(s, g, max)
    ensures SentOk(Next(s, Register(key, doc)), g, max)
  {
    RegisterShape(s, key, doc);
    QueriesSnoc(s.log, Registered(Host(s, key).0, doc), g);
  }

  lemma SentAtMostAll(phase: Phase, n: nat, max: int)
    requires Sent(phase, n, max)
    ensures n <= AllAttempts(max)
  {
  }

  /** A step that sends nothing and only ends a task. */
  lemma {:induction false} EndSends(s: System, h: GroupId, group: Group, futures: Futures, g: GroupId, max: int)
    requires h < |s.groups| && group.phase.Done? && SentOk(s, g, max)
    requires h == g && group.phase.ending == BudgetSpent ==> AllAttempts(max) == 0
    requires h == g ==> Live(s.groups[g])
    ensures SentOk(Put(s, h, group, futures, Decided(h)), g, max)
  {
    var s' := Put(s, h, group, futures, Decided(h));
    QueriesSnoc(s.log, Decided(h), g);
    assert Queries(s'.log, g) == Queries(s.log, g);
    if h == g {
      SentAtMostAll(s.groups[g].phase, Queries(s.log, g), max);
    }
  }

  lemma {:induction false} StepSends(s: System, step: Step, g: GroupId, max: int)
    requires Inv(s) && SentOk(s, g, max) && (step.Start? && step.group == g ==> step.budget == max)
    ensures SentOk(Next(s, step), g, max)
  {
    if !Enabled(s, step) {
    } else if step.Register? {
      RegisterSends(s, step.key, step.doc, g, max);
    } else if step.Return? {
      ReturnSends(s, step.group, step.matched, step.order, g, max);
    } else if step.CancelWaiter? {
      QueriesSnoc(s.log, WaiterCancelled(step.ticket), g);
    } else {
      var h := step.group;
      assert GroupOk(s.log, s.registry, h, s.groups[h]);
      if step.Wake? {
        PollSends(s, h, s.groups[h].phase.attempt + 1, s.groups[h].phase.budget, g, max);
      } else if step.Start? && step.budget >= 1 {
        PollSends(s, h, 1, step.budget, g, max);
      } else {
        EndSends(s, h, Next(s, step).groups[h], Next(s, step).futures, g, max);
      }
    }
  }

  lemma {:induction false} RunSends(steps: seq<Step>, g: GroupId, max: int)
    requires BudgetIs(steps, g, max)
    ensures SentOk(Execute(INITIAL, steps), g, max)
    decreases |steps|
  {
    if steps != [] {
      var init, last := steps[..|steps| - 1], steps[|steps| - 1];
      RunSends(init, g, max);
      EveryRunKeeps(init);
      StepSends(Execute(INITIAL, init), last, g, max);
    }
  }

  /** A future times out only when its group's task has sent every query that the policy allows, and has taken every
      step of its own that it ever takes. */
  lemma {:induction false} TimedOutOnlyWhenSpent(steps: seq<Step>, t: Ticket, max: int)
    ensures var s := Execute(INITIAL, steps);
      t in s.futures && s.futures[t].TimedOut? ==>
        && t < |s.log| && s.log[t].Registered?
        && var g := s.log[t].group;
        BudgetIs(steps, g, max) ==> Queries(s.log, g) == AllAttempts(max) && OwnSteps(INITIAL, steps, g) == Most(max)
  {
    var s := Execute(INITIAL, steps);
    EveryRunKeeps(steps);
    if t in s.futures && s.futures[t].TimedOut? {
      assert StatusOk(s, t);
      if BudgetIs(steps, s.log[t].group, max) {
        RunSends(steps, s.log[t].group, max);
        PollingIsBounded(steps, s.log[t].group, max);
      }
    }
  }
}
