/** Runs of the club service: what every chronological run of calls keeps, what a former owner may count on, and
    what is left once the calls are no longer atomic. */
module ClubRuns {

  import opened Club

  datatype Event = Event(call: Call, at: Time)

  /** A clock that never goes back. */
  predicate Chronological(start: Time, events: seq<Event>) {
    && (events != [] ==> start <= events[0].at)
    && (forall i, j :: 0 <= i < j < |events| ==> events[i].at <= events[j].at)
  }

  function Clock(start: Time, events: seq<Event>): Time {
    if events == [] then start else events[|events| - 1].at
  }

  function Execute(s: State, cfg: Settings, events: seq<Event>): State
    decreases |events|
  {
    if events == [] then s
    else
      var last := events[|events| - 1];
      Serve(Execute(s, cfg, events[..|events| - 1]), cfg, last.call, last.at).0
  }

  // ---- The invariant ---------------------------------------------------------------------------

  ghost predicate SoleOwner(s: State, u: User) {
    IsOwner(s, u) && forall v {:trigger IsOwner(s, v)} :: IsOwner(s, v) ==> v == u
  }

  /** A live club has exactly one owner; the two transfer fields go together; the former owner is not the owner,
      and inside the cooldown is an admin. */
  ghost predicate Inv(s: State, cfg: Settings, now: Time) {
    && (!s.alive ==> s.members == map[] && s.former.None?)
    && (s.alive ==>
      && (exists u :: SoleOwner(s, u))
      && (s.transferredAt.Some? <==> s.former.Some?)
      && (s.transferredAt.Some? ==> s.transferredAt.value <= now)
      && (s.former.Some? ==> !IsOwner(s, s.former.value))
      && (s.former.Some? && Cooling(s, cfg, now) ==> RoleOf(s, s.former.value) == Some(ADMIN)))
  }

  lemma TimePasses(s: State, cfg: Settings, now: Time, later: Time)
    requires Inv(s, cfg, now) && now <= later
    ensures Inv(s, cfg, later)
  {
  }

  /** Changing the standing of a non-owner to a non-owner one, an admin's if under protection, keeps the invariant
      and the owner. */
  lemma StandingKeeps(s: State, s': State, cfg: Settings, now: Time, u: User)
    requires Inv(s, cfg, now) && s.alive && !IsOwner(s, u) && !IsOwner(s', u)
    requires Protected(s, cfg, u, now) ==> RoleOf(s', u) == Some(ADMIN)
    requires s' == s.(members := s'.members) && forall v :: v != u ==> RoleOf(s', v) == RoleOf(s, v)
    ensures Inv(s', cfg, now)
    ensures forall v :: SoleOwner(s, v) ==> SoleOwner(s', v)
  {
    assert forall v :: IsOwner(s', v) <==> IsOwner(s, v);
    var o: User :| SoleOwner(s, o);
    assert SoleOwner(s', o);
  }

  lemma TransferKeeps(s: State, cfg: Settings, owner: User, target: User, now: Time)
    requires Inv(s, cfg, now)
    ensures Inv(DoTransfer(s, cfg, owner, target, now).0, cfg, now)
    ensures DoTransfer(s, cfg, owner, target, now).1.Transferred? ==>
      && SoleOwner(s, owner) && SoleOwner(DoTransfer(s, cfg, owner, target, now).0, target)
      && DoTransfer(s, cfg, owner, target, now).0.former == Some(owner)
  {
    var (s', r) := DoTransfer(s, cfg, owner, target, now);
    if r.Transferred? {
      assert IsOwner(s, owner) && forall v :: IsOwner(s, v) ==> v == owner;
      assert IsOwner(s', target) && !IsOwner(s', owner);
      forall v | IsOwner(s', v) ensures v == target {
        assert v != target && v != owner ==> IsOwner(s, v);
      }
      assert SoleOwner(s', target);
    }
  }

  lemma ReclaimKeeps(s: State, cfg: Settings, caller: User, now: Time)
    requires Inv(s, cfg, now)
    ensures Inv(DoReclaim(s, cfg, caller, now).0, cfg, now)
    ensures DoReclaim(s, cfg, caller, now).1.Reclaimed? ==> SoleOwner(DoReclaim(s, cfg, caller, now).0, caller)
  {
    var (s', r) := DoReclaim(s, cfg, caller, now);
    if r.Reclaimed? {
      var owner := FindOwner(s).value;
      assert forall v :: IsOwner(s, v) ==> v == owner;
      forall v | IsOwner(s', v) ensures v == caller {
        assert v != caller && v != owner ==> IsOwner(s, v);
      }
      assert SoleOwner(s', caller);
    }
  }

  /** The calls that touch only one member who is not the owner. */
  predicate IsStandingCall(call: Call) {
    call.Admit? || call.Review? || call.Remove? || call.ChangeRole? || call.Leave?
  }

  function Subject(call: Call): User
    requires IsStandingCall(call)
  {
    match call
    case Admit(user, _) => user
    case Review(_, target, _) => target
    case Remove(_, target) => target
    case ChangeRole(_, target, _) => target
    case Leave(caller) => caller
  }

  /** What a call about one member does, when it does anything. */
  lemma StandingCall(s: State, cfg: Settings, call: Call, now: Time)
    requires IsStandingCall(call) && Inv(s, cfg, now)
    ensures var s' := Serve(s, cfg, call, now).0;
      s' != s ==>
        && s.alive && !IsOwner(s, Subject(call)) && !IsOwner(s', Subject(call))
        && !Protected(s, cfg, Subject(call), now)
        && s' == s.(members := s'.members) && forall v :: v != Subject(call) ==> RoleOf(s', v) == RoleOf(s, v)
  {
  }

  lemma SetPolicyKeeps(s: State, cfg: Settings, caller: User, policy: JoinPolicy, now: Time)
    requires Inv(s, cfg, now)
    ensures Inv(DoSetPolicy(s, caller, policy).0, cfg, now)
    ensures forall v :: SoleOwner(s, v) ==> SoleOwner(DoSetPolicy(s, caller, policy).0, v)
  {
    var s' := DoSetPolicy(s, caller, policy).0;
    assert forall v :: IsOwner(s', v) <==> IsOwner(s, v);
    if s.alive {
      var o: User :| SoleOwner(s, o);
      assert SoleOwner(s', o);
    }
  }

  lemma ServeKeeps(s: State, cfg: Settings, call: Call, now: Time)
    requires Inv(s, cfg, now)
    ensures Inv(Serve(s, cfg, call, now).0, cfg, now)
  {
    var s' := Serve(s, cfg, call, now).0;
    if IsStandingCall(call) {
      StandingCall(s, cfg, call, now);
      if s' != s { StandingKeeps(s, s', cfg, now, Subject(call)); }
    } else {
      match call
      case Dissolve(_) =>
      case Transfer(owner, target) => TransferKeeps(s, cfg, owner, target, now);
      case Reclaim(caller) => ReclaimKeeps(s, cfg, caller, now);
      case SetPolicy(caller, policy) => SetPolicyKeeps(s, cfg, caller, policy, now);
    }
  }

  lemma ChronologicalPrefix(start: Time, events: seq<Event>, k: nat)
    requires Chronological(start, events) && k < |events|
    ensures Chronological(start, events[..k]) && Clock(start, events[..k]) <= events[k].at
  {
  }

  /** Ownership over runs: whatever is called, in whatever order, by a clock that never goes back. */
  lemma {:induction false} EveryRunKeeps(s: State, cfg: Settings, start: Time, events: seq<Event>)
    requires Inv(s, cfg, start) && Chronological(start, events)
    ensures Inv(Execute(s, cfg, events), cfg, Clock(start, events))
    decreases |events|
  {
    if events != [] {
      var k := |events| - 1;
      ChronologicalPrefix(start, events, k);
      EveryRunKeeps(s, cfg, start, events[..k]);
      var before := Execute(s, cfg, events[..k]);
      TimePasses(before, cfg, Clock(start, events[..k]), events[k].at);
      ServeKeeps(before, cfg, events[k].call, events[k].at);
    }
  }

  lemma FoundedHolds(creator: User, policy: JoinPolicy, cfg: Settings, start: Time)
    ensures Inv(Founded(creator, policy), cfg, start)
  {
    assert SoleOwner(Founded(creator, policy), creator);
  }

  /** A state some chronological run of calls can bring a new club to by the time `now`. */
  ghost predicate Reachable(s: State, cfg: Settings, now: Time) {
    exists creator: User, policy: JoinPolicy, start: Time, events: seq<Event> ::
      LeadsTo(creator, policy, cfg, start, events, s, now)
  }

  ghost predicate LeadsTo(creator: User, policy: JoinPolicy, cfg: Settings, start: Time, events: seq<Event>,
                          s: State, now: Time) {
    && Chronological(start, events) && Clock(start, events) <= now
    && s == Execute(Founded(creator, policy), cfg, events)
  }

  /** Every live club a run can reach has exactly one owner; both transfer fields are set or neither is; the
      recorded former owner is not the owner and, inside the cooldown, is an admin. */
  lemma OwnershipInvariant(s: State, cfg: Settings, now: Time)
    requires Reachable(s, cfg, now)
    ensures Inv(s, cfg, now)
  {
    var creator, policy, start, events :| LeadsTo(creator, policy, cfg, start, events, s, now);
    FoundedHolds(creator, policy, cfg, start);
    EveryRunKeeps(Founded(creator, policy), cfg, start, events);
    TimePasses(s, cfg, Clock(start, events), now);
  }

  /** The former owner's reclaim at `now` is answered by the clock alone: granted inside the window, expired after. */
  ghost predicate ReclaimDecidedByClock(s: State, cfg: Settings, former: User, now: Time) {
    var (s', r) := DoReclaim(s, cfg, former, now);
    if s.transferredAt.Some? && now - s.transferredAt.value <= cfg.window then
      && r.Reclaimed? && SoleOwner(s, r.demoted)
      && SoleOwner(s', former) && RoleOf(s', r.demoted) == Some(ADMIN)
      && s'.former.None? && s'.transferredAt.None?
    else
      r == Failed(ReclaimWindowExpired) && s' == s
  }

  lemma ReclaimByClock(s: State, cfg: Settings, former: User, now: Time)
    requires Inv(s, cfg, now) && s.former == Some(former)
    requires cfg.window < 0 || cfg.window < cfg.cooldown
    ensures ReclaimDecidedByClock(s, cfg, former, now)
  {
    var o: User :| SoleOwner(s, o);
    assert FindOwner(s) == Some(o);
    ReclaimKeeps(s, cfg, former, now);
  }

  /** With the window shorter than the cooldown, the former owner of any reachable live club gets the club back
      by asking inside the window, never a conflict. */
  lemma GuaranteedReclaim(s: State, cfg: Settings, former: User, now: Time)
    requires Reachable(s, cfg, now) && s.former == Some(former)
    requires cfg.window < 0 || cfg.window < cfg.cooldown
    ensures ReclaimDecidedByClock(s, cfg, former, now)
  {
    OwnershipInvariant(s, cfg, now);
    ReclaimByClock(s, cfg, former, now);
  }

  /** Found, admit, transfer, leave after the cooldown. */
  function Desertion(at: Time): seq<Event> {
    [Event(Admit(1, true), 0), Event(Transfer(0, 1), 0), Event(Leave(0), at)]
  }

  lemma Deserted(cfg: Settings, at: Time, s1: State, s2: State, s3: State)
    requires cfg.cooldown <= at && 0 <= at
    requires s1 == Serve(Founded(0, PUBLIC), cfg, Admit(1, true), 0).0
    requires s2 == Serve(s1, cfg, Transfer(0, 1), 0).0
    requires s3 == Serve(s2, cfg, Leave(0), at).0
    ensures s3.former == Some(0) && s3.transferredAt == Some(0) && RoleOf(s3, 0).None?
    ensures DoReclaim(s3, cfg, 0, at).1 == (if at <= cfg.window then Failed(TransferConflict)
                                            else Failed(ReclaimWindowExpired))
  {
    assert s1.members == map[0 := Active(OWNER), 1 := Active(MEMBER)];
    assert s2.members == map[0 := Active(ADMIN), 1 := Active(OWNER)];
    assert IsOwner(s3, 1);
    assert FindOwner(s3).Some?;
  }

  /** The guarantee is exactly the configuration: with a window as long as the cooldown, a former owner who leaves
      when the cooldown ends is then refused with a conflict although the window is still open. */
  lemma ReclaimGuaranteedIffWindowInsideCooldown(cfg: Settings)
    ensures (forall s, former, now :: Reachable(s, cfg, now) && s.former == Some(former)
                                      ==> ReclaimDecidedByClock(s, cfg, former, now))
       <==> cfg.window < 0 || cfg.window < cfg.cooldown
  {
    if cfg.window < 0 || cfg.window < cfg.cooldown {
      forall s, former, now | Reachable(s, cfg, now) && s.former == Some(former)
        ensures ReclaimDecidedByClock(s, cfg, former, now)
      {
        GuaranteedReclaim(s, cfg, former, now);
      }
    } else {
      var at := if cfg.cooldown < 0 then 0 else cfg.cooldown;
      var events := Desertion(at);
      var s0 := Founded(0, PUBLIC);
      var s1 := Serve(s0, cfg, Admit(1, true), 0).0;
      var s2 := Serve(s1, cfg, Transfer(0, 1), 0).0;
      var s3 := Serve(s2, cfg, Leave(0), at).0;
      Deserted(cfg, at, s1, s2, s3);
      ThreeSteps(s0, cfg, events);
      assert LeadsTo(0, PUBLIC, cfg, 0, events, s3, at);
      assert Reachable(s3, cfg, at) && !ReclaimDecidedByClock(s3, cfg, 0, at);
    }
  }

  lemma ThreeSteps(s: State, cfg: Settings, events: seq<Event>)
    requires |events| == 3
    ensures Execute(s, cfg, events) ==
      Serve(Serve(Serve(s, cfg, events[0].call, events[0].at).0,
                  cfg, events[1].call, events[1].at).0,
            cfg, events[2].call, events[2].at).0
  {
    var two, one := events[..2], events[..1];
    assert two[..1] == one && one[..0] == [];
    assert Execute(s, cfg, one) == Serve(Execute(s, cfg, one[..0]), cfg, one[0].call, one[0].at).0;
    assert Execute(s, cfg, two) == Serve(Execute(s, cfg, two[..1]), cfg, two[1].call, two[1].at).0;
  }

  lemma TransferNeverConflicts(s: State, cfg: Settings, owner: User, target: User, now: Time)
    requires Inv(s, cfg, now)
    ensures DoTransfer(s, cfg, owner, target, now).1 != Failed(TransferConflict)
  {
    if IsOwner(s, owner) && target != owner && RoleOf(s, target).Some? {
      var o: User :| SoleOwner(s, o);
      assert o == owner && !IsOwner(s, target);
      assert RoleOf(s, target).value != OWNER;
      assert Promotable(s, target);
      assert RoleOf(SetStatus(s, target, Active(OWNER)), owner) == RoleOf(s, owner);
      assert HandOver(s, owner, target, now).Some?;
    }
  }

  /** Called one after the other, the calls never meet the conflicts their compare-and-set writes guard against. */
  lemma ConflictsNeedConcurrency(s: State, cfg: Settings, call: Call, now: Time)
    requires Reachable(s, cfg, now)
    ensures Serve(s, cfg, call, now).1 != Failed(RoleChangeConflict)
    ensures call.Transfer? ==> Serve(s, cfg, call, now).1 != Failed(TransferConflict)
  {
    OwnershipInvariant(s, cfg, now);
    if call.Transfer? {
      TransferNeverConflicts(s, cfg, call.owner, call.target, now);
    }
  }

  // ---- The promise of a transfer ---------------------------------------------------------------

  /** Nobody succeeds in passing ownership on, or back. */
  predicate Undisturbed(s: State, cfg: Settings, events: seq<Event>)
    decreases |events|
  {
    events == [] ||
    var k := |events| - 1;
    && Undisturbed(s, cfg, events[..k])
    && var reply := Serve(Execute(s, cfg, events[..k]), cfg, events[k].call, events[k].at).1;
       !reply.Reclaimed? && !reply.Transferred?
  }

  ghost predicate Promised(s: State, former: User, at: Time) {
    s.alive && s.former == Some(former) && s.transferredAt == Some(at)
  }

  lemma PromiseStep(s: State, cfg: Settings, call: Call, now: Time, former: User, at: Time)
    requires Inv(s, cfg, now) && Promised(s, former, at) && now - at < cfg.cooldown
    requires var r := Serve(s, cfg, call, now).1; !r.Reclaimed? && !r.Transferred?
    ensures Promised(Serve(s, cfg, call, now).0, former, at)
  {
    if IsStandingCall(call) {
      StandingCall(s, cfg, call, now);
    }
  }

  lemma {:induction false} PromiseStands(s: State, cfg: Settings, start: Time, events: seq<Event>,
                                         former: User, at: Time)
    requires Inv(s, cfg, start) && Promised(s, former, at) && Chronological(start, events)
    requires Undisturbed(s, cfg, events) && Clock(start, events) - at < cfg.cooldown
    ensures Promised(Execute(s, cfg, events), former, at)
    decreases |events|
  {
    if events != [] {
      var k := |events| - 1;
      ChronologicalPrefix(start, events, k);
      PromiseStands(s, cfg, start, events[..k], former, at);
      EveryRunKeeps(s, cfg, start, events[..k]);
      var before := Execute(s, cfg, events[..k]);
      TimePasses(before, cfg, Clock(start, events[..k]), events[k].at);
      PromiseStep(before, cfg, events[k].call, events[k].at, former, at);
    }
  }

  /** A transfer names the time until which it can be taken back.  Whatever anybody calls meanwhile, the club is not
      dissolved, the former owner is not removed, and as long as ownership is not passed on a reclaim up to that
      very time succeeds, and any later one is expired. */
  lemma {:induction false} PromiseIsKept(s: State, cfg: Settings, owner: User, heir: User, now: Time, events: seq<Event>, t: Time)
    requires Inv(s, cfg, now) && cfg.window < cfg.cooldown
    requires DoTransfer(s, cfg, owner, heir, now).1.Transferred?
    requires Chronological(now, events) && Clock(now, events) <= t && t < now + cfg.cooldown
    requires Undisturbed(DoTransfer(s, cfg, owner, heir, now).0, cfg, events)
    ensures var (s1, r1) := DoTransfer(s, cfg, owner, heir, now);
      var (s2, r2) := DoReclaim(Execute(s1, cfg, events), cfg, owner, t);
      && (t <= r1.reclaimUntil ==> r2 == Reclaimed(heir) && SoleOwner(s2, owner))
      && (t > r1.reclaimUntil ==> r2 == Failed(ReclaimWindowExpired))
  {
    var s1 := DoTransfer(s, cfg, owner, heir, now).0;
    TransferKeeps(s, cfg, owner, heir, now);
    PromiseStands(s1, cfg, now, events, owner, now);
    EveryRunKeeps(s1, cfg, now, events);
    var s2 := Execute(s1, cfg, events);
    TimePasses(s2, cfg, Clock(now, events), t);
    ReclaimByClock(s2, cfg, owner, t);
    assert Pair(s1, heir, owner);
    UndisturbedIsQuick(s1, cfg, events);
    OwnershipStaysWithinPair(s1, cfg, now, events, heir, owner);
    assert SoleOwner(s2, heir);
  }

  lemma {:induction false} UndisturbedIsQuick(s: State, cfg: Settings, events: seq<Event>)
    requires Undisturbed(s, cfg, events)
    ensures Quick(s, cfg, events)
    decreases |events|
  {
    if events != [] {
      UndisturbedIsQuick(s, cfg, events[..|events| - 1]);
    }
  }

  /** Passing ownership on matters: an heir who gives the club back becomes the former owner, and a reclaim by the
      heir then ends with the first owner an admin with nothing to reclaim. */
  lemma {:induction false} GivingBackUndoesThePromise(s: State, cfg: Settings, owner: User, heir: User, now: Time)
    requires Inv(s, cfg, now) && 0 <= cfg.window < cfg.cooldown
    requires DoTransfer(s, cfg, owner, heir, now).1.Transferred?
    ensures var s1 := DoTransfer(s, cfg, owner, heir, now).0;
      var (s2, r2) := DoTransfer(s1, cfg, heir, owner, now);
      var (s3, r3) := DoReclaim(s2, cfg, heir, now);
      && r2.Transferred? && r3 == Reclaimed(owner) && SoleOwner(s3, heir)
      && DoReclaim(s3, cfg, owner, now).1 == Failed(Unauthorized)
  {
    TransferKeeps(s, cfg, owner, heir, now);
    var s1 := DoTransfer(s, cfg, owner, heir, now).0;
    TransferNeverConflicts(s1, cfg, heir, owner, now);
    TransferKeeps(s1, cfg, heir, owner, now);
    var s2 := DoTransfer(s1, cfg, heir, owner, now).0;
    ReclaimByClock(s2, cfg, heir, now);
    assert SoleOwner(s2, owner);
  }

  /** Taking a transfer back restores every role but the heir's, who stays an admin. */
  lemma TransferAndReclaim(s: State, cfg: Settings, owner: User, heir: User, now: Time, t: Time)
    requires Inv(s, cfg, now) && cfg.window < cfg.cooldown && now <= t <= now + cfg.window
    requires DoTransfer(s, cfg, owner, heir, now).1.Transferred?
    ensures DoReclaim(DoTransfer(s, cfg, owner, heir, now).0, cfg, owner, t).0
         == s.(members := s.members[heir := Active(ADMIN)], transferredAt := None, former := None)
  {
    TransferKeeps(s, cfg, owner, heir, now);
    var s1 := DoTransfer(s, cfg, owner, heir, now).0;
    TimePasses(s1, cfg, now, t);
    ReclaimByClock(s1, cfg, owner, t);
    var (s2, r) := DoReclaim(s1, cfg, owner, t);
    assert r == Reclaimed(heir);
    assert s2.members == s.members[heir := Active(ADMIN)];
  }

  // ---- The pair --------------------------------------------------------------------------------

  /** The owner and the former owner on record. */
  ghost predicate Pair(s: State, a: User, b: User) {
    || (SoleOwner(s, a) && s.former == Some(b))
    || (SoleOwner(s, b) && s.former == Some(a))
  }

  /** No reclaim succeeds, and every transfer that succeeds is inside the cooldown of the last. */
  predicate Quick(s: State, cfg: Settings, events: seq<Event>)
    decreases |events|
  {
    events == [] ||
    var k := |events| - 1;
    var before := Execute(s, cfg, events[..k]);
    && Quick(s, cfg, events[..k])
    && var reply := Serve(before, cfg, events[k].call, events[k].at).1;
       !reply.Reclaimed? && (reply.Transferred? ==> Cooling(before, cfg, events[k].at))
  }

  lemma PairStep(s: State, cfg: Settings, call: Call, now: Time, a: User, b: User)
    requires Inv(s, cfg, now) && s.alive && Pair(s, a, b)
    requires var r := Serve(s, cfg, call, now).1;
      !r.Reclaimed? && (r.Transferred? ==> Cooling(s, cfg, now))
    ensures var s' := Serve(s, cfg, call, now).0; s'.alive ==> Pair(s', a, b)
  {
    var s' := Serve(s, cfg, call, now).0;
    if IsStandingCall(call) {
      StandingCall(s, cfg, call, now);
      if s' != s { StandingKeeps(s, s', cfg, now, Subject(call)); }
    } else {
      match call
      case Dissolve(_) =>
      case Transfer(owner, target) => TransferKeeps(s, cfg, owner, target, now);
      case Reclaim(caller) =>
      case SetPolicy(caller, policy) => SetPolicyKeeps(s, cfg, caller, policy, now);
    }
  }

  lemma DeadStaysDead(s: State, cfg: Settings, call: Call, now: Time)
    requires Inv(s, cfg, now) && !s.alive
    ensures Serve(s, cfg, call, now).0 == s
  {
  }

  /** After a transfer, as long as each further transfer comes inside the cooldown of the last and none is
      reclaimed, ownership only passes back and forth between the same two people. */
  lemma {:induction false} OwnershipStaysWithinPair(s: State, cfg: Settings, start: Time, events: seq<Event>,
                                                   a: User, b: User)
    requires Inv(s, cfg, start) && s.alive && Pair(s, a, b)
    requires Chronological(start, events) && Quick(s, cfg, events)
    ensures Execute(s, cfg, events).alive ==> Pair(Execute(s, cfg, events), a, b)
    decreases |events|
  {
    if events != [] {
      var k := |events| - 1;
      ChronologicalPrefix(start, events, k);
      OwnershipStaysWithinPair(s, cfg, start, events[..k], a, b);
      EveryRunKeeps(s, cfg, start, events[..k]);
      var before := Execute(s, cfg, events[..k]);
      TimePasses(before, cfg, Clock(start, events[..k]), events[k].at);
      if before.alive {
        PairStep(before, cfg, events[k].call, events[k].at, a, b);
      } else {
        DeadStaysDead(before, cfg, events[k].call, events[k].at);
      }
    }
  }

  // ---- Who may do what -------------------------------------------------------------------------

  function Actor(call: Call): User {
    match call
    case Admit(user, _) => user
    case Review(reviewer, _, _) => reviewer
    case Remove(remover, _) => remover
    case ChangeRole(caller, _, _) => caller
    case Leave(caller) => caller
    case Dissolve(caller) => caller
    case Transfer(owner, _) => owner
    case Reclaim(caller) => caller
    case SetPolicy(caller, _) => caller
  }

  /** Nobody's role is lowered, or raised, or taken, except by someone who outranks both what it was and what it
      becomes; the one who takes ownership, by transfer or reclaim, is the only exception.  */
  lemma RankIsRespected(s: State, cfg: Settings, call: Call, now: Time, u: User)
    requires u != Actor(call) && RoleOf(s, u).Some?
    ensures var s' := Serve(s, cfg, call, now).0;
      RoleOf(s', u) != RoleOf(s, u) ==>
        || call.Dissolve?
        || (call == Transfer(Actor(call), u) && RoleOf(s', u) == Some(OWNER))
        || (call.Reclaim? && IsOwner(s, u) && RoleOf(s', u) == Some(ADMIN))
        || (&& RoleOf(s, Actor(call)).Some? && Outranks(RoleOf(s, Actor(call)).value, RoleOf(s, u).value)
            && (RoleOf(s', u).Some? ==> Outranks(RoleOf(s, Actor(call)).value, RoleOf(s', u).value)))
  {
  }

  /** Ranks leave role changes to owners: an admin outranks only members, and a member can only be made an admin,
      whom an admin does not outrank. */
  lemma {:induction false} OnlyOwnersChangeRoles(s: State, cfg: Settings, caller: User, target: User, role: Role, now: Time)
    ensures var (s', reply) := DoChangeRole(s, cfg, caller, target, role, now);
      reply.RoleChanged? ==>
        && IsOwner(s, caller) && !IsOwner(s, target) && RoleOf(s', target) == Some(role)
        && RoleOf(s, target) == Some(if reply.promotion then MEMBER else ADMIN)
        && role == if reply.promotion then ADMIN else MEMBER
  {
  }

  predicate NoInvitation(events: seq<Event>, u: User) {
    forall i :: 0 <= i < |events| ==> events[i].call != Admit(u, true)
  }

  /** A ban lasts as long as the club: only a direct invitation lets the user back in. */
  lemma {:induction false} BanHolds(s: State, cfg: Settings, start: Time, events: seq<Event>, u: User)
    requires Inv(s, cfg, start) && Chronological(start, events) && NoInvitation(events, u)
    requires u in s.members && s.members[u] == BANNED
    ensures var s' := Execute(s, cfg, events); s'.alive ==> u in s'.members && s'.members[u] == BANNED
    decreases |events|
  {
    if events != [] {
      var k := |events| - 1;
      ChronologicalPrefix(start, events, k);
      BanHolds(s, cfg, start, events[..k], u);
      EveryRunKeeps(s, cfg, start, events[..k]);
      var before := Execute(s, cfg, events[..k]);
      TimePasses(before, cfg, Clock(start, events[..k]), events[k].at);
      if before.alive {
        BanStep(before, cfg, events[k].call, events[k].at, u);
      } else {
        DeadStaysDead(before, cfg, events[k].call, events[k].at);
      }
    }
  }

  lemma BanStep(s: State, cfg: Settings, call: Call, now: Time, u: User)
    requires call != Admit(u, true) && u in s.members && s.members[u] == BANNED
    ensures var s' := Serve(s, cfg, call, now).0; s'.alive ==> u in s'.members && s'.members[u] == BANNED
  {
  }
}
