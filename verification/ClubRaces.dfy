/** The club under concurrency: any number of service calls, whose guards read at one moment and whose single write
    lands at another.  Each write is one document update or one transaction, so writes are atomic; nothing else is. */
module ClubRaces {

  import opened Club
  import opened ClubRuns

  datatype Write =
    | Upsert(user: User, role: Role)
    | CreatePending(user: User)
    | Delete(user: User)
    | Ban(user: User)
    | SetRole(user: User, role: Role)
    | HandTo(owner: User, heir: User, at: Time)
    | TakeFrom(former: User, owner: User)
    | DeleteClub
    | SetJoinPolicy(policy: JoinPolicy)

  function Apply(s: State, w: Write): State {
    match w
    case Upsert(u, role) => SetStatus(s, u, Active(role))
    case CreatePending(u) => if u in s.members then s else SetStatus(s, u, PENDING)
    case Delete(u) => WithoutMember(s, u)
    case Ban(u) => if u in s.members then SetStatus(s, u, BANNED) else s
    case SetRole(u, role) => if Promotable(s, u) then SetStatus(s, u, Active(role)) else s
    case HandTo(owner, heir, at) => var after := HandOver(s, owner, heir, at); if after.Some? then after.value else s
    case TakeFrom(former, owner) => var after := TakeBack(s, former, owner); if after.Some? then after.value else s
    case DeleteClub => State(false, map[], None, None, s.policy)
    case SetJoinPolicy(policy) => if s.alive then s.(policy := policy) else s
  }

  /** The write a call goes on to make once its guards have passed on what they read. */
  function WriteOf(s: State, cfg: Settings, call: Call, now: Time): Option<Write> {
    var reply := Serve(s, cfg, call, now).1;
    match call
    case Admit(user, _) =>
      if reply == Onboarded(JOINED) then Some(Upsert(user, MEMBER))
      else if reply == Onboarded(PENDING_APPROVAL) || reply == Failed(DuplicateMembership)
      then Some(CreatePending(user))
      else None
    case Review(_, target, approve) =>
      if reply != Done then None else if approve then Some(Upsert(target, MEMBER)) else Some(Delete(target))
    case Remove(_, target) => if reply == Done then Some(Ban(target)) else None
    case ChangeRole(_, target, role) =>
      if reply.RoleChanged? || reply == Failed(RoleChangeConflict) then Some(SetRole(target, role)) else None
    case Leave(caller) => if reply == Done then Some(Delete(caller)) else None
    case Dissolve(_) => if reply == Done then Some(DeleteClub) else None
    case Transfer(owner, target) =>
      if reply.Transferred? || reply == Failed(TransferConflict) then Some(HandTo(owner, target, now)) else None
    case Reclaim(caller) =>
      if FindOwner(s).Some? && (reply.Reclaimed? || reply == Failed(TransferConflict)) && s.transferredAt.Some?
      then Some(TakeFrom(caller, FindOwner(s).value)) else None
    case SetPolicy(_, policy) => if reply == Done then Some(SetJoinPolicy(policy)) else None
  }

  /** The writes the service makes: outside the hand-over and the take-back, none names an owner. */
  predicate Issued(w: Write) {
    && (w.Upsert? ==> w.role == MEMBER)
    && (w.SetRole? ==> w.role != OWNER)
  }

  /** A call run alone is its guards and then its write. */
  lemma ServeIsGuardsThenWrite(s: State, cfg: Settings, call: Call, now: Time)
    ensures var w := WriteOf(s, cfg, call, now);
      && Serve(s, cfg, call, now).0 == (if w.Some? then Apply(s, w.value) else s)
      && (w.Some? ==> Issued(w.value))
  {
  }

  function Perform(s: State, writes: seq<Write>): State
    decreases |writes|
  {
    if writes == [] then s
    else Apply(Perform(s, writes[..|writes| - 1]), writes[|writes| - 1])
  }

  ghost predicate AtMostOneOwner(s: State) {
    forall u, v :: IsOwner(s, u) && IsOwner(s, v) ==> u == v
  }

  lemma WriteKeepsAtMostOne(s: State, w: Write)
    requires AtMostOneOwner(s) && Issued(w)
    ensures AtMostOneOwner(Apply(s, w))
  {
    var s' := Apply(s, w);
    if (w.HandTo? || w.TakeFrom?) && s' != s {
      var up := if w.HandTo? then w.heir else w.former;
      forall u | IsOwner(s', u) ensures u == up || (w.owner == up && IsOwner(s, u)) {
        assert u != up && u != w.owner ==> IsOwner(s, u);
        assert w.owner != up ==> IsOwner(s, w.owner);
      }
      assert w.owner == up ==> !IsOwner(s', up);
    } else {
      forall u | IsOwner(s', u) ensures IsOwner(s, u) {
      }
    }
  }

  /** However the writes of however many calls interleave, and however stale what their guards read, a club never
      has two owners. */
  lemma {:induction false} NeverTwoOwners(s: State, writes: seq<Write>)
    requires AtMostOneOwner(s) && forall i :: 0 <= i < |writes| ==> Issued(writes[i])
    ensures AtMostOneOwner(Perform(s, writes))
    decreases |writes|
  {
    if writes != [] {
      var k := |writes| - 1;
      NeverTwoOwners(s, writes[..k]);
      WriteKeepsAtMostOne(Perform(s, writes[..k]), writes[k]);
    }
  }

  ghost predicate Ownerless(s: State) {
    forall u :: !IsOwner(s, u)
  }

  /** The one owner is lost to exactly four writes: those that touch a member without looking at the status they
      overwrite, when the member is the owner, and the club's end. */
  lemma OwnerIsLostExactlyBy(s: State, w: Write, o: User)
    requires SoleOwner(s, o) && Issued(w)
    ensures Ownerless(Apply(s, w)) <==> w == Upsert(o, MEMBER) || w == Delete(o) || w == Ban(o) || w == DeleteClub
  {
    var s' := Apply(s, w);
    if w == Upsert(o, MEMBER) || w == Delete(o) || w == Ban(o) || w == DeleteClub {
      forall u ensures !IsOwner(s', u) {
        assert u != o ==> !IsOwner(s, u);
      }
    } else if w.HandTo? && s' != s {
      assert IsOwner(s', w.heir) || IsOwner(s', o);
    } else if w.TakeFrom? && s' != s {
      assert IsOwner(s', w.former) || IsOwner(s', o);
    } else {
      assert IsOwner(s', o);
    }
  }

  /** No write makes an owner where there is none. */
  lemma OwnerlessStays(s: State, w: Write)
    requires Ownerless(s) && Issued(w)
    ensures Ownerless(Apply(s, w))
  {
    if (w.HandTo? || w.TakeFrom?) && Apply(s, w) != s {
      var up := if w.HandTo? then w.heir else w.former;
      assert !IsOwner(s, w.owner) && !IsOwner(s, up);
    }
    forall u ensures !IsOwner(Apply(s, w), u) {
      assert !IsOwner(s, u);
    }
  }

  /** The write takes out whoever owns the club at that moment. */
  ghost predicate HitsOwner(s: State, w: Write) {
    exists o :: SoleOwner(s, o) && (w == Upsert(o, MEMBER) || w == Delete(o) || w == Ban(o) || w == DeleteClub)
  }

  ghost predicate HitsAt(s: State, writes: seq<Write>, k: nat) {
    k < |writes| && HitsOwner(Perform(s, writes[..k]), writes[k])
  }

  ghost predicate SomeHit(s: State, writes: seq<Write>) {
    exists k {:trigger HitsAt(s, writes, k)} :: 0 <= k && HitsAt(s, writes, k)
  }

  lemma SomeHitSnoc(s: State, writes: seq<Write>)
    requires writes != []
    ensures SomeHit(s, writes) <==>
      SomeHit(s, writes[..|writes| - 1]) || HitsOwner(Perform(s, writes[..|writes| - 1]), writes[|writes| - 1])
  {
    var init := writes[..|writes| - 1];
    forall k: nat | k < |init| ensures HitsAt(s, init, k) <==> HitsAt(s, writes, k) {
      assert init[..k] == writes[..k];
    }
    if SomeHit(s, init) {
      var k: nat :| HitsAt(s, init, k);
      assert HitsAt(s, writes, k);
    }
    if SomeHit(s, writes) {
      var k: nat :| HitsAt(s, writes, k);
      assert k < |init| ==> HitsAt(s, init, k);
    }
    assert HitsAt(s, writes, |init|) <==> HitsOwner(Perform(s, init), writes[|init|]);
  }

  lemma OneOrNone(s: State)
    requires AtMostOneOwner(s)
    ensures Ownerless(s) || exists o :: SoleOwner(s, o)
  {
    if !Ownerless(s) {
      var o :| IsOwner(s, o);
      assert SoleOwner(s, o);
    }
  }

  /** However the writes interleave: a club with an owner ends without one if and only if some write hit the owner of
      its moment; and once it has none it never has one again. */
  lemma {:induction false} OwnerlessExactlyWhenHit(s: State, writes: seq<Write>, o: User)
    requires SoleOwner(s, o) && forall i :: 0 <= i < |writes| ==> Issued(writes[i])
    ensures Ownerless(Perform(s, writes)) <==> SomeHit(s, writes)
    decreases |writes|
  {
    if writes == [] {
      assert IsOwner(s, o);
    } else {
      var init, w := writes[..|writes| - 1], writes[|writes| - 1];
      OwnerlessExactlyWhenHit(s, init, o);
      SomeHitSnoc(s, writes);
      var before := Perform(s, init);
      NeverTwoOwners(s, init);
      OneOrNone(before);
      if Ownerless(before) {
        OwnerlessStays(before, w);
      } else {
        var p :| SoleOwner(before, p);
        OwnerIsLostExactlyBy(before, w, p);
        assert forall q :: SoleOwner(before, q) ==> q == p;
      }
    }
  }

  lemma {:induction false} OwnerlessForGood(s: State, writes: seq<Write>)
    requires Ownerless(s) && forall i :: 0 <= i < |writes| ==> Issued(writes[i])
    ensures Ownerless(Perform(s, writes))
    decreases |writes|
  {
    if writes != [] {
      OwnerlessForGood(s, writes[..|writes| - 1]);
      OwnerlessStays(Perform(s, writes[..|writes| - 1]), writes[|writes| - 1]);
    }
  }

  lemma TransferHandsOver(s: State, cfg: Settings, owner: User, heir: User, now: Time)
    requires Inv(s, cfg, now) && Serve(s, cfg, Transfer(owner, heir), now).1.Transferred?
    ensures WriteOf(s, cfg, Transfer(owner, heir), now) == Some(HandTo(owner, heir, now))
    ensures SoleOwner(Apply(s, HandTo(owner, heir, now)), heir)
  {
    TransferKeeps(s, cfg, owner, heir, now);
  }

  /** A removal, or a departure, whose guards ran before a transfer to that member and whose write lands after it
      leaves the club with nobody in charge, wherever both calls would have succeeded alone. */
  lemma RaceOrphansClub(s: State, cfg: Settings, owner: User, heir: User, call: Call, now: Time)
    requires Inv(s, cfg, now)
    requires Serve(s, cfg, Transfer(owner, heir), now).1.Transferred?
    requires WriteOf(s, cfg, call, now) == Some(Ban(heir)) || WriteOf(s, cfg, call, now) == Some(Delete(heir))
    ensures Ownerless(Perform(s, [WriteOf(s, cfg, Transfer(owner, heir), now).value,
                                  WriteOf(s, cfg, call, now).value]))
  {
    var first, second := WriteOf(s, cfg, Transfer(owner, heir), now).value, WriteOf(s, cfg, call, now).value;
    TransferHandsOver(s, cfg, owner, heir, now);
    var between := Apply(s, first);
    OwnerIsLostExactlyBy(between, second, heir);
    var writes := [first, second];
    assert writes[..1] == [first] && writes[..1][..0] == [];
    assert Perform(s, writes[..1]) == Apply(Perform(s, writes[..1][..0]), first) == between;
  }

  /** Such a race is there in a club of two: the owner removes the only member while handing the club over. */
  lemma RaceExists(cfg: Settings, s: State)
    requires s == Founded(0, PUBLIC).(members := map[0 := Active(OWNER), 1 := Active(MEMBER)])
    ensures Inv(s, cfg, 0) && Serve(s, cfg, Transfer(0, 1), 0).1.Transferred?
    ensures WriteOf(s, cfg, Remove(0, 1), 0) == Some(Ban(1)) && WriteOf(s, cfg, Leave(1), 0) == Some(Delete(1))
  {
    assert SoleOwner(s, 0);
  }

  /** An admission does the same: of two that overlap one lets the user in, the club passes to that user, and the other
      makes the owner a plain member. */
  lemma LateAdmissionOrphansClub(s: State, cfg: Settings, owner: User, heir: User, isDirect: bool, now: Time)
    requires Inv(s, cfg, now) && WriteOf(s, cfg, Admit(heir, isDirect), now) == Some(Upsert(heir, MEMBER))
    requires Serve(Apply(s, Upsert(heir, MEMBER)), cfg, Transfer(owner, heir), now).1.Transferred?
    ensures Ownerless(Perform(s, [Upsert(heir, MEMBER), HandTo(owner, heir, now), Upsert(heir, MEMBER)]))
  {
    var admit, hand := Upsert(heir, MEMBER), HandTo(owner, heir, now);
    var writes := [admit, hand, admit];
    ServeKeeps(s, cfg, Admit(heir, isDirect), now);
    ServeIsGuardsThenWrite(s, cfg, Admit(heir, isDirect), now);
    var joined := Apply(s, admit);
    TransferHandsOver(joined, cfg, owner, heir, now);
    var between := Apply(joined, hand);
    OwnerIsLostExactlyBy(between, admit, heir);
    assert writes[..1] == [admit] && writes[..2] == [admit, hand];
    assert writes[..1][..0] == [] && writes[..2][..1] == writes[..1];
    assert Perform(s, writes[..1]) == joined;
    assert Perform(s, writes[..2]) == between;
  }

  // ---- What callers can arrange ----------------------------------------------------------------

  /** The club, and the writes of the calls that have read the target of their write but not made it yet. */
  datatype Floor = Floor(club: State, open: seq<Write>)

  datatype Step = Guard(write: Write) | Commit(k: nat)

  /** The write takes away whatever its target is. */
  predicate Demotes(w: Write) {
    w.Upsert? || w.Delete? || w.Ban?
  }

  /** The guard that reads the target lets only those through who are not the owner. */
  predicate Spares(s: State, w: Write) {
    Demotes(w) ==> !IsOwner(s, w.user)
  }

  /** So it is with every call, whatever its other guards read and when. */
  lemma EveryCallSpares(s: State, cfg: Settings, call: Call, now: Time)
    ensures var w := WriteOf(s, cfg, call, now); w.Some? ==> Issued(w.value) && Spares(s, w.value)
  {
  }

  function Next(f: Floor, step: Step): Floor {
    match step
    case Guard(w) => if Issued(w) && Spares(f.club, w) then f.(open := f.open + [w]) else f
    case Commit(k) =>
      if k < |f.open| then Floor(Apply(f.club, f.open[k]), f.open[..k] + f.open[k + 1..]) else f
  }

  function Run(f: Floor, steps: seq<Step>): Floor
    decreases |steps|
  {
    if steps == [] then f else Next(Run(f, steps[..|steps| - 1]), steps[|steps| - 1])
  }

  predicate MakesOwner(w: Write, u: User) {
    (w.HandTo? && w.heir == u) || (w.TakeFrom? && w.former == u)
  }

  /** Nobody is being admitted, reviewed, removed or leaving while the club is being passed to them. */
  ghost predicate Apart(open: seq<Write>) {
    forall j, k {:trigger open[j], open[k]} ::
      0 <= j < |open| && 0 <= k < |open| && Demotes(open[j]) ==> !MakesOwner(open[k], open[j].user)
  }

  ghost predicate AlwaysApart(f: Floor, steps: seq<Step>)
    decreases |steps|
  {
    Apart(Run(f, steps).open) && (steps != [] ==> AlwaysApart(f, steps[..|steps| - 1]))
  }

  ghost predicate Led(s: State) {
    AtMostOneOwner(s) && (s.alive ==> exists o :: SoleOwner(s, o))
  }

  ghost predicate AllSpare(s: State, open: seq<Write>) {
    forall k {:trigger open[k]} :: 0 <= k < |open| ==> Issued(open[k]) && Spares(s, open[k])
  }

  lemma WriteKeepsLed(s: State, w: Write)
    requires Led(s) && Issued(w) && Spares(s, w)
    ensures Led(Apply(s, w))
  {
    WriteKeepsAtMostOne(s, w);
    if Apply(s, w).alive {
      var o :| SoleOwner(s, o);
      OwnerIsLostExactlyBy(s, w, o);
      OneOrNone(Apply(s, w));
    }
  }

  lemma NewOwner(s: State, w: Write, u: User)
    requires Issued(w) && !IsOwner(s, u) && !MakesOwner(w, u)
    ensures !IsOwner(Apply(s, w), u)
  {
  }

  lemma {:induction false} CommitSpares(f: Floor, k: nat)
    requires AllSpare(f.club, f.open) && Apart(f.open) && k < |f.open|
    ensures AllSpare(Apply(f.club, f.open[k]), f.open[..k] + f.open[k + 1..])
  {
    var rest := f.open[..k] + f.open[k + 1..];
    forall j | 0 <= j < |rest| ensures Issued(rest[j]) && Spares(Apply(f.club, f.open[k]), rest[j]) {
      var v := f.open[if j < k then j else j + 1];
      assert rest[j] == v;
      if Demotes(v) {
        NewOwner(f.club, f.open[k], v.user);
      }
    }
  }

  /** For every interleaving: if no admission, review, removal or departure of a user overlaps a transfer to that user,
      or that user's reclaim, then for as long as the club exists it has exactly one owner. */
  lemma {:induction false} TurnsKeepTheOwner(f: Floor, steps: seq<Step>)
    requires Led(f.club) && f.open == [] && AlwaysApart(f, steps)
    ensures Led(Run(f, steps).club) && AllSpare(Run(f, steps).club, Run(f, steps).open)
    decreases |steps|
  {
    if steps != [] {
      var init, step := steps[..|steps| - 1], steps[|steps| - 1];
      TurnsKeepTheOwner(f, init);
      var before := Run(f, init);
      if step.Commit? && step.k < |before.open| {
        assert AlwaysApart(f, init) && Apart(before.open);
        WriteKeepsLed(before.club, before.open[step.k]);
        CommitSpares(before, step.k);
      }
    }
  }
}
