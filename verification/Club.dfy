/** Club membership and ownership: services/club.py over repositories/beanie/club_membership.py, for one club.

    A step is one service call, run to its end against the stored documents; the clock never goes back. */
module Club {

  type User = nat
  type Time = int

  datatype Option<T> = None | Some(value: T)

  datatype Role = OWNER | ADMIN | MEMBER

  datatype Status = Active(role: Role) | PENDING | BANNED

  datatype JoinPolicy = PUBLIC | RESTRICTED

  /** The club document; `transferredAt` and `former` are `ownership_transferred_at` and
      `protected_former_owner_id`.  `alive` is false once the club is dissolved. */
  datatype State = State(
    alive: bool,
    members: map<User, Status>,
    transferredAt: Option<Time>,
    former: Option<User>,
    policy: JoinPolicy)

  /** The configured reclaim window and transfer cooldown. */
  datatype Settings = Settings(window: Time, cooldown: Time)

  datatype Reply =
    | Done
    | Onboarded(status: Onboarding)
    | RoleChanged(promotion: bool)
    | RoleUnchanged
    | Transferred(reclaimUntil: Time)
    | Reclaimed(demoted: User)
    | Failed(error: Error)

  datatype Onboarding = JOINED | PENDING_APPROVAL | ALREADY_MEMBER | BANNED_FROM_CLUB

  datatype Error =
    | ClubNotFound
    | DuplicateMembership
    | Unauthorized
    | PendingRequestNotFound
    | MemberNotFound
    | FormerOwnerProtected
    | CannotChangeOwnerRole
    | RoleChangeConflict
    | OwnerCannotLeave
    | TransferToSelf
    | TransferCooldown
    | TransferConflict
    | ReclaimWindowExpired

  datatype Call =
    | Admit(user: User, isDirect: bool)
    | Review(reviewer: User, target: User, approve: bool)
    | Remove(remover: User, target: User)
    | ChangeRole(caller: User, target: User, role: Role)
    | Leave(caller: User)
    | Dissolve(caller: User)
    | Transfer(owner: User, target: User)
    | Reclaim(caller: User)
    | SetPolicy(caller: User, policy: JoinPolicy)

  // ---- The documents ---------------------------------------------------------------------------

  function RoleOf(s: State, u: User): Option<Role> {
    if u in s.members && s.members[u].Active? then Some(s.members[u].role) else None
  }

  predicate IsPrivileged(r: Option<Role>) {
    r == Some(OWNER) || r == Some(ADMIN)
  }

  function Rank(r: Role): nat {
    match r case OWNER => 0 case ADMIN => 1 case MEMBER => 2
  }

  predicate Outranks(actor: Role, target: Role) {
    Rank(actor) < Rank(target)
  }

  predicate Promotable(s: State, u: User) {
    RoleOf(s, u) == Some(ADMIN) || RoleOf(s, u) == Some(MEMBER)
  }

  function SetStatus(s: State, u: User, status: Status): State {
    s.(members := s.members[u := status])
  }

  function WithoutMember(s: State, u: User): State {
    s.(members := s.members - {u})
  }

  /** The transactional hand-over of the repository: promote, demote, record; any miss rolls all of it back. */
  function HandOver(s: State, owner: User, heir: User, at: Time): Option<State> {
    if !Promotable(s, heir) then None
    else
      var s1 := SetStatus(s, heir, Active(OWNER));
      if RoleOf(s1, owner) != Some(OWNER) then None
      else if !s.alive then None
      else Some(SetStatus(s1, owner, Active(ADMIN)).(transferredAt := Some(at), former := Some(owner)))
  }

  function TakeBack(s: State, former: User, owner: User): Option<State> {
    if RoleOf(s, former) != Some(ADMIN) then None
    else
      var s1 := SetStatus(s, former, Active(OWNER));
      if RoleOf(s1, owner) != Some(OWNER) then None
      else if !s.alive || s.former != Some(former) then None
      else Some(SetStatus(s1, owner, Active(ADMIN)).(transferredAt := None, former := None))
  }

  predicate IsOwner(s: State, u: User) {
    RoleOf(s, u) == Some(OWNER)
  }

  /** `find_owner_id_by_club_id`: an owner, if there is one; should there be several, the least stands for the
      one the driver returns. */
  function FindOwner(s: State): (r: Option<User>)
    ensures r.Some? ==> IsOwner(s, r.value)
    ensures r.None? ==> forall u :: !IsOwner(s, u)
  {
    var owners := set u | u in s.members && IsOwner(s, u);
    if owners == {} then
      assert forall u :: IsOwner(s, u) ==> u in owners;
      None
    else
      Some(Least(owners))
  }

  function Least(us: set<User>): (m: User)
    requires us != {}
    ensures IsLeast(m, us)
  {
    HasLeast(us);
    var m :| IsLeast(m, us);
    m
  }

  predicate IsLeast(m: User, us: set<User>) {
    m in us && forall u :: u in us ==> m <= u
  }

  lemma HasLeast(us: set<User>)
    requires us != {}
    ensures exists m :: IsLeast(m, us)
  {
    var _ := LeastOf(us);
  }

  lemma LeastOf(us: set<User>) returns (m: User)
    requires us != {}
    ensures IsLeast(m, us)
  {
    var x :| x in us;
    m := x;
    if us - {x} != {} {
      var least := LeastOf(us - {x});
      m := if x <= least then x else least;
    }
    forall u | u in us ensures m <= u {
      assert u == x || u in us - {x};
    }
  }

  // ---- The guards ------------------------------------------------------------------------------

  /** Inside the cooldown of a transfer. */
  predicate Cooling(s: State, cfg: Settings, now: Time) {
    s.transferredAt.Some? && now - s.transferredAt.value < cfg.cooldown
  }

  predicate Protected(s: State, cfg: Settings, u: User, now: Time) {
    s.former == Some(u) && Cooling(s, cfg, now)
  }

  // ---- The service calls -----------------------------------------------------------------------

  function DoAdmit(s: State, user: User, isDirect: bool): (State, Reply) {
    if !s.alive then (s, Failed(ClubNotFound))
    else if RoleOf(s, user).Some? then (s, Onboarded(ALREADY_MEMBER))
    else if isDirect then (SetStatus(s, user, Active(MEMBER)), Onboarded(JOINED))
    else if user in s.members && s.members[user] == BANNED then (s, Onboarded(BANNED_FROM_CLUB))
    else if s.policy == PUBLIC then (SetStatus(s, user, Active(MEMBER)), Onboarded(JOINED))
    else if user in s.members then (s, Failed(DuplicateMembership))
    else (SetStatus(s, user, PENDING), Onboarded(PENDING_APPROVAL))
  }

  function DoReview(s: State, reviewer: User, target: User, approve: bool): (State, Reply) {
    if !IsPrivileged(RoleOf(s, reviewer)) then (s, Failed(Unauthorized))
    else if !(target in s.members && s.members[target] == PENDING) then (s, Failed(PendingRequestNotFound))
    else if approve then (SetStatus(s, target, Active(MEMBER)), Done)
    else (WithoutMember(s, target), Done)
  }

  function DoRemove(s: State, cfg: Settings, remover: User, target: User, now: Time): (State, Reply) {
    var r, t := RoleOf(s, remover), RoleOf(s, target);
    if !IsPrivileged(r) then (s, Failed(Unauthorized))
    else if t.None? then (s, Failed(MemberNotFound))
    else if !Outranks(r.value, t.value) then (s, Failed(Unauthorized))
    else if Protected(s, cfg, target, now) then (s, Failed(FormerOwnerProtected))
    else (SetStatus(s, target, BANNED), Done)
  }

  function DoChangeRole(s: State, cfg: Settings, caller: User, target: User, role: Role, now: Time): (State, Reply) {
    var c, t := RoleOf(s, caller), RoleOf(s, target);
    if role == OWNER then (s, Failed(CannotChangeOwnerRole))
    else if c.None? then (s, Failed(Unauthorized))
    else if t.None? then (s, Failed(MemberNotFound))
    else if t.value == OWNER then (s, Failed(CannotChangeOwnerRole))
    else if t.value == role then (s, RoleUnchanged)
    else if !Outranks(c.value, t.value) then (s, Failed(Unauthorized))
    else if !Outranks(c.value, role) then (s, Failed(Unauthorized))
    else if Protected(s, cfg, target, now) then (s, Failed(FormerOwnerProtected))
    else if !Promotable(s, target) then (s, Failed(RoleChangeConflict))
    else (SetStatus(s, target, Active(role)), RoleChanged(Outranks(role, t.value)))
  }

  function DoLeave(s: State, cfg: Settings, caller: User, now: Time): (State, Reply) {
    var c := RoleOf(s, caller);
    if c.None? then (s, Failed(Unauthorized))
    else if c.value == OWNER then (s, Failed(OwnerCannotLeave))
    else if Protected(s, cfg, caller, now) then (s, Failed(FormerOwnerProtected))
    else (WithoutMember(s, caller), Done)
  }

  function DoDissolve(s: State, cfg: Settings, caller: User, now: Time): (State, Reply) {
    if RoleOf(s, caller) != Some(OWNER) then (s, Failed(Unauthorized))
    else if s.former.Some? && Cooling(s, cfg, now) then (s, Failed(FormerOwnerProtected))
    else (State(false, map[], None, None, s.policy), Done)
  }

  function DoTransfer(s: State, cfg: Settings, owner: User, target: User, now: Time): (State, Reply) {
    if target == owner then (s, Failed(TransferToSelf))
    else if RoleOf(s, owner) != Some(OWNER) then (s, Failed(Unauthorized))
    else if RoleOf(s, target).None? then (s, Failed(MemberNotFound))
    else if s.former != Some(target) && Cooling(s, cfg, now) then (s, Failed(TransferCooldown))
    else
      match HandOver(s, owner, target, now)
      case None => (s, Failed(TransferConflict))
      case Some(s') => (s', Transferred(now + cfg.window))
  }

  function DoReclaim(s: State, cfg: Settings, caller: User, now: Time): (State, Reply) {
    if s.former != Some(caller) then (s, Failed(Unauthorized))
    else if s.transferredAt.None? || FindOwner(s).None? then (s, Failed(TransferConflict))
    else if now - s.transferredAt.value > cfg.window then (s, Failed(ReclaimWindowExpired))
    else
      match TakeBack(s, caller, FindOwner(s).value)
      case None => (s, Failed(TransferConflict))
      case Some(s') => (s', Reclaimed(FindOwner(s).value))
  }

  function DoSetPolicy(s: State, caller: User, policy: JoinPolicy): (State, Reply) {
    if !IsPrivileged(RoleOf(s, caller)) then (s, Failed(Unauthorized))
    else if !s.alive then (s, Failed(ClubNotFound))
    else (s.(policy := policy), Done)
  }

  function Serve(s: State, cfg: Settings, call: Call, now: Time): (State, Reply) {
    match call
    case Admit(user, isDirect) => DoAdmit(s, user, isDirect)
    case Review(reviewer, target, approve) => DoReview(s, reviewer, target, approve)
    case Remove(remover, target) => DoRemove(s, cfg, remover, target, now)
    case ChangeRole(caller, target, role) => DoChangeRole(s, cfg, caller, target, role, now)
    case Leave(caller) => DoLeave(s, cfg, caller, now)
    case Dissolve(caller) => DoDissolve(s, cfg, caller, now)
    case Transfer(owner, target) => DoTransfer(s, cfg, owner, target, now)
    case Reclaim(caller) => DoReclaim(s, cfg, caller, now)
    case SetPolicy(caller, policy) => DoSetPolicy(s, caller, policy)
  }

  /** A new club: its creator owns it. */
  function Founded(creator: User, policy: JoinPolicy): State {
    State(true, map[creator := Active(OWNER)], None, None, policy)
  }

  // ---- The stored documents, updated in place --------------------------------------------------

  /** The membership and club documents of one club. */
  class Repository {
    var alive: bool
    var members: map<User, Status>
    var transferredAt: Option<Time>
    var former: Option<User>
    var policy: JoinPolicy

    function Value(): State
      reads this
    {
      State(alive, members, transferredAt, former, policy)
    }

    constructor (creator: User, joinPolicy: JoinPolicy)
      ensures Value() == Founded(creator, joinPolicy)
    {
      alive, members, transferredAt, former, policy := true, map[creator := Active(OWNER)], None, None, joinPolicy;
    }

    method FindMemberRole(u: User) returns (role: Option<Role>)
      ensures role == RoleOf(Value(), u)
    {
      if u in members {
        match members[u]
        case Active(r) => return Some(r);
        case PENDING => return None;
        case BANNED => return None;
      }
      return None;
    }

    method FindOwnerId() returns (owner: Option<User>)
      ensures owner == FindOwner(Value())
    {
      owner := FindOwner(Value());
    }

    method UpsertMember(u: User, role: Role)
      modifies this`members
      ensures Value() == SetStatus(old(Value()), u, Active(role))
    {
      members := members[u := Active(role)];
    }

    /** Plain insert: the unique index on the member refuses a second document. */
    method CreatePendingRequest(u: User) returns (inserted: bool)
      modifies this`members
      ensures inserted == (u !in old(members))
      ensures Value() == if inserted then SetStatus(old(Value()), u, PENDING) else old(Value())
    {
      inserted := u !in members;
      if inserted {
        members := members[u := PENDING];
      }
    }

    method DeleteMembership(u: User)
      modifies this`members
      ensures Value() == WithoutMember(old(Value()), u)
    {
      members := members - {u};
    }

    method BanMember(u: User)
      modifies this`members
      ensures Value() == if u in old(members) then SetStatus(old(Value()), u, BANNED) else old(Value())
    {
      if u in members {
        members := members[u := BANNED];
      }
    }

    /** Sets the status of `u` if it is one of `among` now. */
    method SetStatusAmong(u: User, among: set<Status>, status: Status) returns (matched: bool)
      modifies this`members
      ensures matched == (u in old(members) && old(members)[u] in among)
      ensures Value() == if matched then SetStatus(old(Value()), u, status) else old(Value())
    {
      matched := u in members && members[u] in among;
      if matched {
        members := members[u := status];
      }
    }

    method ChangeMemberRole(u: User, role: Role) returns (changed: bool)
      modifies this`members
      ensures changed == Promotable(old(Value()), u)
      ensures Value() == if changed then SetStatus(old(Value()), u, Active(role)) else old(Value())
    {
      changed := SetStatusAmong(u, {Active(ADMIN), Active(MEMBER)}, Active(role));
    }

    /** The transaction aborts on the first update that matches nothing: the documents are as they were. */
    method TransferOwnership(owner: User, heir: User, at: Time) returns (transferred: bool)
      modifies this
      ensures transferred == HandOver(old(Value()), owner, heir, at).Some?
      ensures Value() == if transferred then HandOver(old(Value()), owner, heir, at).value else old(Value())
    {
      var snapshot := members;
      var promoted := SetStatusAmong(heir, {Active(ADMIN), Active(MEMBER)}, Active(OWNER));
      if !promoted {
        return false;
      }
      var demoted := SetStatusAmong(owner, {Active(OWNER)}, Active(ADMIN));
      if !demoted || !alive {
        members := snapshot;
        return false;
      }
      transferredAt, former := Some(at), Some(owner);
      return true;
    }

    method ReclaimOwnership(formerOwner: User, owner: User) returns (reclaimed: bool)
      modifies this
      ensures reclaimed == TakeBack(old(Value()), formerOwner, owner).Some?
      ensures Value() == if reclaimed then TakeBack(old(Value()), formerOwner, owner).value else old(Value())
    {
      var snapshot := members;
      var promoted := SetStatusAmong(formerOwner, {Active(ADMIN)}, Active(OWNER));
      if !promoted {
        return false;
      }
      var demoted := SetStatusAmong(owner, {Active(OWNER)}, Active(ADMIN));
      if !demoted || !alive || former != Some(formerOwner) {
        members := snapshot;
        return false;
      }
      transferredAt, former := None, None;
      return true;
    }

    method DeleteWithMemberships()
      modifies this
      ensures Value() == State(false, map[], None, None, old(policy))
    {
      alive, members, transferredAt, former := false, map[], None, None;
    }
  }
}
