/** The club service over the stored documents: guards first, then at most one write.  What each call guarantees its
    caller, in a club that keeps the ownership invariant. */
module ClubService {

  import opened Club
  import opened ClubRuns

  function Standing(s: State, u: User): Option<Status> {
    if u in s.members then Some(s.members[u]) else None
  }

  /** Nothing but the standing of `u` differs. */
  ghost predicate OnlyTouches(s: State, s': State, u: User) {
    s' == s.(members := s'.members) && forall v {:trigger Standing(s', v)} :: v != u ==> Standing(s', v) == Standing(s, v)
  }

  /** Whoever owned the club still does, alone. */
  ghost predicate SameOwner(s: State, s': State) {
    forall o {:trigger SoleOwner(s, o)} :: SoleOwner(s, o) ==> SoleOwner(s', o)
  }

  lemma StandingCallGuarantee(s: State, cfg: Settings, call: Call, now: Time)
    requires Inv(s, cfg, now) && IsStandingCall(call)
    ensures var s' := Serve(s, cfg, call, now).0;
      Inv(s', cfg, now) && OnlyTouches(s, s', Subject(call)) && SameOwner(s, s')
  {
    var s' := Serve(s, cfg, call, now).0;
    StandingCall(s, cfg, call, now);
    if s' != s {
      StandingKeeps(s, s', cfg, now, Subject(call));
    }
  }

  class Service {
    const repo: Repository
    const settings: Settings

    constructor (repo: Repository, settings: Settings)
      ensures this.repo == repo && this.settings == settings
    {
      this.repo, this.settings := repo, settings;
    }

    /** Whoever is let in becomes a plain member: invited, or by the policy and never banned.  A request waits only
        where there was no record of the user at all. */
    method AdmitUser(user: User, isDirect: bool, now: Time) returns (r: Reply)
      requires Inv(repo.Value(), settings, now)
      modifies repo
      ensures Inv(repo.Value(), settings, now) && SameOwner(old(repo.Value()), repo.Value())
      ensures OnlyTouches(old(repo.Value()), repo.Value(), user)
      ensures r == Onboarded(JOINED) ==>
        && RoleOf(old(repo.Value()), user).None? && RoleOf(repo.Value(), user) == Some(MEMBER)
        && (isDirect || (old(repo.policy) == PUBLIC && Standing(old(repo.Value()), user) != Some(BANNED)))
      ensures r == Onboarded(PENDING_APPROVAL) ==>
        && Standing(old(repo.Value()), user).None? && Standing(repo.Value(), user) == Some(PENDING)
        && !isDirect && repo.policy == RESTRICTED
      ensures r != Onboarded(JOINED) && r != Onboarded(PENDING_APPROVAL) ==> repo.Value() == old(repo.Value())
      ensures (repo.Value(), r) == Serve(old(repo.Value()), settings, Admit(user, isDirect), now)
    {
      StandingCallGuarantee(repo.Value(), settings, Admit(user, isDirect), now);
      if !repo.alive {
        return Failed(ClubNotFound);
      }
      var role := repo.FindMemberRole(user);
      if role.Some? {
        return Onboarded(ALREADY_MEMBER);
      }
      if isDirect {
        repo.UpsertMember(user, MEMBER);
        return Onboarded(JOINED);
      }
      if user in repo.members && repo.members[user] == BANNED {
        return Onboarded(BANNED_FROM_CLUB);
      }
      if repo.policy == PUBLIC {
        repo.UpsertMember(user, MEMBER);
        return Onboarded(JOINED);
      }
      var inserted := repo.CreatePendingRequest(user);
      return if inserted then Onboarded(PENDING_APPROVAL) else Failed(DuplicateMembership);
    }

    /** A review settles a pending request one way or the other, and nothing else. */
    method ReviewPendingRequest(reviewer: User, target: User, approve: bool, now: Time) returns (r: Reply)
      requires Inv(repo.Value(), settings, now)
      modifies repo
      ensures Inv(repo.Value(), settings, now) && SameOwner(old(repo.Value()), repo.Value())
      ensures OnlyTouches(old(repo.Value()), repo.Value(), target)
      ensures r == Done ==>
        && IsPrivileged(RoleOf(old(repo.Value()), reviewer)) && Standing(old(repo.Value()), target) == Some(PENDING)
        && Standing(repo.Value(), target) == if approve then Some(Active(MEMBER)) else None
      ensures r != Done ==> r.Failed? && repo.Value() == old(repo.Value())
      ensures (repo.Value(), r) == Serve(old(repo.Value()), settings, Review(reviewer, target, approve), now)
    {
      StandingCallGuarantee(repo.Value(), settings, Review(reviewer, target, approve), now);
      var role := repo.FindMemberRole(reviewer);
      if !IsPrivileged(role) {
        return Failed(Unauthorized);
      }
      if !(target in repo.members && repo.members[target] == PENDING) {
        return Failed(PendingRequestNotFound);
      }
      if approve {
        repo.UpsertMember(target, MEMBER);
      } else {
        repo.DeleteMembership(target);
      }
      return Done;
    }

    /** A removal bans exactly an active member whom the remover outranks: never the owner, and never the former owner
        under protection. */
    method RemoveMember(remover: User, target: User, now: Time) returns (r: Reply)
      requires Inv(repo.Value(), settings, now)
      modifies repo
      ensures Inv(repo.Value(), settings, now) && SameOwner(old(repo.Value()), repo.Value())
      ensures OnlyTouches(old(repo.Value()), repo.Value(), target)
      ensures r == Done ==>
        && Standing(repo.Value(), target) == Some(BANNED)
        && !IsOwner(old(repo.Value()), target) && !Protected(old(repo.Value()), settings, target, now)
        && (IsOwner(old(repo.Value()), remover) || RoleOf(old(repo.Value()), target) == Some(MEMBER))
      ensures r != Done ==> r.Failed? && repo.Value() == old(repo.Value())
      ensures r == Failed(FormerOwnerProtected) ==> repo.former == Some(target)
      ensures (repo.Value(), r) == Serve(old(repo.Value()), settings, Remove(remover, target), now)
    {
      StandingCallGuarantee(repo.Value(), settings, Remove(remover, target), now);
      var removerRole := repo.FindMemberRole(remover);
      if !IsPrivileged(removerRole) {
        return Failed(Unauthorized);
      }
      var targetRole := repo.FindMemberRole(target);
      if targetRole.None? {
        return Failed(MemberNotFound);
      }
      if !Outranks(removerRole.value, targetRole.value) {
        return Failed(Unauthorized);
      }
      if Protected(repo.Value(), settings, target, now) {
        return Failed(FormerOwnerProtected);
      }
      repo.BanMember(target);
      return Done;
    }

    /** The guards of a role change: the target's role, None for a change to the same role, or why not. */
    method EnsureRoleChangeIsAllowed(caller: User, target: User, role: Role, now: Time)
      returns (targetRole: Option<Role>, refusal: Option<Error>)
      ensures var (s, (s', r)) := (repo.Value(), DoChangeRole(repo.Value(), settings, caller, target, role, now));
        && (refusal.Some? ==> s' == s && r == Failed(refusal.value))
        && (refusal.None? && targetRole.None? ==> s' == s && r == RoleUnchanged)
        && (refusal.None? && targetRole.Some? ==>
              && targetRole == RoleOf(s, target) && Promotable(s, target)
              && s' == SetStatus(s, target, Active(role)) && r == RoleChanged(Outranks(role, targetRole.value)))
    {
      if role == OWNER {
        return None, Some(CannotChangeOwnerRole);
      }
      var callerRole := repo.FindMemberRole(caller);
      if callerRole.None? {
        return None, Some(Unauthorized);
      }
      var current := repo.FindMemberRole(target);
      if current.None? {
        return None, Some(MemberNotFound);
      }
      if current.value == OWNER {
        return None, Some(CannotChangeOwnerRole);
      }
      if current.value == role {
        return None, None;
      }
      if !Outranks(callerRole.value, current.value) || !Outranks(callerRole.value, role) {
        return None, Some(Unauthorized);
      }
      if Protected(repo.Value(), settings, target, now) {
        return None, Some(FormerOwnerProtected);
      }
      return current, None;
    }

    /** A role changes only at the owner's hand, between admin and plain member, and the write never conflicts. */
    method ChangeMemberRole(caller: User, target: User, role: Role, now: Time) returns (r: Reply)
      requires Inv(repo.Value(), settings, now)
      modifies repo
      ensures Inv(repo.Value(), settings, now) && SameOwner(old(repo.Value()), repo.Value())
      ensures OnlyTouches(old(repo.Value()), repo.Value(), target)
      ensures r.RoleChanged? ==>
        && IsOwner(old(repo.Value()), caller) && !Protected(old(repo.Value()), settings, target, now)
        && RoleOf(old(repo.Value()), target) == Some(if r.promotion then MEMBER else ADMIN)
        && RoleOf(repo.Value(), target) == Some(if r.promotion then ADMIN else MEMBER) == Some(role)
      ensures !r.RoleChanged? ==> repo.Value() == old(repo.Value()) && r != Failed(RoleChangeConflict)
      ensures (repo.Value(), r) == Serve(old(repo.Value()), settings, ChangeRole(caller, target, role), now)
    {
      StandingCallGuarantee(repo.Value(), settings, ChangeRole(caller, target, role), now);
      OnlyOwnersChangeRoles(repo.Value(), settings, caller, target, role, now);
      var targetRole, refusal := EnsureRoleChangeIsAllowed(caller, target, role, now);
      if refusal.Some? {
        return Failed(refusal.value);
      }
      if targetRole.None? {
        return RoleUnchanged;
      }
      var changed := repo.ChangeMemberRole(target, role);
      return if changed then RoleChanged(Outranks(role, targetRole.value)) else Failed(RoleChangeConflict);
    }

    /** Whoever leaves is gone without a trace, and the club keeps its owner. */
    method LeaveClub(caller: User, now: Time) returns (r: Reply)
      requires Inv(repo.Value(), settings, now)
      modifies repo
      ensures Inv(repo.Value(), settings, now) && SameOwner(old(repo.Value()), repo.Value())
      ensures OnlyTouches(old(repo.Value()), repo.Value(), caller)
      ensures r == Done ==>
        && Standing(repo.Value(), caller).None? && RoleOf(old(repo.Value()), caller).Some?
        && !IsOwner(old(repo.Value()), caller) && !Protected(old(repo.Value()), settings, caller, now)
      ensures r != Done ==> r.Failed? && repo.Value() == old(repo.Value())
      ensures (repo.Value(), r) == Serve(old(repo.Value()), settings, Leave(caller), now)
    {
      StandingCallGuarantee(repo.Value(), settings, Leave(caller), now);
      var role := repo.FindMemberRole(caller);
      if role.None? {
        return Failed(Unauthorized);
      }
      if role.value == OWNER {
        return Failed(OwnerCannotLeave);
      }
      if Protected(repo.Value(), settings, caller, now) {
        return Failed(FormerOwnerProtected);
      }
      repo.DeleteMembership(caller);
      return Done;
    }

    /** Only the owner ends the club, and not over a former owner who could still take it back. */
    method DissolveClub(caller: User, now: Time) returns (r: Reply)
      requires Inv(repo.Value(), settings, now)
      modifies repo
      ensures Inv(repo.Value(), settings, now)
      ensures r == Done ==>
        && SoleOwner(old(repo.Value()), caller) && !repo.alive && repo.members == map[]
        && (settings.window < settings.cooldown && old(repo.former).Some? ==>
              now - old(repo.transferredAt).value > settings.window)
      ensures r != Done ==> r.Failed? && repo.Value() == old(repo.Value())
      ensures (repo.Value(), r) == Serve(old(repo.Value()), settings, Dissolve(caller), now)
    {
      ServeKeeps(repo.Value(), settings, Dissolve(caller), now);
      var role := repo.FindMemberRole(caller);
      if role != Some(OWNER) {
        return Failed(Unauthorized);
      }
      assert IsOwner(repo.Value(), caller);
      if repo.former.Some? && Cooling(repo.Value(), settings, now) {
        return Failed(FormerOwnerProtected);
      }
      repo.DeleteWithMemberships();
      return Done;
    }

    /** A transfer past its guards never conflicts; it swaps the two and records the owner as the former one. */
    method TransferOwnership(owner: User, target: User, now: Time) returns (r: Reply)
      requires Inv(repo.Value(), settings, now)
      modifies repo
      ensures Inv(repo.Value(), settings, now)
      ensures r.Transferred? ==>
        && SoleOwner(old(repo.Value()), owner) && SoleOwner(repo.Value(), target)
        && RoleOf(repo.Value(), owner) == Some(ADMIN) && repo.former == Some(owner) && repo.transferredAt == Some(now)
        && r.reclaimUntil == now + settings.window
        && (forall v :: v != owner && v != target ==> Standing(repo.Value(), v) == Standing(old(repo.Value()), v))
      ensures !r.Transferred? ==> r.Failed? && r != Failed(TransferConflict) && repo.Value() == old(repo.Value())
      ensures (repo.Value(), r) == Serve(old(repo.Value()), settings, Transfer(owner, target), now)
    {
      TransferKeeps(repo.Value(), settings, owner, target, now);
      TransferNeverConflicts(repo.Value(), settings, owner, target, now);
      if target == owner {
        return Failed(TransferToSelf);
      }
      var ownerRole := repo.FindMemberRole(owner);
      if ownerRole != Some(OWNER) {
        return Failed(Unauthorized);
      }
      var targetRole := repo.FindMemberRole(target);
      if targetRole.None? {
        return Failed(MemberNotFound);
      }
      if repo.former != Some(target) && Cooling(repo.Value(), settings, now) {
        return Failed(TransferCooldown);
      }
      var transferred := repo.TransferOwnership(owner, target, now);
      return if transferred then Transferred(now + settings.window) else Failed(TransferConflict);
    }

    /** With the window inside the cooldown, the former owner's reclaim is decided by the clock alone. */
    method ReclaimOwnership(caller: User, now: Time) returns (r: Reply)
      requires Inv(repo.Value(), settings, now)
      modifies repo
      ensures Inv(repo.Value(), settings, now)
      ensures settings.window < settings.cooldown && old(repo.former) == Some(caller) ==>
        if now - old(repo.transferredAt).value <= settings.window then
          && r.Reclaimed? && SoleOwner(old(repo.Value()), r.demoted) && SoleOwner(repo.Value(), caller)
          && RoleOf(repo.Value(), r.demoted) == Some(ADMIN) && repo.former.None?
        else r == Failed(ReclaimWindowExpired)
      ensures old(repo.former) != Some(caller) ==> r == Failed(Unauthorized)
      ensures !r.Reclaimed? ==> r.Failed? && repo.Value() == old(repo.Value())
      ensures (repo.Value(), r) == Serve(old(repo.Value()), settings, Reclaim(caller), now)
    {
      ReclaimKeeps(repo.Value(), settings, caller, now);
      if settings.window < settings.cooldown && repo.former == Some(caller) {
        ReclaimByClock(repo.Value(), settings, caller, now);
      }
      if repo.former != Some(caller) {
        return Failed(Unauthorized);
      }
      var owner := repo.FindOwnerId();
      if repo.transferredAt.None? || owner.None? {
        return Failed(TransferConflict);
      }
      if now - repo.transferredAt.value > settings.window {
        return Failed(ReclaimWindowExpired);
      }
      var reclaimed := repo.ReclaimOwnership(caller, owner.value);
      return if reclaimed then Reclaimed(owner.value) else Failed(TransferConflict);
    }

    /** Nobody's standing depends on who sets the policy. */
    method UpdatePolicy(caller: User, policy: JoinPolicy, now: Time) returns (r: Reply)
      requires Inv(repo.Value(), settings, now)
      modifies repo
      ensures Inv(repo.Value(), settings, now) && SameOwner(old(repo.Value()), repo.Value())
      ensures repo.members == old(repo.members) && repo.former == old(repo.former)
      ensures r == Done ==> repo.policy == policy && IsPrivileged(RoleOf(old(repo.Value()), caller))
      ensures r != Done ==> r.Failed? && repo.Value() == old(repo.Value())
      ensures (repo.Value(), r) == Serve(old(repo.Value()), settings, SetPolicy(caller, policy), now)
    {
      SetPolicyKeeps(repo.Value(), settings, caller, policy, now);
      var role := repo.FindMemberRole(caller);
      if !IsPrivileged(role) {
        return Failed(Unauthorized);
      }
      if !repo.alive {
        return Failed(ClubNotFound);
      }
      repo.policy := policy;
      return Done;
    }
  }
}
