/** When each club call succeeds, and with which error it fails, read off the stored documents: every reply, in every
    state, by an if and only if. */
module ClubReplies {

  import opened Club

  predicate Has(s: State, u: User, role: Role) {
    u in s.members && s.members[u] == Active(role)
  }

  predicate Belongs(s: State, u: User) {
    Has(s, u, OWNER) || Has(s, u, ADMIN) || Has(s, u, MEMBER)
  }

  predicate Leads(s: State, u: User) {
    Has(s, u, OWNER) || Has(s, u, ADMIN)
  }

  predicate Stands(s: State, u: User, status: Status) {
    u in s.members && s.members[u] == status
  }

  /** Less than the cooldown has passed since the club was last handed over. */
  predicate JustHandedOver(s: State, cfg: Settings, now: Time) {
    s.transferredAt.Some? && now < s.transferredAt.value + cfg.cooldown
  }

  predicate Shielded(s: State, cfg: Settings, u: User, now: Time) {
    s.former == Some(u) && JustHandedOver(s, cfg, now)
  }

  lemma RoleIsHad(s: State, u: User)
    ensures RoleOf(s, u).Some? <==> Belongs(s, u)
    ensures RoleOf(s, u).Some? ==> Has(s, u, RoleOf(s, u).value)
  {
    if RoleOf(s, u).Some? {
      match RoleOf(s, u).value
      case OWNER => assert Has(s, u, OWNER);
      case ADMIN => assert Has(s, u, ADMIN);
      case MEMBER => assert Has(s, u, MEMBER);
    }
  }

  /** A direct invitation lets in whoever has no role, banned or not; the policy lets in whoever is not banned; and a
      request waits where there was no record of the user. */
  lemma AdmitReplies(s: State, user: User, isDirect: bool)
    ensures var (s', r) := DoAdmit(s, user, isDirect);
      && (r == Failed(ClubNotFound) <==> !s.alive)
      && (r == Onboarded(ALREADY_MEMBER) <==> s.alive && Belongs(s, user))
      && (r == Onboarded(JOINED) <==>
            s.alive && !Belongs(s, user) && (isDirect || (s.policy == PUBLIC && !Stands(s, user, BANNED))))
      && (r == Onboarded(BANNED_FROM_CLUB) <==> s.alive && !isDirect && Stands(s, user, BANNED))
      && (r == Onboarded(PENDING_APPROVAL) <==> s.alive && !isDirect && s.policy == RESTRICTED && user !in s.members)
      && (r == Failed(DuplicateMembership) <==>
            s.alive && !isDirect && s.policy == RESTRICTED && Stands(s, user, PENDING))
      && s' == (if r == Onboarded(JOINED) then s.(members := s.members[user := Active(MEMBER)])
                else if r == Onboarded(PENDING_APPROVAL) then s.(members := s.members[user := PENDING])
                else s)
  {
    RoleIsHad(s, user);
  }

  lemma ReviewReplies(s: State, reviewer: User, target: User, approve: bool)
    ensures var (s', r) := DoReview(s, reviewer, target, approve);
      && (r == Done <==> Leads(s, reviewer) && Stands(s, target, PENDING))
      && (r == Failed(Unauthorized) <==> !Leads(s, reviewer))
      && (r == Failed(PendingRequestNotFound) <==> Leads(s, reviewer) && !Stands(s, target, PENDING))
      && s' == (if r != Done then s
                else if approve then s.(members := s.members[target := Active(MEMBER)])
                else s.(members := s.members - {target}))
  {
  }

  /** Owners remove admins and members, admins remove members, and nobody removes a shielded former owner. */
  predicate MayRemove(s: State, remover: User, target: User) {
    (Has(s, remover, OWNER) && Has(s, target, ADMIN)) || (Leads(s, remover) && Has(s, target, MEMBER))
  }

  lemma RemoveReplies(s: State, cfg: Settings, remover: User, target: User, now: Time)
    ensures var (s', r) := DoRemove(s, cfg, remover, target, now);
      && (r == Done <==> MayRemove(s, remover, target) && !Shielded(s, cfg, target, now))
      && (r == Failed(FormerOwnerProtected) <==> MayRemove(s, remover, target) && Shielded(s, cfg, target, now))
      && (r == Failed(MemberNotFound) <==> Leads(s, remover) && !Belongs(s, target))
      && (r == Failed(Unauthorized) <==>
            !Leads(s, remover) || (Belongs(s, target) && !MayRemove(s, remover, target)))
      && s' == (if r == Done then s.(members := s.members[target := BANNED]) else s)
  {
  }

  /** Only the owner changes a role, of an admin or member, to the other of the two. */
  predicate MayChange(s: State, caller: User, target: User, role: Role) {
    Has(s, caller, OWNER) && ((Has(s, target, ADMIN) && role == MEMBER) || (Has(s, target, MEMBER) && role == ADMIN))
  }

  lemma ChangeRoleReplies(s: State, cfg: Settings, caller: User, target: User, role: Role, now: Time)
    ensures var (s', r) := DoChangeRole(s, cfg, caller, target, role, now);
      && (r.RoleChanged? <==> MayChange(s, caller, target, role) && !Shielded(s, cfg, target, now))
      && (r.RoleChanged? ==> (r.promotion <==> role == ADMIN))
      && (r == RoleUnchanged <==> role != OWNER && Belongs(s, caller) && Has(s, target, role))
      && (r == Failed(FormerOwnerProtected) <==> MayChange(s, caller, target, role) && Shielded(s, cfg, target, now))
      && (r == Failed(CannotChangeOwnerRole) <==> role == OWNER || (Belongs(s, caller) && Has(s, target, OWNER)))
      && (r == Failed(MemberNotFound) <==> role != OWNER && Belongs(s, caller) && !Belongs(s, target))
      && (r == Failed(Unauthorized) <==>
            role != OWNER && (!Belongs(s, caller)
                              || ((Has(s, target, ADMIN) || Has(s, target, MEMBER)) && !Has(s, target, role)
                                  && !Has(s, caller, OWNER))))
      && (r == Failed(RoleChangeConflict) <==> false)
      && s' == (if r.RoleChanged? then s.(members := s.members[target := Active(role)]) else s)
  {
  }

  lemma LeaveReplies(s: State, cfg: Settings, caller: User, now: Time)
    ensures var (s', r) := DoLeave(s, cfg, caller, now);
      && (r == Done <==> (Has(s, caller, ADMIN) || Has(s, caller, MEMBER)) && !Shielded(s, cfg, caller, now))
      && (r == Failed(Unauthorized) <==> !Belongs(s, caller))
      && (r == Failed(OwnerCannotLeave) <==> Has(s, caller, OWNER))
      && (r == Failed(FormerOwnerProtected) <==>
            (Has(s, caller, ADMIN) || Has(s, caller, MEMBER)) && Shielded(s, cfg, caller, now))
      && s' == (if r == Done then s.(members := s.members - {caller}) else s)
  {
  }

  lemma DissolveReplies(s: State, cfg: Settings, caller: User, now: Time)
    ensures var (s', r) := DoDissolve(s, cfg, caller, now);
      && (r == Done <==> Has(s, caller, OWNER) && !(s.former.Some? && JustHandedOver(s, cfg, now)))
      && (r == Failed(Unauthorized) <==> !Has(s, caller, OWNER))
      && (r == Failed(FormerOwnerProtected) <==> Has(s, caller, OWNER) && s.former.Some? && JustHandedOver(s, cfg, now))
      && (r == Done ==> !s'.alive && s'.members == map[])
      && (r != Done ==> s' == s)
  {
  }

  /** The owner may hand over to any other member, soon after the last time only to the one it was taken from. */
  predicate MayHandOver(s: State, cfg: Settings, owner: User, target: User, now: Time) {
    && target != owner && Has(s, owner, OWNER) && Belongs(s, target)
    && (JustHandedOver(s, cfg, now) ==> s.former == Some(target))
  }

  lemma TransferReplies(s: State, cfg: Settings, owner: User, target: User, now: Time)
    ensures var (s', r) := DoTransfer(s, cfg, owner, target, now);
      && (r.Transferred? <==> MayHandOver(s, cfg, owner, target, now) && !Has(s, target, OWNER) && s.alive)
      && (r.Transferred? ==> r.reclaimUntil == now + cfg.window)
      && (r == Failed(TransferConflict) <==>
            MayHandOver(s, cfg, owner, target, now) && (Has(s, target, OWNER) || !s.alive))
      && (r == Failed(TransferToSelf) <==> target == owner)
      && (r == Failed(Unauthorized) <==> target != owner && !Has(s, owner, OWNER))
      && (r == Failed(MemberNotFound) <==> target != owner && Has(s, owner, OWNER) && !Belongs(s, target))
      && (r == Failed(TransferCooldown) <==>
            target != owner && Has(s, owner, OWNER) && Belongs(s, target)
            && JustHandedOver(s, cfg, now) && s.former != Some(target))
      && s' == (if r.Transferred? then
                  State(s.alive, s.members[target := Active(OWNER)][owner := Active(ADMIN)], Some(now), Some(owner), s.policy)
                else s)
  {
    RoleIsHad(s, target);
  }

  /** The former owner takes the club back while the window is open, from whoever owns it, if still an admin. */
  lemma ReclaimReplies(s: State, cfg: Settings, caller: User, now: Time)
    ensures var (s', r) := DoReclaim(s, cfg, caller, now);
      var owned := exists u :: Has(s, u, OWNER);
      && (r == Failed(Unauthorized) <==> s.former != Some(caller))
      && (r == Failed(ReclaimWindowExpired) <==>
            s.former == Some(caller) && s.transferredAt.Some? && owned && now > s.transferredAt.value + cfg.window)
      && (r.Reclaimed? <==>
            && s.former == Some(caller) && s.transferredAt.Some? && owned && now <= s.transferredAt.value + cfg.window
            && Has(s, caller, ADMIN) && s.alive)
      && (r == Failed(TransferConflict) <==>
            && s.former == Some(caller)
            && (s.transferredAt.None? || !owned
                || (now <= s.transferredAt.value + cfg.window && !(Has(s, caller, ADMIN) && s.alive))))
      && (r.Reclaimed? ==>
            && Has(s, r.demoted, OWNER)
            && s' == State(true, s.members[caller := Active(OWNER)][r.demoted := Active(ADMIN)], None, None, s.policy))
      && (!r.Reclaimed? ==> s' == s)
  {
    var owner := FindOwner(s);
    if owner.Some? {
      assert Has(s, owner.value, OWNER);
    } else {
      forall u ensures !Has(s, u, OWNER) {
        assert !IsOwner(s, u);
      }
    }
  }

  lemma SetPolicyReplies(s: State, caller: User, policy: JoinPolicy)
    ensures var (s', r) := DoSetPolicy(s, caller, policy);
      && (r == Done <==> Leads(s, caller) && s.alive)
      && (r == Failed(Unauthorized) <==> !Leads(s, caller))
      && (r == Failed(ClubNotFound) <==> Leads(s, caller) && !s.alive)
      && s' == (if r == Done then s.(policy := policy) else s)
  {
  }
}
