/** The user-management views of accounts/views.py: self-signup, the user
    list/create/update gate, delete, suspend, role assignment (including a
    priest's promotion of a volunteer to coordinator) and ministry
    assignment. */
module UserAdmin {
  import opened Wrappers
  import opened Accounts
  import opened Scope
  import opened Volunteers

  /** The user and profile self-signup creates: a pending, inactive
      volunteer outside every ministry, who fails `can_login` until
      approved. */
  function Signup(id: UserId, profileId: ProfileId): (r: (User, Profile))
    ensures r.0.id == id && r.0.role == Volunteer && r.0.approval == Pending
    ensures !r.0.isActive && !r.0.isSuspended && r.0.assignedMinistry.None?
    ensures !CanLogin(r.0)
    ensures r.1.id == profileId && r.1.user == id && r.1.ministries == {} && r.1.isActive
  {
    (User(id, Volunteer, Pending, false, false, None), Profile(profileId, id, {}, true))
  }

  /** A freshly signed-up volunteer passes `can_login` once an
      administrator approves them. */
  lemma SignupThenApprove(admin: User, id: UserId, profileId: ProfileId)
    requires admin.role == Administrator
    ensures var (user, profile) := Signup(id, profileId);
            CanLogin(Approve(admin, profile, user))
  {
  }

  /** The gate of the user list, create and update views. */
  predicate CanManageUsers(u: User)
    ensures CanManageUsers(u) <==> u.role == Administrator
  {
    Can(u, ManageAllUsers)
  }

  /** The delete view's test: an administrator, and never oneself. */
  predicate CanDeleteUser(u: User, target: User)
    ensures CanDeleteUser(u, target) <==> u.role == Administrator && target.id != u.id
  {
    Can(u, ManageAllUsers) && target.id != u.id
  }

  /** Whether a suspend request takes effect: an administrator acting on
      someone else (the view refuses self-suspension). It takes effect
      exactly when it changes the target's record. */
  predicate SuspendChanges(u: User, target: User)
    ensures SuspendChanges(u, target) <==> Suspend(u, target) != target
  {
    Can(u, ManageAllUsers) && target.id != u.id
  }

  /** The record after a suspend request: the suspension flag flips when
      the request takes effect, and nothing else changes. */
  function Suspend(u: User, target: User): (r: User)
    ensures r.(isSuspended := target.isSuspended) == target
    ensures u.role != Administrator || target.id == u.id ==> r == target
    ensures u.role == Administrator && target.id != u.id ==> r.isSuspended == !target.isSuspended
  {
    if !Can(u, ManageAllUsers) then target
    else if target.id == u.id then target
    else target.(isSuspended := !target.isSuspended)
  }

  /** Suspending twice restores the original record. */
  lemma SuspendTwice(u: User, target: User)
    ensures Suspend(u, Suspend(u, target)) == target
  {
  }

  /** A suspension always makes the target fail `can_login`. */
  lemma SuspendedCannotLogin(u: User, target: User)
    requires !target.isSuspended
    requires SuspendChanges(u, target)
    ensures !CanLogin(Suspend(u, target))
  {
  }

  /** The checks a priest's role change must pass, in the order the view runs
      them: a managed ministry, a volunteer target, the coordinator role, a
      volunteer profile, and that profile in the priest's ministry. */
  predicate PriestMayPromote(u: User, target: User, role: Role, profile: Option<Profile>)
  {
    && ManagedMinistry(u).Some?
    && target.role == Volunteer
    && role == Coordinator
    && profile.Some?
    && ManagedMinistry(u).value in profile.value.ministries
  }

  /** The record after a role-assignment request. `profile` is the target's
      volunteer profile, if any. An unknown role value is rejected before
      anything else; an administrator may set any role and only the role
      changes; a priest may only promote a volunteer of their ministry to
      coordinator, which also binds the new coordinator to that ministry;
      nothing changes otherwise. */
  function AssignRole(u: User, target: User, newRole: string, profile: Option<Profile>): (r: User)
    requires profile.Some? ==> profile.value.user == target.id
    ensures r.(role := target.role, assignedMinistry := target.assignedMinistry) == target
    ensures ParseRole(newRole).None? ==> r == target
    ensures u.role == Administrator && ParseRole(newRole).Some? ==>
      r == target.(role := ParseRole(newRole).value)
    ensures u.role == Priest && r != target ==>
      && newRole == "coordinator" && target.role == Volunteer
      && r.role == Coordinator && r.assignedMinistry == u.assignedMinistry
      && profile.Some? && ResolveScope(u).Ministry?
      && Admits(ResolveScope(u), None, profile.value.ministries)
    ensures u.role == Priest && newRole == "coordinator" && PriestMayPromote(u, target, Coordinator, profile) ==>
      r.role == Coordinator && r.assignedMinistry == u.assignedMinistry
    ensures u.role == Coordinator || u.role == Volunteer ==> r == target
  {
    if !Can(u, AssignRoles) then target
    else match ParseRole(newRole)
      case None => target
      case Some(role) =>
        if IsAdministrator(u) then target.(role := role)
        else if IsPriest(u) then
          if PriestMayPromote(u, target, role, profile)
          then target.(role := role, assignedMinistry := ManagedMinistry(u))
          else target
        else target
  }

  /** Whether the role-assignment view accepts a request for the role
      `requested` (None when the submitted value is not a role): a valid
      role from an administrator, or a promotion that passes the priest's
      checks. */
  predicate RoleRequestAccepted(u: User, target: User, requested: Option<Role>, profile: Option<Profile>)
    ensures RoleRequestAccepted(u, target, requested, profile) ==>
      requested.Some? && (u.role == Administrator || (u.role == Priest && requested == Some(Coordinator)))
    ensures u.role == Administrator ==> (RoleRequestAccepted(u, target, requested, profile) <==> requested.Some?)
  {
    && Can(u, AssignRoles)
    && requested.Some?
    && (IsAdministrator(u) || (IsPriest(u) && PriestMayPromote(u, target, requested.value, profile)))
  }

  /** Whether the view accepts the submitted role value `newRole` (answers
      with its success message rather than an error). */
  predicate RoleChangeAccepted(u: User, target: User, newRole: string, profile: Option<Profile>)
    ensures RoleChangeAccepted(u, target, newRole, profile) ==>
      ParseRole(newRole).Some? && (u.role == Administrator || (u.role == Priest && newRole == "coordinator"))
    ensures u.role == Administrator ==> (RoleChangeAccepted(u, target, newRole, profile) <==> ParseRole(newRole).Some?)
  {
    RoleRequestAccepted(u, target, ParseRole(newRole), profile)
  }

  /** A refused request leaves the target as it was. */
  lemma RefusedRoleChangeIsNoOp(u: User, target: User, newRole: string, profile: Option<Profile>)
    requires profile.Some? ==> profile.value.user == target.id
    requires !RoleChangeAccepted(u, target, newRole, profile)
    ensures AssignRole(u, target, newRole, profile) == target
  {
  }

  /** A priest's role change never touches an administrator, a priest or a
      coordinator, and the only change it makes is volunteer to coordinator:
      nobody ends up at or above the priest's own rank. */
  lemma PriestCannotEscalate(u: User, target: User, newRole: string, profile: Option<Profile>)
    requires profile.Some? ==> profile.value.user == target.id
    requires u.role == Priest
    ensures target.role != Volunteer ==> AssignRole(u, target, newRole, profile) == target
    ensures AssignRole(u, target, newRole, profile) != target ==>
      Rank(AssignRole(u, target, newRole, profile).role) < Rank(u.role)
  {
  }

  /** The promoted coordinator's scope is the promoting priest's ministry. */
  lemma PromotionSharesScope(u: User, target: User, profile: Option<Profile>)
    requires profile.Some? ==> profile.value.user == target.id
    requires u.role == Priest && PriestMayPromote(u, target, Coordinator, profile)
    ensures ResolveScope(AssignRole(u, target, "coordinator", profile)) == ResolveScope(u)
  {
  }

  /** The record after a ministry-assignment request. Administrators only;
      no ministry value clears the assignment, a ministry that does not
      exist is not found and changes nothing, and only the ministry field
      changes. */
  function AssignMinistry(u: User, target: User, ministry: Option<MinistryId>, existing: set<MinistryId>): (r: User)
    ensures r.(assignedMinistry := target.assignedMinistry) == target
    ensures u.role != Administrator ==> r == target
    ensures u.role == Administrator && ministry.None? ==> r.assignedMinistry.None?
    ensures u.role == Administrator && ministry.Some? && ministry.value in existing ==> r.assignedMinistry == ministry
    ensures ministry.Some? && ministry.value !in existing ==> r == target
  {
    if !IsAdministrator(u) then target
    else match ministry
      case None => target.(assignedMinistry := None)
      case Some(m) => if m in existing then target.(assignedMinistry := Some(m)) else target
  }

  /** Assigning a ministry to a priest or coordinator moves their scope to
      it; clearing it leaves them with the empty scope. */
  lemma AssignMinistryMovesScope(u: User, target: User, ministry: Option<MinistryId>, existing: set<MinistryId>)
    requires u.role == Administrator && IsStaff(target)
    requires ministry.Some? ==> ministry.value in existing
    ensures ministry.Some? ==> ResolveScope(AssignMinistry(u, target, ministry, existing)) == Ministry(ministry.value)
    ensures ministry.None? ==> ResolveScope(AssignMinistry(u, target, ministry, existing)) == Empty
  {
  }

}
