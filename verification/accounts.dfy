/** The user record of accounts/models.py: the role and approval choices,
    the role predicates, the `can_*` capability methods, the managed
    ministry, the `can_login` rule and the sign-in test the login URL
    actually applies. */
module Accounts {
  import opened Wrappers

  type UserId = nat
  type MinistryId = nat

  /** The four entries of the role choice list. */
  datatype Role = Administrator | Priest | Coordinator | Volunteer

  /** The three entries of the approval choice list. */
  datatype ApprovalStatus = Pending | Approved | Rejected

  /** A user row; `assignedMinistry` is the nullable ministry foreign key. */
  datatype User = User(
    id: UserId,
    role: Role,
    approval: ApprovalStatus,
    isActive: bool,
    isSuspended: bool,
    assignedMinistry: Option<MinistryId>)

  /** A set of user rows in which no two share a primary key, as in the
      user table. */
  predicate UniqueUserIds(us: set<User>)
  {
    forall a, b :: a in us && b in us && a.id == b.id ==> a == b
  }

  /** The text stored in the role column for each choice. */
  function RoleName(r: Role): string
  {
    match r
    case Administrator => "administrator"
    case Priest => "priest"
    case Coordinator => "coordinator"
    case Volunteer => "volunteer"
  }

  /** Reads a submitted role value: None exactly when it names none of the
      four choices. */
  function ParseRole(s: string): (r: Option<Role>)
    ensures r.Some? ==> RoleName(r.value) == s
    ensures r.None? <==> forall x: Role :: RoleName(x) != s
  {
    if s == "administrator" then Some(Administrator)
    else if s == "priest" then Some(Priest)
    else if s == "coordinator" then Some(Coordinator)
    else if s == "volunteer" then Some(Volunteer)
    else None
  }

  lemma ParseRoleName(r: Role)
    ensures ParseRole(RoleName(r)) == Some(r)
  {
  }

  predicate IsAdministrator(u: User) { u.role == Administrator }
  predicate IsPriest(u: User) { u.role == Priest }
  predicate IsCoordinator(u: User) { u.role == Coordinator }
  predicate IsVolunteerUser(u: User) { u.role == Volunteer }

  /** Priests and coordinators: the two roles bound to one ministry. */
  predicate IsStaff(u: User) { IsPriest(u) || IsCoordinator(u) }

  /** Exactly one of the four role predicates holds of every user. */
  lemma ExactlyOneRole(u: User)
    ensures IsAdministrator(u) || IsPriest(u) || IsCoordinator(u) || IsVolunteerUser(u)
    ensures !(IsAdministrator(u) && IsPriest(u)) && !(IsAdministrator(u) && IsCoordinator(u))
    ensures !(IsAdministrator(u) && IsVolunteerUser(u)) && !(IsPriest(u) && IsCoordinator(u))
    ensures !(IsPriest(u) && IsVolunteerUser(u)) && !(IsCoordinator(u) && IsVolunteerUser(u))
  {
  }

  /** One constructor per `can_*` method of the user record. */
  datatype Capability =
    | ManageVolunteers | ManageAllUsers | AssignRoles | ApproveVolunteers
    | ScheduleEvents | AssignVolunteersToEvents | TrackAttendance
    | SendCommunications | ViewReports | ExportReports | ViewAuditLogs
    | ManageMinistries | AssignPriests | MakeCoordinator | ProvideFeedback

  /** The role list each `can_*` method tests membership in, in the order
      the method lists it. Every list names the administrator and none names
      the volunteer. */
  function Holders(c: Capability): (r: seq<Role>)
    ensures Administrator in r && Volunteer !in r
  {
    match c
    case ManageVolunteers => [Administrator, Coordinator, Priest]
    case ManageAllUsers => [Administrator]
    case AssignRoles => [Administrator, Priest]
    case ApproveVolunteers => [Administrator, Priest]
    case ScheduleEvents => [Administrator, Priest, Coordinator]
    case AssignVolunteersToEvents => [Administrator, Priest, Coordinator]
    case TrackAttendance => [Administrator, Priest, Coordinator]
    case SendCommunications => [Administrator, Priest, Coordinator]
    case ViewReports => [Administrator, Priest, Coordinator]
    case ExportReports => [Administrator, Priest]
    case ViewAuditLogs => [Administrator]
    case ManageMinistries => [Administrator]
    case AssignPriests => [Administrator]
    case MakeCoordinator => [Administrator, Priest]
    case ProvideFeedback => [Administrator, Priest, Coordinator]
  }

  /** The position of a role in the four-tier hierarchy. */
  function Rank(r: Role): nat
  {
    match r
    case Volunteer => 0
    case Coordinator => 1
    case Priest => 2
    case Administrator => 3
  }

  /** The lowest tier that holds a capability. */
  function MinRank(c: Capability): nat
  {
    match c
    case ManageAllUsers | ViewAuditLogs | ManageMinistries | AssignPriests => 3
    case AssignRoles | ApproveVolunteers | ExportReports | MakeCoordinator => 2
    case _ => 1
  }

  /** The `can_*` method for capability `c`, stated through the hierarchy: a role holds a
      capability when it ranks at least as high as the capability's lowest
      holder. `CanIsSourceList` shows this is exactly the source's lists.
      An administrator holds every capability; a volunteer holds none. */
  predicate Can(u: User, c: Capability)
    ensures u.role == Administrator ==> Can(u, c)
    ensures u.role == Volunteer ==> !Can(u, c)
  {
    Rank(u.role) >= MinRank(c)
  }

  /** The capability lists are upward closed in the hierarchy: a role is on
      a capability's list exactly when it ranks at least as high as the
      capability's lowest holder. */
  lemma CanIsSourceList(u: User, c: Capability)
    ensures Can(u, c) <==> u.role in Holders(c)
  {
  }

  /** Two users with the same role hold the same capabilities. */
  lemma CapabilityIsRoleOnly(u1: User, u2: User, c: Capability)
    requires u1.role == u2.role
    ensures Can(u1, c) == Can(u2, c)
  {
  }

  /** The administrator-only capabilities. */
  lemma AdministratorOnlyCapabilities(u: User)
    ensures Can(u, ManageAllUsers) <==> u.role == Administrator
    ensures Can(u, ViewAuditLogs) <==> u.role == Administrator
    ensures Can(u, ManageMinistries) <==> u.role == Administrator
    ensures Can(u, AssignPriests) <==> u.role == Administrator
  {
  }

  /** The capabilities held by administrators and priests. */
  lemma PriestTierCapabilities(u: User)
    ensures Can(u, AssignRoles) <==> u.role in {Administrator, Priest}
    ensures Can(u, ApproveVolunteers) <==> u.role in {Administrator, Priest}
    ensures Can(u, ExportReports) <==> u.role in {Administrator, Priest}
    ensures Can(u, MakeCoordinator) <==> u.role in {Administrator, Priest}
  {
  }

  /** The capabilities held by every role except volunteer. */
  lemma CoordinatorTierCapabilities(u: User)
    ensures Can(u, ManageVolunteers) <==> u.role != Volunteer
    ensures Can(u, ScheduleEvents) <==> u.role != Volunteer
    ensures Can(u, AssignVolunteersToEvents) <==> u.role != Volunteer
    ensures Can(u, TrackAttendance) <==> u.role != Volunteer
    ensures Can(u, SendCommunications) <==> u.role != Volunteer
    ensures Can(u, ViewReports) <==> u.role != Volunteer
    ensures Can(u, ProvideFeedback) <==> u.role != Volunteer
  {
  }

  /** `get_managed_ministry`: the assigned ministry of a priest or
      coordinator; nothing for an administrator or a volunteer, whatever
      their ministry field holds. */
  function ManagedMinistry(u: User): (m: Option<MinistryId>)
    ensures m.Some? <==> IsStaff(u) && u.assignedMinistry.Some?
    ensures m.Some? ==> m == u.assignedMinistry
  {
    if IsPriest(u) || IsCoordinator(u) then u.assignedMinistry else None
  }

  predicate IsApproved(u: User) { u.approval == Approved }

  /** `can_login`: active, not suspended and approved. Whoever passes it
      also passes the sign-in test the login URL applies. */
  predicate CanLogin(u: User)
    ensures CanLogin(u) ==> SignInAsWired(u)
  {
    u.isActive && !u.isSuspended && IsApproved(u)
  }

  /** The sign-in test as the code wires it: the login URL uses the
      framework's stock login view, whose default backend refuses only
      inactive accounts; nothing calls `can_login`. */
  predicate SignInAsWired(u: User)
  {
    u.isActive
  }

  /** The wired test admits everyone `can_login` admits, and in addition
      exactly the active users who are suspended or not approved. */
  lemma WiredSignInGap(u: User)
    ensures CanLogin(u) ==> SignInAsWired(u)
    ensures SignInAsWired(u) && !CanLogin(u) <==> u.isActive && (u.isSuspended || !IsApproved(u))
  {
  }

  /** An approved coordinator whom an administrator suspended is still let
      in by the wired test, although `can_login` refuses them. */
  lemma SuspendedUserSignsIn()
    ensures var u := User(7, Coordinator, Approved, true, true, Some(1));
            SignInAsWired(u) && !CanLogin(u)
  {
  }

}
