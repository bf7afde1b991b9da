/** The volunteer profile and the views of volunteers/views.py: list
    scoping, detail/update/delete access, the ministry selection check of
    the create and update forms, and the approve/reject transitions. */
module Volunteers {
  import opened Wrappers
  import opened Accounts
  import opened Scope

  type ProfileId = nat

  /** A volunteer profile: its one owning user (the one-to-one `user`
      link) and its many-to-many ministry memberships. */
  datatype Profile = Profile(id: ProfileId, user: UserId, ministries: set<MinistryId>, isActive: bool)

  /** A set of profiles in which no two share a primary key, as in the
      profile table. */
  predicate UniqueProfileIds(ps: set<Profile>)
  {
    forall a, b :: a in ps && b in ps && a.id == b.id ==> a == b
  }

  /** The profiles that belong to ministry `m`. */
  function MembersOf(ps: set<Profile>, m: MinistryId): (r: set<Profile>)
    ensures r <= ps
    ensures forall p :: p in ps ==> (p in r <==> m in p.ministries)
  {
    set p | p in ps && m in p.ministries
  }

  /** The ids of a set of profiles. */
  function Ids(ps: set<Profile>): (r: set<ProfileId>)
    ensures forall p :: p in ps ==> p.id in r
  {
    set p | p in ps :: p.id
  }

  /** The requester's managed ministry is one of the profile's ministries. */
  predicate InManagedMinistry(u: User, p: Profile)
  {
    ManagedMinistry(u).Some? && ManagedMinistry(u).value in p.ministries
  }

  /** The reference scope rule applied to a profile. */
  predicate ScopeAdmits(u: User, p: Profile)
  {
    Admits(ResolveScope(u), Some(p.user), p.ministries)
  }

  /** The gate of the volunteer list. */
  predicate CanListVolunteers(u: User)
    ensures CanListVolunteers(u) <==> u.role != Volunteer
  {
    Can(u, ManageVolunteers) || Can(u, ViewReports)
  }

  /** The volunteer list: refused to volunteers; otherwise exactly the
      profiles the reference scope admits -- everything for an
      administrator, the profiles of the managed ministry for a priest or
      coordinator, and none for a priest or coordinator without one. */
  function ListVolunteers(u: User, all: set<Profile>): (r: Option<set<Profile>>)
    ensures r.None? <==> u.role == Volunteer
    ensures r.Some? ==> r.value <= all
    ensures r.Some? ==> forall p :: p in all ==> (p in r.value <==> ScopeAdmits(u, p))
  {
    if !CanListVolunteers(u) then None
    else if IsCoordinator(u) || IsPriest(u) then
      if ManagedMinistry(u).Some? then Some(MembersOf(all, ManagedMinistry(u).value))
      else Some({})
    else Some(all)
  }

  /** The detail view's test: exactly the reference scope rule, including a
      volunteer's access to their own profile. */
  predicate CanViewVolunteer(u: User, p: Profile)
    ensures CanViewVolunteer(u, p) <==> ScopeAdmits(u, p)
  {
    if IsAdministrator(u) then true
    else if IsVolunteerUser(u) then p.user == u.id
    else if IsCoordinator(u) || IsPriest(u) then InManagedMinistry(u, p)
    else false
  }

  /** The update and delete views' test: the reference scope rule, except
      that a volunteer may not change even their own profile. */
  predicate CanModifyVolunteer(u: User, p: Profile)
    ensures CanModifyVolunteer(u, p) <==> u.role != Volunteer && ScopeAdmits(u, p)
  {
    if IsAdministrator(u) then true
    else if IsCoordinator(u) || IsPriest(u) then InManagedMinistry(u, p)
    else false
  }

  /** The ministries the create and update forms offer: the managed
      ministry alone for a priest or coordinator (none without one), the
      active ministries for anyone else. */
  function MinistryChoices(u: User, active: set<MinistryId>): (r: set<MinistryId>)
    ensures IsStaff(u) ==> forall m :: m in r <==> ResolveScope(u) == Ministry(m)
    ensures !IsStaff(u) ==> r == active
  {
    if IsCoordinator(u) || IsPriest(u) then
      if ManagedMinistry(u).Some? then {ManagedMinistry(u).value} else {}
    else active
  }

  /** The check the create and update views run on the submitted
      ministries: a priest or coordinator needs a ministry, and every
      selected ministry must be it. */
  predicate SelectionInScope(u: User, selected: set<MinistryId>)
    ensures SelectionInScope(u, selected) <==>
      !IsStaff(u) || (ResolveScope(u).Ministry? && selected <= {ResolveScope(u).id})
  {
    if IsCoordinator(u) || IsPriest(u) then
      ManagedMinistry(u).Some? && forall m :: m in selected ==> m == ManagedMinistry(u).value
    else true
  }

  /** Form validation of the ministries field: required, and drawn from the
      offered choices. */
  predicate FormAccepts(u: User, selected: set<MinistryId>, active: set<MinistryId>)
  {
    selected != {} && selected <= MinistryChoices(u, active)
  }

  /** Form validation already guarantees the views' own ministry check: the
      check is a second line of defence that never fires on a valid form. */
  lemma FormValidationImpliesSelectionInScope(u: User, selected: set<MinistryId>, active: set<MinistryId>)
    requires FormAccepts(u, selected, active)
    ensures SelectionInScope(u, selected)
  {
    if IsStaff(u) {
      var m :| m in selected;
      assert ResolveScope(u) == Ministry(m);
    }
  }

  /** The create view admits the submission. A priest or coordinator can only
      create volunteers in exactly their own ministry. */
  predicate CanCreateVolunteer(u: User, selected: set<MinistryId>, active: set<MinistryId>)
    ensures CanCreateVolunteer(u, selected, active) ==> u.role != Volunteer && selected != {}
    ensures CanCreateVolunteer(u, selected, active) && IsStaff(u) ==>
      u.assignedMinistry.Some? && selected == {u.assignedMinistry.value}
    ensures CanCreateVolunteer(u, selected, active) && u.role == Administrator ==> selected <= active
  {
    Can(u, ManageVolunteers) && FormAccepts(u, selected, active) && SelectionInScope(u, selected)
  }

  /** The update view admits the submission: a requester who may modify
      the profile, submitting a ministry selection the form and the view
      accept. A priest or coordinator can only leave the volunteer in
      exactly their own ministry. */
  predicate CanUpdateVolunteer(u: User, p: Profile, selected: set<MinistryId>, active: set<MinistryId>)
    ensures CanUpdateVolunteer(u, p, selected, active) ==> u.role != Volunteer && ScopeAdmits(u, p)
    ensures CanUpdateVolunteer(u, p, selected, active) && IsStaff(u) ==>
      ResolveScope(u).Ministry? && selected == {ResolveScope(u).id}
    ensures CanUpdateVolunteer(u, p, selected, active) && u.role == Administrator ==>
      selected != {} && selected <= active
  {
    CanModifyVolunteer(u, p) && FormAccepts(u, selected, active) && SelectionInScope(u, selected)
  }

  /** The profile after an update: the form's model fields are saved, so
      the ministry set is replaced by the selection and the active flag by
      the submitted one (`nowActive`); nothing else changes. */
  function UpdateProfile(u: User, p: Profile, selected: set<MinistryId>, active: set<MinistryId>, nowActive: bool): (r: Profile)
    ensures r.(ministries := p.ministries, isActive := p.isActive) == p
    ensures CanUpdateVolunteer(u, p, selected, active) ==> r.ministries == selected && r.isActive == nowActive
    ensures !CanUpdateVolunteer(u, p, selected, active) ==> r == p
    ensures r != p && IsStaff(u) ==> u.assignedMinistry.Some? && r.ministries == {u.assignedMinistry.value}
  {
    if CanUpdateVolunteer(u, p, selected, active) then p.(ministries := selected, isActive := nowActive) else p
  }

  /** Submitting the same edit twice leaves the profile as the first
      submission did: the edited profile is still within the requester's
      reach, and the second save writes the same values. */
  lemma UpdateProfileTwice(u: User, p: Profile, selected: set<MinistryId>, active: set<MinistryId>, nowActive: bool)
    ensures var once := UpdateProfile(u, p, selected, active, nowActive);
            UpdateProfile(u, once, selected, active, nowActive) == once
  {
    var once := UpdateProfile(u, p, selected, active, nowActive);
    if CanUpdateVolunteer(u, p, selected, active) && IsStaff(u) {
      assert ManagedMinistry(u).value in once.ministries;
    }
  }

  /** A priest's edit drops the volunteer from every other ministry: a
      volunteer of ministries 1 and 2 edited by the priest of ministry 1
      ends up in ministry 1 alone. */
  lemma StaffEditDropsOtherMinistries()
    ensures var priest := User(7, Priest, Approved, true, false, Some(1));
            var p := Profile(3, 9, {1, 2}, true);
            UpdateProfile(priest, p, {1}, {1, 2}, true).ministries == {1}
  {
    var priest := User(7, Priest, Approved, true, false, Some(1));
    var p := Profile(3, 9, {1, 2}, true);
    assert CanModifyVolunteer(priest, p);
    assert FormAccepts(priest, {1}, {1, 2});
  }

  /** Approval and rejection need `approve_volunteers`; a priest is further
      limited to volunteers of their ministry, an administrator is not. */
  predicate MayDecideApproval(u: User, p: Profile)
    ensures MayDecideApproval(u, p) <==> Can(u, ApproveVolunteers) && ScopeAdmits(u, p)
  {
    Can(u, ApproveVolunteers) && (IsPriest(u) ==> InManagedMinistry(u, p))
  }

  /** The owning user after an approval request. */
  function Approve(u: User, p: Profile, owner: User): (r: User)
    requires owner.id == p.user
    ensures MayDecideApproval(u, p) ==> r.approval == Approved && r.isActive
    ensures !MayDecideApproval(u, p) ==> r == owner
    ensures r.(approval := owner.approval, isActive := owner.isActive) == owner
  {
    if MayDecideApproval(u, p) then owner.(approval := Approved, isActive := true) else owner
  }

  /** The owning user after a rejection request. */
  function Reject(u: User, p: Profile, owner: User): (r: User)
    requires owner.id == p.user
    ensures MayDecideApproval(u, p) ==> r.approval == Rejected && !r.isActive
    ensures !MayDecideApproval(u, p) ==> r == owner
    ensures r.(approval := owner.approval, isActive := owner.isActive) == owner
  {
    if MayDecideApproval(u, p) then owner.(approval := Rejected, isActive := false) else owner
  }

  /** Approval and rejection do not look at the current status: two owners
      that differ only in status and activity end up identical. */
  lemma DecisionIgnoresPriorStatus(u: User, p: Profile, o1: User, o2: User)
    requires o1.id == p.user && o2.id == p.user
    requires o1.(approval := o2.approval, isActive := o2.isActive) == o2
    requires MayDecideApproval(u, p)
    ensures Approve(u, p, o1) == Approve(u, p, o2)
    ensures Reject(u, p, o1) == Reject(u, p, o2)
  {
  }

  /** Approving twice is approving once, and likewise for rejecting. */
  lemma DecisionIdempotent(u: User, p: Profile, owner: User)
    requires owner.id == p.user
    ensures Approve(u, p, Approve(u, p, owner)) == Approve(u, p, owner)
    ensures Reject(u, p, Reject(u, p, owner)) == Reject(u, p, owner)
  {
  }

  /** The later decision wins: a rejected volunteer can be re-approved and an
      approved one rejected, with no conflict detection. */
  lemma LaterDecisionWins(u: User, p: Profile, owner: User)
    requires owner.id == p.user
    requires MayDecideApproval(u, p)
    ensures Approve(u, p, Reject(u, p, owner)).approval == Approved
    ensures Reject(u, p, Approve(u, p, owner)).approval == Rejected
  {
  }

  /** An approved volunteer passes `can_login` unless suspended; a
      rejected one fails it. */
  lemma DecisionAndLogin(u: User, p: Profile, owner: User)
    requires owner.id == p.user
    requires MayDecideApproval(u, p)
    ensures CanLogin(Approve(u, p, owner)) <==> !owner.isSuspended
    ensures !CanLogin(Reject(u, p, owner))
  {
  }

}
