/** The role gates of ministries/views.py. The list and detail views have
    no role test. */
module Ministries {
  import opened Wrappers
  import opened Accounts

  /** The create and update views' test: `can_manage_volunteers`, so a
      priest or coordinator may create or edit a ministry. */
  predicate CanEditMinistries(u: User)
    ensures CanEditMinistries(u) <==> u.role != Volunteer
  {
    Can(u, ManageVolunteers)
  }

  /** The delete view's test: administrators only. */
  predicate CanDeleteMinistry(u: User)
    ensures CanDeleteMinistry(u) <==> Can(u, ManageMinistries)
  {
    IsAdministrator(u)
  }

  /** The create and update gates are wider than the capability named for
      managing ministries: a priest passes them without holding it. */
  lemma EditGateWiderThanManageMinistries()
    ensures var priest := User(2, Priest, Approved, true, false, Some(1));
            CanEditMinistries(priest) && !Can(priest, ManageMinistries)
  {
  }

}
