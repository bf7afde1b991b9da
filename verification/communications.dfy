/** Announcements and the role gates of communications/views.py. The list
    and detail views have no role test. */
module Communications {
  import opened Wrappers
  import opened Accounts

  type AnnouncementId = nat

  /** An announcement and its author. */
  datatype Announcement = Announcement(id: AnnouncementId, createdBy: UserId, isActive: bool)

  /** The announcement a create request stores: stamped with its author. */
  function CreateAnnouncement(u: User, a: Announcement): (r: Option<Announcement>)
    ensures r.Some? <==> u.role != Volunteer
    ensures r.Some? ==> r.value.createdBy == u.id && r.value.(createdBy := a.createdBy) == a
  {
    if Can(u, ManageVolunteers) then Some(a.(createdBy := u.id)) else None
  }

  /** The update and delete views' test: `can_manage_volunteers`, with no
      look at the author. */
  predicate CanEditAnnouncement(u: User, a: Announcement)
    ensures CanEditAnnouncement(u, a) <==> u.role != Volunteer
  {
    Can(u, ManageVolunteers)
  }

  /** Any administrator, priest or coordinator may edit or delete an
      announcement someone else wrote. */
  lemma NoAuthorshipCheck(author: User, editor: User, a: Announcement)
    requires CreateAnnouncement(author, a).Some?
    requires editor.role != Volunteer
    ensures CanEditAnnouncement(editor, CreateAnnouncement(author, a).value)
  {
  }

  /** The gate the views use holds for exactly the roles that may send
      communications. */
  lemma GateMatchesSendCommunications(u: User)
    ensures Can(u, ManageVolunteers) == Can(u, SendCommunications)
  {
  }

}
