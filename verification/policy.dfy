/** One decision function over every gated view of the system, built from
    the per-view tests of the other modules, and the properties that hold
    across views: what a volunteer can reach, what a priest or coordinator
    without a ministry can reach, what an administrator can reach, who may
    touch a coordinator's event, and that no view grants more than the
    capability table. */
module Policy {
  import opened Wrappers
  import opened Accounts
  import opened Scope
  import V = Volunteers
  import UA = UserAdmin
  import Ev = Events
  import At = Attendance
  import Fb = Feedback
  import Mi = Ministries
  import Co = Communications

  /** A request to one view, with the records its test looks at. A role
      request carries the submitted value as parsed against the role
      choices (None when it is not one of them). */
  datatype Action =
    // accounts/views.py
    | ListUsers | CreateUser | UpdateUser
    | DeleteUser(target: User)
    | SuspendUser(target: User)
    | AssignRole(target: User, requested: Option<Role>, profile: Option<V.Profile>)
    | AssignMinistry(target: User)
    // volunteers/views.py
    | ListVolunteers
    | ViewVolunteer(volunteer: V.Profile)
    | CreateVolunteer(selected: set<MinistryId>, active: set<MinistryId>)
    | UpdateVolunteer(volunteer: V.Profile, selected: set<MinistryId>, active: set<MinistryId>)
    | DeleteVolunteer(volunteer: V.Profile)
    | ApproveVolunteer(volunteer: V.Profile)
    | RejectVolunteer(volunteer: V.Profile)
    // events/views.py
    | ListEvents | ViewEvent
    | CreateEvent
    | UpdateEvent(event: Ev.Event) | DeleteEvent(event: Ev.Event)
    | CoordinateEvent(event: Ev.Event)
    | AddEventVolunteers(event: Ev.Event) | RemoveEventVolunteer(event: Ev.Event)
    | CreateTask(event: Ev.Event) | UpdateTask(event: Ev.Event) | DeleteTask(event: Ev.Event)
    | CreateReport(event: Ev.Event)
    | UpdateReport(report: Ev.Report)
    | ViewReport(report: Ev.Report, event: Ev.Event)
    // attendance/views.py
    | ListAttendance
    | CreateAttendance(event: Ev.Event, volunteer: V.Profile)
    | UpdateAttendance(event: Ev.Event) | DeleteAttendance(event: Ev.Event)
    | BulkAttendance(event: Ev.Event)
    // feedback/views.py
    | ListEvaluations | CreateEvaluation
    | UpdateEvaluation(evaluation: Fb.Evaluation) | DeleteEvaluation(evaluation: Fb.Evaluation)
    | ListEventFeedback | CreateEventFeedback
    // ministries/views.py
    | ListMinistries | ViewMinistry | CreateMinistry | UpdateMinistry | DeleteMinistry
    // communications/views.py
    | ListAnnouncements | ViewAnnouncement | CreateAnnouncement
    | UpdateAnnouncement(announcement: Co.Announcement)
    | DeleteAnnouncement(announcement: Co.Announcement)

  /** Whether the view lets signed-in user `s` through with this request.
      The event of a task or attendance record is the record's own event; a
      report is viewed together with its own event. Every view without a
      role test lets everyone through; `DecisionRespectsCapabilities`
      shows that no view lets a user through without the capability its
      test implies. */
  predicate Decide(s: User, a: Action)
    ensures Ungated(a) ==> Decide(s, a)
  {
    match a
    case ListUsers | CreateUser | UpdateUser => UA.CanManageUsers(s)
    case DeleteUser(t) => UA.CanDeleteUser(s, t)
    case SuspendUser(t) => UA.SuspendChanges(s, t)
    case AssignRole(t, role, profile) => UA.RoleRequestAccepted(s, t, role, profile)
    case AssignMinistry(_) => IsAdministrator(s)
    case ListVolunteers => V.CanListVolunteers(s)
    case ViewVolunteer(p) => V.CanViewVolunteer(s, p)
    case CreateVolunteer(sel, act) => V.CanCreateVolunteer(s, sel, act)
    case UpdateVolunteer(p, sel, act) => V.CanUpdateVolunteer(s, p, sel, act)
    case DeleteVolunteer(p) => V.CanModifyVolunteer(s, p)
    case ApproveVolunteer(p) => V.MayDecideApproval(s, p)
    case RejectVolunteer(p) => V.MayDecideApproval(s, p)
    case ListEvents | ViewEvent => true
    case CreateEvent => Ev.CanCreateEvent(s)
    case UpdateEvent(e) => Ev.CanEditEvent(s, e)
    case DeleteEvent(e) => Ev.CanEditEvent(s, e)
    case CoordinateEvent(e) => Ev.OwnsEvent(s, e)
    case AddEventVolunteers(e) => Ev.OwnsEvent(s, e)
    case RemoveEventVolunteer(e) => Ev.OwnsEvent(s, e)
    case CreateTask(e) => Ev.OwnsEvent(s, e)
    case UpdateTask(e) => Ev.OwnsEvent(s, e)
    case DeleteTask(e) => Ev.OwnsEvent(s, e)
    case CreateReport(e) => Ev.OwnsEvent(s, e)
    case UpdateReport(rep) => Ev.CanUpdateReport(s, rep)
    case ViewReport(rep, e) => rep.event == e.id && Ev.CanViewReport(s, rep, e)
    case ListAttendance => Can(s, TrackAttendance)
    case CreateAttendance(e, p) => Can(s, TrackAttendance) && At.OfferedOnCreate(s, e, p) && At.CreateChecks(s, e, p)
    case UpdateAttendance(e) => At.CanChangeRecord(s, e)
    case DeleteAttendance(e) => At.CanChangeRecord(s, e)
    case BulkAttendance(e) => Can(s, TrackAttendance) && At.CanAccessEvent(s, e)
    case ListEvaluations => true
    case CreateEvaluation => Can(s, ProvideFeedback)
    case UpdateEvaluation(ev) => Fb.CanChangeEvaluation(s, ev)
    case DeleteEvaluation(ev) => Fb.CanChangeEvaluation(s, ev)
    case ListEventFeedback | CreateEventFeedback => true
    case ListMinistries | ViewMinistry => true
    case CreateMinistry | UpdateMinistry => Mi.CanEditMinistries(s)
    case DeleteMinistry => Mi.CanDeleteMinistry(s)
    case ListAnnouncements | ViewAnnouncement => true
    case CreateAnnouncement => Can(s, ManageVolunteers)
    case UpdateAnnouncement(an) => Co.CanEditAnnouncement(s, an)
    case DeleteAnnouncement(an) => Co.CanEditAnnouncement(s, an)
  }

  /** The views with no role test at all. */
  predicate Ungated(a: Action)
  {
    || a.ListEvents? || a.ViewEvent? || a.ListEvaluations? || a.ListEventFeedback?
    || a.CreateEventFeedback? || a.ListMinistries? || a.ViewMinistry?
    || a.ListAnnouncements? || a.ViewAnnouncement?
  }

  /** The views whose test a priest or coordinator passes only through their
      own ministry. */
  predicate MinistryScoped(a: Action)
  {
    || a.ViewVolunteer? || a.CreateVolunteer? || a.UpdateVolunteer? || a.DeleteVolunteer?
    || a.ApproveVolunteer? || a.RejectVolunteer? || a.AssignRole?
    || a.CreateEvent? || a.UpdateEvent? || a.DeleteEvent?
    || a.CreateAttendance? || a.UpdateAttendance? || a.DeleteAttendance? || a.BulkAttendance?
  }

  /** The views only the event's own coordinator passes. */
  predicate CoordinatorOwned(a: Action)
  {
    || a.CoordinateEvent? || a.AddEventVolunteers? || a.RemoveEventVolunteer?
    || a.CreateTask? || a.UpdateTask? || a.DeleteTask? || a.CreateReport?
  }

  /** The capability a view's test implies, when it implies one. */
  function Needs(a: Action): (c: Option<Capability>)
    ensures Ungated(a) ==> c.None?
  {
    match a
    case ListUsers | CreateUser | UpdateUser | DeleteUser(_) | SuspendUser(_) | AssignMinistry(_) =>
      Some(ManageAllUsers)
    case AssignRole(_, _, _) => Some(AssignRoles)
    case ListVolunteers | CreateVolunteer(_, _) | UpdateVolunteer(_, _, _) | DeleteVolunteer(_) =>
      Some(ManageVolunteers)
    case ApproveVolunteer(_) | RejectVolunteer(_) => Some(ApproveVolunteers)
    case CreateEvent | UpdateEvent(_) | DeleteEvent(_) => Some(ScheduleEvents)
    case CoordinateEvent(_) | AddEventVolunteers(_) | RemoveEventVolunteer(_)
       | CreateTask(_) | UpdateTask(_) | DeleteTask(_) => Some(AssignVolunteersToEvents)
    case CreateReport(_) | UpdateReport(_) | ViewReport(_, _) => Some(ViewReports)
    case ListAttendance | CreateAttendance(_, _) | UpdateAttendance(_) | DeleteAttendance(_)
       | BulkAttendance(_) => Some(TrackAttendance)
    case CreateEvaluation | UpdateEvaluation(_) | DeleteEvaluation(_) => Some(ProvideFeedback)
    case CreateMinistry | UpdateMinistry => Some(ManageVolunteers)
    case DeleteMinistry => Some(ManageMinistries)
    case CreateAnnouncement | UpdateAnnouncement(_) | DeleteAnnouncement(_) => Some(SendCommunications)
    case _ => None
  }

  /** No view lets a user through without the capability its test implies. */
  lemma DecisionRespectsCapabilities(s: User, a: Action)
    requires Decide(s, a) && Needs(a).Some?
    ensures Can(s, Needs(a).value)
  {
  }

  /** A volunteer passes exactly the ungated views and the detail view of
      their own profile. */
  lemma VolunteerReach(s: User, a: Action)
    requires s.role == Volunteer
    ensures Decide(s, a) <==> Ungated(a) || (a.ViewVolunteer? && a.volunteer.user == s.id)
  {
  }

  /** A priest or coordinator without a ministry passes none of the views
      that are scoped to a ministry. */
  lemma MinistrylessStaffDenied(s: User, a: Action)
    requires IsStaff(s) && s.assignedMinistry.None?
    requires MinistryScoped(a)
    ensures !Decide(s, a)
  {
  }

  /** Only the coordinator named on the event passes its coordinator views;
      an administrator does not. */
  lemma OnlyEventCoordinator(s: User, a: Action)
    requires CoordinatorOwned(a)
    ensures Decide(s, a) <==> s.role == Coordinator && a.event.coordinator == Some(s.id)
  {
  }

  /** Nobody may delete or suspend themselves. */
  lemma NoSelfAction(s: User)
    ensures !Decide(s, DeleteUser(s)) && !Decide(s, SuspendUser(s))
  {
  }

  /** What an administrator is refused: acting on themselves, an unknown
      role value, a volunteer form whose ministries are not active, the
      priest-only event views, the coordinator-only views, reports, an
      attendance record for a volunteer not on the event, and another
      user's evaluation. Everything else is allowed. */
  predicate AdministratorRefused(s: User, a: Action)
  {
    match a
    case DeleteUser(t) => t.id == s.id
    case SuspendUser(t) => t.id == s.id
    case AssignRole(_, role, _) => role.None?
    case CreateVolunteer(sel, act) => !V.FormAccepts(s, sel, act)
    case UpdateVolunteer(_, sel, act) => !V.FormAccepts(s, sel, act)
    case CreateEvent | UpdateEvent(_) | DeleteEvent(_) => true
    case CoordinateEvent(_) | AddEventVolunteers(_) | RemoveEventVolunteer(_)
       | CreateTask(_) | UpdateTask(_) | DeleteTask(_) | CreateReport(_) => true
    case UpdateReport(_) => true
    case ViewReport(rep, e) => rep.event != e.id
    case CreateAttendance(e, p) => p.id !in e.assignedVolunteers
    case UpdateEvaluation(ev) => ev.evaluatedBy != s.id
    case DeleteEvaluation(ev) => ev.evaluatedBy != s.id
    case _ => false
  }

  /** An administrator passes every view except the refusals listed above. */
  lemma AdministratorReach(s: User, a: Action)
    requires s.role == Administrator
    ensures Decide(s, a) <==> !AdministratorRefused(s, a)
  {
  }

  /** Decisions depend on the requester only through role, identity and
      ministry: no view looks at approval state, activity or suspension, so
      a signed-in session keeps its access after a suspension. */
  lemma DecisionIgnoresAccountState(s1: User, s2: User, a: Action)
    requires SameSubject(s1, s2)
    ensures Decide(s1, a) == Decide(s2, a)
  {
    if AccountView(a) {
      SameDecisionOnAccountViews(s1, s2, a);
    } else if VolunteerView(a) {
      SameDecisionOnVolunteerViews(s1, s2, a);
    } else if EventView(a) {
      SameDecisionOnEventViews(s1, s2, a);
    } else if AttendanceView(a) {
      SameDecisionOnAttendanceViews(s1, s2, a);
    } else if FeedbackView(a) {
      SameDecisionOnFeedbackViews(s1, s2, a);
    } else {
      SameDecisionOnRemainingViews(s1, s2, a);
    }
  }

  /** Two users who agree on identity, role and ministry. */
  predicate SameSubject(s1: User, s2: User)
  {
    s1.id == s2.id && s1.role == s2.role && s1.assignedMinistry == s2.assignedMinistry
  }

  /** The views of accounts/views.py. */
  predicate AccountView(a: Action)
  {
    a.ListUsers? || a.CreateUser? || a.UpdateUser? || a.DeleteUser? || a.SuspendUser?
    || a.AssignRole? || a.AssignMinistry?
  }

  /** The views of volunteers/views.py. */
  predicate VolunteerView(a: Action)
  {
    a.ListVolunteers? || a.ViewVolunteer? || a.CreateVolunteer? || a.UpdateVolunteer?
    || a.DeleteVolunteer? || a.ApproveVolunteer? || a.RejectVolunteer?
  }

  /** The views of events/views.py. */
  predicate EventView(a: Action)
  {
    a.ListEvents? || a.ViewEvent? || a.CreateEvent? || a.UpdateEvent? || a.DeleteEvent?
    || CoordinatorOwned(a) || a.UpdateReport? || a.ViewReport?
  }

  /** The views of attendance/views.py. */
  predicate AttendanceView(a: Action)
  {
    a.ListAttendance? || a.CreateAttendance? || a.UpdateAttendance? || a.DeleteAttendance?
    || a.BulkAttendance?
  }

  /** The views of feedback/views.py. */
  predicate FeedbackView(a: Action)
  {
    a.ListEvaluations? || a.CreateEvaluation? || a.UpdateEvaluation? || a.DeleteEvaluation?
    || a.ListEventFeedback? || a.CreateEventFeedback?
  }

  lemma SameDecisionOnAccountViews(s1: User, s2: User, a: Action)
    requires SameSubject(s1, s2) && AccountView(a)
    ensures Decide(s1, a) == Decide(s2, a)
  {
  }

  lemma SameDecisionOnVolunteerViews(s1: User, s2: User, a: Action)
    requires SameSubject(s1, s2) && VolunteerView(a)
    ensures Decide(s1, a) == Decide(s2, a)
  {
  }

  lemma SameDecisionOnEventViews(s1: User, s2: User, a: Action)
    requires SameSubject(s1, s2) && EventView(a)
    ensures Decide(s1, a) == Decide(s2, a)
  {
  }

  lemma SameDecisionOnAttendanceViews(s1: User, s2: User, a: Action)
    requires SameSubject(s1, s2) && AttendanceView(a)
    ensures Decide(s1, a) == Decide(s2, a)
  {
  }

  lemma SameDecisionOnFeedbackViews(s1: User, s2: User, a: Action)
    requires SameSubject(s1, s2) && FeedbackView(a)
    ensures Decide(s1, a) == Decide(s2, a)
  {
  }

  /** The ministry and announcement views. */
  lemma SameDecisionOnRemainingViews(s1: User, s2: User, a: Action)
    requires SameSubject(s1, s2)
    requires !AccountView(a) && !VolunteerView(a) && !EventView(a) && !AttendanceView(a) && !FeedbackView(a)
    ensures Decide(s1, a) == Decide(s2, a)
  {
  }

}
