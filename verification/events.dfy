/** Events, tasks and event reports, and the views of events/views.py: the
    priest-only event create/update/delete, the coordinator-ownership views
    (coordinator detail, add/remove volunteers, tasks, report creation),
    report status coercion with its one-time submission stamp, and report
    detail access. */
module Events {
  import opened Wrappers
  import opened Accounts
  import opened Scope
  import opened Volunteers

  type EventId = nat
  type TaskId = nat
  type ReportId = nat

  /** A clock reading; only its identity matters to the model. */
  type Stamp = nat

  /** An event: its nullable ministry and coordinator, and the set of
      assigned volunteer profiles. */
  datatype Event = Event(
    id: EventId,
    ministry: Option<MinistryId>,
    coordinator: Option<UserId>,
    assignedVolunteers: set<ProfileId>,
    isActive: bool)

  /** A task of one event, assigned to one volunteer. */
  datatype Task = Task(id: TaskId, event: EventId, assignedTo: ProfileId, assignedBy: Option<UserId>)

  datatype ReportStatus = Draft | Submitted | Reviewed

  /** An event report and its author; `submittedAt` is the nullable time of
      the first submission. */
  datatype Report = Report(
    id: ReportId,
    event: EventId,
    submittedBy: UserId,
    status: ReportStatus,
    submittedAt: Option<Stamp>)

  function StatusName(s: ReportStatus): string
  {
    match s
    case Draft => "draft"
    case Submitted => "submitted"
    case Reviewed => "reviewed"
  }

  /** The create view's test: a priest bound to a ministry (an
      administrator cannot create events). */
  predicate CanCreateEvent(u: User)
    ensures CanCreateEvent(u) <==> u.role == Priest && ResolveScope(u).Ministry?
  {
    IsPriest(u) && u.assignedMinistry.Some?
  }

  /** The update and delete views' test: a priest whose ministry is the
      event's. An event without a ministry is editable by nobody. */
  predicate CanEditEvent(u: User, e: Event)
    ensures CanEditEvent(u, e) <==>
      u.role == Priest && e.ministry.Some? && ResolveScope(u) == Ministry(e.ministry.value)
  {
    IsPriest(u) && u.assignedMinistry.Some? && e.ministry == u.assignedMinistry
  }

  /** The test of the coordinator detail, add/remove volunteer, task and
      report-creation views: the event's own coordinator. Whoever passes it
      cannot create, update or delete events: those views are the
      priest's. */
  predicate OwnsEvent(u: User, e: Event)
    ensures OwnsEvent(u, e) ==> !CanCreateEvent(u) && !CanEditEvent(u, e)
  {
    IsCoordinator(u) && e.coordinator == Some(u.id)
  }

  /** The event after an add-volunteers request: the selection joins the
      assigned set when the requester owns the event and the selection is
      drawn from the offered candidates; nothing else changes. */
  function AddVolunteers(u: User, e: Event, selected: set<Profile>, candidates: set<Profile>): (r: Event)
    ensures r.(assignedVolunteers := e.assignedVolunteers) == e
    ensures e.assignedVolunteers <= r.assignedVolunteers <= e.assignedVolunteers + Ids(selected)
    ensures OwnsEvent(u, e) && selected <= candidates ==>
      r.assignedVolunteers == e.assignedVolunteers + Ids(selected)
    ensures !(OwnsEvent(u, e) && selected <= candidates) ==> r == e
  {
    if OwnsEvent(u, e) && selected <= candidates
    then e.(assignedVolunteers := e.assignedVolunteers + Ids(selected))
    else e
  }

  /** The event after a remove-volunteer request: only that volunteer
      leaves, and only if currently assigned (otherwise not found). */
  function RemoveVolunteer(u: User, e: Event, v: ProfileId): (r: Event)
    ensures r.(assignedVolunteers := e.assignedVolunteers) == e
    ensures r == e || (OwnsEvent(u, e) && v in e.assignedVolunteers && v !in r.assignedVolunteers)
    ensures forall w :: w != v ==> (w in r.assignedVolunteers <==> w in e.assignedVolunteers)
    ensures OwnsEvent(u, e) ==> v !in r.assignedVolunteers
  {
    if OwnsEvent(u, e) && v in e.assignedVolunteers
    then e.(assignedVolunteers := e.assignedVolunteers - {v})
    else e
  }

  /** Adding a volunteer who was not assigned and removing them again
      restores the event. */
  lemma AddThenRemove(u: User, e: Event, p: Profile, candidates: set<Profile>)
    requires OwnsEvent(u, e) && p in candidates && p.id !in e.assignedVolunteers
    ensures RemoveVolunteer(u, AddVolunteers(u, e, {p}, candidates), p.id) == e
  {
    var added := AddVolunteers(u, e, {p}, candidates);
    assert Ids({p}) == {p.id};
    assert added.assignedVolunteers - {p.id} == e.assignedVolunteers;
  }

  /** The status a save stores: anything but "draft" or "submitted" becomes
      draft. */
  function CoerceStatus(s: string): (r: ReportStatus)
    ensures r != Reviewed
    ensures r == Submitted <==> s == "submitted"
  {
    if s != "draft" && s != "submitted" then Draft
    else if s == "submitted" then Submitted
    else Draft
  }

  /** Coercion reads back every status a save can store. */
  lemma CoerceStatusName(s: ReportStatus)
    requires s != Reviewed
    ensures CoerceStatus(StatusName(s)) == s
  {
  }

  /** The submission stamp after a save: taken from the clock on a save into
      submitted while unset; never overwritten and never cleared. */
  function StampOnSave(status: ReportStatus, at: Option<Stamp>, now: Stamp): (r: Option<Stamp>)
    ensures at.Some? ==> r == at
    ensures at.None? ==> (r.Some? <==> status == Submitted)
    ensures r.Some? && at.None? ==> r == Some(now)
  {
    if status == Submitted && at.None? then Some(now) else at
  }

  /** The report a create request stores. */
  function CreateReport(u: User, e: Event, id: ReportId, requested: string, now: Stamp): (r: Option<Report>)
    ensures r.Some? <==> OwnsEvent(u, e)
    ensures r.Some? ==> r.value.id == id && r.value.event == e.id && r.value.submittedBy == u.id
    ensures r.Some? ==> r.value.status == CoerceStatus(requested) && r.value.status != Reviewed
    ensures r.Some? ==> (r.value.submittedAt.Some? <==> r.value.status == Submitted)
    ensures r.Some? && r.value.submittedAt.Some? ==> r.value.submittedAt == Some(now)
  {
    if OwnsEvent(u, e) then
      var status := CoerceStatus(requested);
      Some(Report(id, e.id, u.id, status, StampOnSave(status, None, now)))
    else None
  }

  /** The update view's test: the coordinator who wrote the report, while it
      is not yet reviewed -- that is, while its status is one a save can
      store. */
  predicate CanUpdateReport(u: User, rep: Report)
    ensures CanUpdateReport(u, rep) <==>
      u.role == Coordinator && rep.submittedBy == u.id && CoerceStatus(StatusName(rep.status)) == rep.status
  {
    IsCoordinator(u) && rep.submittedBy == u.id && rep.status != Reviewed
  }

  /** The report after an update request. */
  function UpdateReport(u: User, rep: Report, requested: string, now: Stamp): (r: Report)
    ensures r.(status := rep.status, submittedAt := rep.submittedAt) == rep
    ensures !CanUpdateReport(u, rep) ==> r == rep
    ensures CanUpdateReport(u, rep) ==> r.status == CoerceStatus(requested) && CanUpdateReport(u, r)
    ensures rep.submittedAt.Some? ==> r.submittedAt == rep.submittedAt
    ensures CanUpdateReport(u, rep) && r.status == Submitted ==> r.submittedAt.Some?
  {
    if CanUpdateReport(u, rep) then
      var status := CoerceStatus(requested);
      rep.(status := status, submittedAt := StampOnSave(status, rep.submittedAt, now))
    else rep
  }

  /** A run of update requests, each a requested status and the clock
      reading at the time. */
  function UpdateAll(u: User, rep: Report, reqs: seq<(string, Stamp)>): Report
    decreases |reqs|
  {
    if |reqs| == 0 then rep
    else UpdateAll(u, UpdateReport(u, rep, reqs[0].0, reqs[0].1), reqs[1..])
  }

  /** The clock reading of the first request that asks for "submitted". */
  function FirstSubmission(reqs: seq<(string, Stamp)>): Option<Stamp>
    decreases |reqs|
  {
    if |reqs| == 0 then None
    else if reqs[0].0 == "submitted" then Some(reqs[0].1)
    else FirstSubmission(reqs[1..])
  }

  /** Once stamped, a report keeps its stamp through any run of updates. */
  lemma {:induction false} StampIsPermanent(u: User, rep: Report, reqs: seq<(string, Stamp)>)
    requires rep.submittedAt.Some?
    ensures UpdateAll(u, rep, reqs).submittedAt == rep.submittedAt
    decreases |reqs|
  {
    if |reqs| > 0 {
      StampIsPermanent(u, UpdateReport(u, rep, reqs[0].0, reqs[0].1), reqs[1..]);
    }
  }

  /** Through any run of updates by its author, an unstamped report ends up
      stamped with the time of the first request into submitted, however
      many times it goes back to draft afterwards. */
  lemma {:induction false} StampIsFirstSubmission(u: User, rep: Report, reqs: seq<(string, Stamp)>)
    requires CanUpdateReport(u, rep) && rep.submittedAt.None?
    ensures UpdateAll(u, rep, reqs).submittedAt == FirstSubmission(reqs)
    decreases |reqs|
  {
    if |reqs| > 0 {
      var next := UpdateReport(u, rep, reqs[0].0, reqs[0].1);
      if reqs[0].0 == "submitted" {
        StampIsPermanent(u, next, reqs[1..]);
      } else {
        StampIsFirstSubmission(u, next, reqs[1..]);
      }
    }
  }

  /** The detail view's test on a report of its event `e`: the authoring coordinator, a priest whose
      ministry field equals the event's (a priest without a ministry
      therefore sees the reports of events without one), or an
      administrator. */
  predicate CanViewReport(u: User, rep: Report, e: Event)
    requires rep.event == e.id
    ensures u.role == Administrator ==> CanViewReport(u, rep, e)
    ensures u.role == Volunteer ==> !CanViewReport(u, rep, e)
    ensures u.role == Coordinator ==> (CanViewReport(u, rep, e) <==> rep.submittedBy == u.id)
    ensures u.role == Priest && ResolveScope(u).Ministry? ==>
      (CanViewReport(u, rep, e) <==> Admits(ResolveScope(u), None, OptionSet(e.ministry)))
    ensures u.role == Priest && ResolveScope(u).Empty? ==> (CanViewReport(u, rep, e) <==> e.ministry.None?)
  {
    (IsCoordinator(u) && rep.submittedBy == u.id)
    || (IsPriest(u) && e.ministry == u.assignedMinistry)
    || IsAdministrator(u)
  }

  /** The coordinator who may update a report may also view it. */
  lemma UpdaterCanView(u: User, rep: Report, e: Event)
    requires rep.event == e.id && CanUpdateReport(u, rep)
    ensures CanViewReport(u, rep, e)
  {
  }

  /** The scope rule would refuse a priest without a ministry; the detail
      view admits them to the report of an event without one. */
  lemma ReportDetailNotFailClosed()
    ensures var priest := User(4, Priest, Approved, true, false, None);
            var e := Event(2, None, Some(5), {}, true);
            ResolveScope(priest) == Empty && CanViewReport(priest, Report(1, 2, 5, Submitted, Some(0)), e)
  {
  }

}
