/** The choice sets of events/forms.py -- the event form as a priest sees
    it, the task assignee choices, the report status choices and the
    add-volunteer candidates -- and the event and task create requests of
    events/views.py, which store a submission only when it is drawn from
    those choices. */
module EventForms {
  import opened Wrappers
  import opened Accounts
  import opened Scope
  import opened Volunteers
  import opened Events

  /** What the event form offers: a ministry fixed in advance (None when the
      field is left open), and the coordinator and volunteer choices. */
  datatype EventFormFields = EventFormFields(
    fixedMinistry: Option<MinistryId>,
    coordinators: set<User>,
    volunteers: set<Profile>)

  /** The event form for a user. For a priest with a ministry the ministry
      field is fixed to it, the coordinator choices are the coordinators
      sharing the priest's scope, and the volunteer choices are the profiles
      the priest's volunteer list shows; for anyone else every field is
      left open. */
  function EventFormFor(u: User, users: set<User>, profiles: set<Profile>): (f: EventFormFields)
    ensures u.role == Priest && u.assignedMinistry.Some? ==>
      && f.fixedMinistry == u.assignedMinistry
      && f.coordinators <= users
      && (forall c :: c in users ==>
            (c in f.coordinators <==> c.role == Coordinator && ResolveScope(c) == ResolveScope(u)))
      && f.volunteers == ListVolunteers(u, profiles).value
    ensures !(u.role == Priest && u.assignedMinistry.Some?) ==> f == EventFormFields(None, users, profiles)
  {
    if IsPriest(u) && u.assignedMinistry.Some? then
      var m := u.assignedMinistry.value;
      var coordinators := set c | c in users && c.role == Coordinator && c.assignedMinistry == Some(m);
      EventFormFields(Some(m), coordinators, MembersOf(profiles, m))
    else EventFormFields(None, users, profiles)
  }

  /** Validation of the event form: the coordinator field is required
      (the column is nullable but not blank) and must name one of the
      offered users; every assigned volunteer must be one of the offered
      profiles. */
  predicate EventFormAccepts(f: EventFormFields, submitted: Event)
  {
    && submitted.coordinator.Some?
    && (exists c :: c in f.coordinators && c.id == submitted.coordinator.value)
    && (forall v :: v in submitted.assignedVolunteers ==> exists p :: p in f.volunteers && p.id == v)
  }

  /** The event a create request stores: refused unless the view's test
      passes and the form validates against the choices offered to the
      priest; otherwise the submission, with its ministry forced to the
      priest's whatever was submitted. */
  function CreateEvent(u: User, submitted: Event, users: set<User>, profiles: set<Profile>): (r: Option<Event>)
    ensures r.Some? ==> CanCreateEvent(u) && submitted.coordinator.Some?
    ensures r.Some? ==> r.value.ministry == u.assignedMinistry && r.value.ministry.Some?
    ensures r.Some? ==> r.value.(ministry := submitted.ministry) == submitted
  {
    if CanCreateEvent(u) && EventFormAccepts(EventFormFor(u, users, profiles), submitted)
    then Some(submitted.(ministry := u.assignedMinistry))
    else None
  }

  /** An event is created exactly when the requester may create events,
      the coordinator is a coordinator sharing the priest's scope, and
      every assigned volunteer is a profile the priest's scope admits. */
  lemma CreateEventChoices(u: User, submitted: Event, users: set<User>, profiles: set<Profile>)
    ensures CreateEvent(u, submitted, users, profiles).Some? <==>
      && CanCreateEvent(u)
      && submitted.coordinator.Some?
      && (exists c :: c in users && c.id == submitted.coordinator.value
                      && c.role == Coordinator && ResolveScope(c) == ResolveScope(u))
      && (forall v :: v in submitted.assignedVolunteers ==>
            exists p :: p in profiles && p.id == v && ScopeAdmits(u, p))
  {
    if CanCreateEvent(u) {
      var f := EventFormFor(u, users, profiles);
      assert f.volunteers == ListVolunteers(u, profiles).value;
    }
  }

  /** The priest who creates an event may then update and delete it. */
  lemma CreatorCanEdit(u: User, submitted: Event, users: set<User>, profiles: set<Profile>)
    requires CreateEvent(u, submitted, users, profiles).Some?
    ensures CanEditEvent(u, CreateEvent(u, submitted, users, profiles).value)
  {
  }

  /** A created event's coordinator shares the creating priest's ministry:
      a coordinator of another ministry never comes to own an event of
      this one. */
  lemma CreatedEventCoordinatorShares(u: User, submitted: Event, users: set<User>, profiles: set<Profile>, c: User)
    requires CreateEvent(u, submitted, users, profiles).Some?
    requires UniqueUserIds(users) && c in users
    requires OwnsEvent(c, CreateEvent(u, submitted, users, profiles).value)
    ensures ResolveScope(c) == ResolveScope(u)
  {
    CreateEventChoices(u, submitted, users, profiles);
    var d :| d in users && d.id == submitted.coordinator.value
             && d.role == Coordinator && ResolveScope(d) == ResolveScope(u);
    assert c == d;
  }

  /** Every volunteer on a created event belongs to the priest's ministry. */
  lemma CreatedEventVolunteersInMinistry(u: User, submitted: Event, users: set<User>, profiles: set<Profile>, p: Profile)
    requires CreateEvent(u, submitted, users, profiles).Some?
    requires UniqueProfileIds(profiles) && p in profiles
    requires p.id in CreateEvent(u, submitted, users, profiles).value.assignedVolunteers
    ensures u.assignedMinistry.Some? && u.assignedMinistry.value in p.ministries
  {
    CreateEventChoices(u, submitted, users, profiles);
    var q :| q in profiles && q.id == p.id && ScopeAdmits(u, q);
    assert p == q;
  }

  /** A priest of ministry 1 cannot name a coordinator of ministry 2, nor a
      volunteer who serves only in ministry 2. */
  lemma ForeignCoordinatorRefused()
    ensures var priest := User(7, Priest, Approved, true, false, Some(1));
            var users := {User(99, Coordinator, Approved, true, false, Some(2))};
            var profiles := {Profile(5, 20, {2}, true)};
            CreateEvent(priest, Event(3, Some(2), Some(99), {5}, true), users, profiles).None?
  {
    var priest := User(7, Priest, Approved, true, false, Some(1));
    var users := {User(99, Coordinator, Approved, true, false, Some(2))};
    var profiles := {Profile(5, 20, {2}, true)};
    var f := EventFormFor(priest, users, profiles);
    assert User(99, Coordinator, Approved, true, false, Some(2)) !in f.coordinators;
  }

  /** The assignee choices of the task form: the ministry of a coordinator
      who has one, else the event's ministry, else every profile. */
  function TaskAssignees(u: User, e: Event, profiles: set<Profile>): (r: set<Profile>)
    ensures r <= profiles
    ensures u.role == Coordinator && u.assignedMinistry.Some? ==>
      forall p :: p in profiles ==> (p in r <==> ScopeAdmits(u, p))
    ensures !(u.role == Coordinator && u.assignedMinistry.Some?) && e.ministry.Some? ==>
      forall p :: p in profiles ==> (p in r <==> Admits(Ministry(e.ministry.value), None, p.ministries))
    ensures !(u.role == Coordinator && u.assignedMinistry.Some?) && e.ministry.None? ==> r == profiles
  {
    if IsCoordinator(u) && u.assignedMinistry.Some? then MembersOf(profiles, u.assignedMinistry.value)
    else if e.ministry.Some? then MembersOf(profiles, e.ministry.value)
    else profiles
  }

  /** The task a create request stores: refused unless the requester
      coordinates the event and the assignee is one of the offered
      choices; bound to the event and stamped with its creator. */
  function CreateTask(u: User, e: Event, t: Task, profiles: set<Profile>): (r: Option<Task>)
    ensures r.Some? ==> OwnsEvent(u, e) && exists p :: p in profiles && p.id == t.assignedTo
    ensures r.Some? ==> r.value.event == e.id && r.value.assignedBy == Some(u.id)
    ensures r.Some? ==> r.value.(event := t.event, assignedBy := t.assignedBy) == t
  {
    if OwnsEvent(u, e) && t.assignedTo in Ids(TaskAssignees(u, e, profiles))
    then Some(t.(event := e.id, assignedBy := Some(u.id)))
    else None
  }

  /** The event's coordinator may assign the task to any offered choice. */
  lemma OfferedAssigneeAccepted(u: User, e: Event, t: Task, profiles: set<Profile>, p: Profile)
    requires OwnsEvent(u, e) && p in TaskAssignees(u, e, profiles) && t.assignedTo == p.id
    ensures CreateTask(u, e, t, profiles).Some?
  {
  }

  /** A created task goes to a volunteer of the coordinator's ministry, or,
      for a coordinator without one, of the event's ministry. */
  lemma CreatedTaskAssigneeInMinistry(u: User, e: Event, t: Task, profiles: set<Profile>, p: Profile)
    requires CreateTask(u, e, t, profiles).Some?
    requires UniqueProfileIds(profiles) && p in profiles && p.id == t.assignedTo
    ensures u.assignedMinistry.Some? ==> u.assignedMinistry.value in p.ministries && ScopeAdmits(u, p)
    ensures u.assignedMinistry.None? && e.ministry.Some? ==> e.ministry.value in p.ministries
  {
    var q :| q in TaskAssignees(u, e, profiles) && q.id == t.assignedTo;
    assert p == q;
  }

  /** The status choices the report form offers. */
  const ReportStatusChoices: set<string> := {"draft", "submitted"}

  /** The coercion of the report views keeps every offered choice as it is,
      and whatever it is given, it stores one of the offered choices. */
  lemma CoercionRespectsChoices(s: string)
    ensures s in ReportStatusChoices ==> StatusName(CoerceStatus(s)) == s
    ensures StatusName(CoerceStatus(s)) in ReportStatusChoices
  {
  }

  /** The candidates the add-volunteer form offers: none by default; with a
      ministry on the requester, that ministry's profiles not yet assigned
      to the event. */
  function AddVolunteerCandidates(u: User, e: Event, profiles: set<Profile>): (r: set<Profile>)
    ensures r <= profiles
    ensures u.assignedMinistry.None? ==> r == {}
    ensures u.assignedMinistry.Some? ==> forall p :: p in profiles ==>
      (p in r <==> u.assignedMinistry.value in p.ministries && p.id !in e.assignedVolunteers)
    ensures forall p :: p in r ==> p.id !in e.assignedVolunteers
  {
    if u.assignedMinistry.Some? then
      set p | p in MembersOf(profiles, u.assignedMinistry.value) && p.id !in e.assignedVolunteers
    else {}
  }

  /** Every volunteer an add request puts on the event belongs to the
      coordinator's own ministry. */
  lemma AddedVolunteersInOwnMinistry(u: User, e: Event, selected: set<Profile>, profiles: set<Profile>)
    ensures var r := AddVolunteers(u, e, selected, AddVolunteerCandidates(u, e, profiles));
            r.assignedVolunteers == e.assignedVolunteers ||
            (u.assignedMinistry.Some? &&
             r.assignedVolunteers - e.assignedVolunteers <= Ids(MembersOf(profiles, u.assignedMinistry.value)))
  {
    var candidates := AddVolunteerCandidates(u, e, profiles);
    if OwnsEvent(u, e) && selected <= candidates && selected != {} {
      var m := u.assignedMinistry.value;
      var r := AddVolunteers(u, e, selected, candidates);
      forall id | id in r.assignedVolunteers - e.assignedVolunteers
        ensures id in Ids(MembersOf(profiles, m))
      {
        var p :| p in selected && p.id == id;
        assert p in MembersOf(profiles, m);
      }
    } else if selected == {} {
      assert Ids(selected) == {};
    }
  }

  /** Submitting the same selection again changes nothing: the recomputed
      candidates exclude the volunteers already added, so the second
      submission either adds nothing or is refused. */
  lemma AddVolunteersTwice(u: User, e: Event, selected: set<Profile>, profiles: set<Profile>)
    ensures var once := AddVolunteers(u, e, selected, AddVolunteerCandidates(u, e, profiles));
            AddVolunteers(u, once, selected, AddVolunteerCandidates(u, once, profiles)) == once
  {
  }

}
