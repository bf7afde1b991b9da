/** Attendance records and the views of attendance/views.py: the list
    filter, the create checks, the update/delete test, the bulk-marking
    event test and allowed-events set, and the bulk upsert keyed by the
    unique (event, volunteer) pair. */
module Attendance {
  import opened Wrappers
  import opened Accounts
  import opened Scope
  import opened Volunteers
  import opened Events

  /** The unique (event, volunteer profile) pair of a record. */
  type Key = (EventId, ProfileId)

  /** An attendance record. The status is stored as text: the forms accept
      only the four choices, the bulk view stores whatever non-empty value
      it receives. */
  datatype Record = Record(status: string, notes: string, markedBy: Option<UserId>)

  /** The attendance table. Being a map, it holds at most one record per
      pair, which is the uniqueness the record type declares. */
  type Table = map<Key, Record>

  const StatusChoices: set<string> := {"present", "absent", "late", "excused"}

  /** The ministry of the event with the given id, if the event is known. */
  function EventMinistry(events: map<EventId, Event>, id: EventId): Option<MinistryId>
  {
    if id in events then events[id].ministry else None
  }

  /** The list view: refused to volunteers; for a priest or coordinator with
      a ministry, the records of that ministry's events, which is what the
      scope rule admits; for an administrator, everything; and for a priest
      or coordinator WITHOUT a ministry, also everything -- the filter is
      skipped rather than failing closed. */
  function ListAttendance(u: User, table: Table, events: map<EventId, Event>): (r: Option<set<Key>>)
    ensures r.None? <==> u.role == Volunteer
    ensures r.Some? ==> r.value <= table.Keys
    ensures r.Some? && !ResolveScope(u).Empty? ==> forall k :: k in table ==>
      (k in r.value <==> Admits(ResolveScope(u), None, OptionSet(EventMinistry(events, k.0))))
    ensures r.Some? && ResolveScope(u).Empty? ==> r.value == table.Keys
  {
    if !Can(u, TrackAttendance) then None
    else if IsCoordinator(u) then
      if ManagedMinistry(u).Some?
      then Some(set k | k in table && EventMinistry(events, k.0) == ManagedMinistry(u))
      else Some(table.Keys)
    else if IsPriest(u) then
      if ManagedMinistry(u).Some?
      then Some(set k | k in table && EventMinistry(events, k.0) == ManagedMinistry(u))
      else Some(table.Keys)
    else Some(table.Keys)
  }

  /** A coordinator with no ministry sees another ministry's records. */
  lemma AttendanceListNotFailClosed()
    ensures var c := User(3, Coordinator, Approved, true, false, None);
            var events := map[1 := Event(1, Some(8), Some(6), {2}, true)];
            var table := map[(1, 2) := Record("present", "", Some(6))];
            ResolveScope(c) == Empty && ListAttendance(c, table, events) == Some({(1, 2)})
  {
    var c := User(3, Coordinator, Approved, true, false, None);
    var events := map[1 := Event(1, Some(8), Some(6), {2}, true)];
    var table := map[(1, 2) := Record("present", "", Some(6))];
    assert table.Keys == {(1, 2)};
  }

  /** The event and volunteer the create form offers a priest or
      coordinator: active ones of their ministry (none without one);
      anyone else is offered every event and volunteer. For a priest or
      coordinator the offered pairs are active ones within their scope. */
  predicate OfferedOnCreate(u: User, e: Event, p: Profile)
    ensures OfferedOnCreate(u, e, p) && IsStaff(u) ==>
      Admits(ResolveScope(u), None, OptionSet(e.ministry)) && ScopeAdmits(u, p) && e.isActive && p.isActive
    ensures !IsStaff(u) ==> OfferedOnCreate(u, e, p)
  {
    IsStaff(u) ==>
      && ManagedMinistry(u).Some?
      && e.ministry == ManagedMinistry(u) && e.isActive
      && ManagedMinistry(u).value in p.ministries && p.isActive
  }

  /** Once a priest, coordinator or administrator saves a volunteer's
      profile with the active box cleared, the attendance form no longer
      offers that volunteer to any priest or coordinator. */
  lemma DeactivatedNotOffered(editor: User, p: Profile, selected: set<MinistryId>, active: set<MinistryId>, u: User, e: Event)
    requires CanUpdateVolunteer(editor, p, selected, active) && IsStaff(u)
    ensures !OfferedOnCreate(u, e, UpdateProfile(editor, p, selected, active, false))
  {
  }

  /** The create view's own checks, in order: a priest or coordinator needs
      a ministry that is the event's and one of the volunteer's; then, for
      every role, the volunteer must be assigned to the event. */
  predicate CreateChecks(u: User, e: Event, p: Profile)
    ensures CreateChecks(u, e, p) ==> p.id in e.assignedVolunteers
    ensures CreateChecks(u, e, p) && IsStaff(u) ==>
      ResolveScope(u).Ministry? && e.ministry == Some(ResolveScope(u).id) && ScopeAdmits(u, p)
  {
    && (IsCoordinator(u) || IsPriest(u) ==>
          ManagedMinistry(u).Some? && e.ministry == ManagedMinistry(u)
          && ManagedMinistry(u).value in p.ministries)
    && p.id in e.assignedVolunteers
  }

  /** The offered choices already satisfy the ministry half of the create
      checks; the enrollment half is the one the view adds. */
  lemma OfferedImpliesMinistryChecks(u: User, e: Event, p: Profile)
    requires OfferedOnCreate(u, e, p) && p.id in e.assignedVolunteers
    ensures CreateChecks(u, e, p)
  {
  }

  /** The table after a create request. A new record for an enrolled
      volunteer, marked by the requester; the pair must be new and the
      status one of the choices. */
  function CreateAttendance(u: User, table: Table, e: Event, p: Profile, status: string, notes: string): (r: Table)
    ensures r == table || r == table[(e.id, p.id) := Record(status, notes, Some(u.id))]
    ensures r != table ==>
      && Can(u, TrackAttendance) && p.id in e.assignedVolunteers
      && (e.id, p.id) !in table && status in StatusChoices
    ensures r != table && IsStaff(u) ==> e.ministry == ManagedMinistry(u) && ScopeAdmits(u, p)
    ensures (Can(u, TrackAttendance) && OfferedOnCreate(u, e, p) && CreateChecks(u, e, p)
             && (e.id, p.id) !in table && status in StatusChoices) ==>
      (e.id, p.id) in r && r[(e.id, p.id)].markedBy == Some(u.id)
  {
    var key := (e.id, p.id);
    if Can(u, TrackAttendance) && OfferedOnCreate(u, e, p) && status in StatusChoices
       && key !in table && CreateChecks(u, e, p)
    then table[key := Record(status, notes, Some(u.id))]
    else table
  }

  /** The event test shared by the update, delete and bulk-marking views:
      an administrator, or a priest or coordinator whose ministry is the
      event's -- exactly what the scope rule admits. */
  predicate CanAccessEvent(u: User, e: Event)
    ensures CanAccessEvent(u, e) <==> Admits(ResolveScope(u), None, OptionSet(e.ministry))
  {
    if IsAdministrator(u) then true
    else if IsPriest(u) || IsCoordinator(u) then ManagedMinistry(u).Some? && e.ministry == ManagedMinistry(u)
    else false
  }

  /** The update and delete views' test on a record of event `e`: a
      non-volunteer whom the scope rule admits to the event's ministry. */
  predicate CanChangeRecord(u: User, e: Event)
    ensures CanChangeRecord(u, e) <==> u.role != Volunteer && Admits(ResolveScope(u), None, OptionSet(e.ministry))
  {
    Can(u, TrackAttendance) && CanAccessEvent(u, e)
  }

  /** The table after an update request on the record `key` of event `e`.
      The form may move the record to any pair `newKey` not already taken;
      the status must be one of the choices; `markedBy` is kept. Enrollment
      is not checked again. */
  function UpdateAttendance(u: User, table: Table, e: Event, key: Key, newKey: Key, status: string, notes: string): (r: Table)
    requires key.0 == e.id
    ensures r != table ==> key in table && CanChangeRecord(u, e) && status in StatusChoices
    ensures r != table ==> r.Keys == table.Keys - {key} + {newKey} && |r| == |table|
    ensures r != table ==> r[newKey] == Record(status, notes, table[key].markedBy)
    ensures forall k :: k in table && k != key && k != newKey ==> k in r && r[k] == table[k]
    ensures key in table && CanChangeRecord(u, e) && status in StatusChoices && (newKey == key || newKey !in table) ==>
      r == (table - {key})[newKey := Record(status, notes, table[key].markedBy)]
    ensures newKey != key && newKey in table ==> r == table
  {
    if key in table && CanChangeRecord(u, e) && status in StatusChoices && (newKey == key || newKey !in table)
    then (table - {key})[newKey := Record(status, notes, table[key].markedBy)]
    else table
  }

  /** An allowed update that names a free pair moves the record there:
      the old pair is gone, and the new one holds the submitted values and
      the original marker. */
  lemma UpdateMovesRecord(u: User, table: Table, e: Event, key: Key, newKey: Key, status: string, notes: string)
    requires key.0 == e.id && key in table && newKey !in table
    requires CanChangeRecord(u, e) && status in StatusChoices
    ensures var r := UpdateAttendance(u, table, e, key, newKey, status, notes);
            key !in r && newKey in r && r[newKey] == Record(status, notes, table[key].markedBy)
  {
  }

  /** The form's event field offers every event and the view's test looks
      only at the record's current event, so a coordinator of ministry 1 can
      move a record of their event onto any other event (here event 9,
      whatever its ministry), where the volunteer need not be assigned. */
  lemma UpdateMovesAcrossMinistries()
    ensures var c := User(3, Coordinator, Approved, true, false, Some(1));
            var mine := Event(1, Some(1), Some(3), {2}, true);
            var table := map[(1, 2) := Record("present", "", Some(3))];
            var r := UpdateAttendance(c, table, mine, (1, 2), (9, 2), "late", "");
            r == map[(9, 2) := Record("late", "", Some(3))]
  {
    var table := map[(1, 2) := Record("present", "", Some(3))];
    assert table - {(1, 2)} == map[];
  }

  /** A record whose volunteer has since left the event can still be
      updated. */
  lemma UpdateIgnoresEnrollment(u: User, table: Table, e: Event, key: Key, status: string, notes: string)
    requires key.0 == e.id && key in table && key.1 !in e.assignedVolunteers
    requires CanChangeRecord(u, e) && status in StatusChoices
    ensures key in UpdateAttendance(u, table, e, key, key, status, notes)
    ensures UpdateAttendance(u, table, e, key, key, status, notes)[key].status == status
  {
  }

  /** The table after a delete request on the record `key` of event `e`. */
  function DeleteAttendance(u: User, table: Table, e: Event, key: Key): (r: Table)
    requires key.0 == e.id
    ensures r == table || (key in table && CanChangeRecord(u, e))
    ensures key !in r <==> key !in table || CanChangeRecord(u, e)
    ensures forall k :: k != key ==> (k in r <==> k in table)
    ensures forall k :: k in r ==> r[k] == table[k]
  {
    if key in table && CanChangeRecord(u, e) then table - {key} else table
  }

  /** The events the bulk-marking page offers (before its display limit):
      the active events, narrowed for a priest or coordinator to their
      ministry's, or to none without one. */
  function AllowedEvents(u: User, events: set<Event>): (r: set<Event>)
    ensures r <= events
    ensures forall e :: e in r ==> e.isActive
    ensures Can(u, TrackAttendance) ==> forall e :: e in events ==> (e in r <==> e.isActive && CanAccessEvent(u, e))
  {
    var active := set e | e in events && e.isActive;
    if IsCoordinator(u) || IsPriest(u) then
      if ManagedMinistry(u).Some? then set e | e in active && e.ministry == ManagedMinistry(u)
      else {}
    else active
  }

  /** Whether the bulk form gives volunteer `v` a non-empty status. */
  predicate Marks(statusOf: map<ProfileId, string>, v: ProfileId)
  {
    v in statusOf && statusOf[v] != ""
  }

  /** The notes the bulk form gives volunteer `v` (empty when absent). */
  function NotesFor(notesOf: map<ProfileId, string>, v: ProfileId): string
  {
    if v in notesOf then notesOf[v] else ""
  }

  /** The volunteers of event `e` among `vs` that the bulk form marks. */
  function MarkedAmong(vs: set<ProfileId>, statusOf: map<ProfileId, string>): (r: set<ProfileId>)
    ensures r <= vs
  {
    set v | v in vs && Marks(statusOf, v)
  }

  /** The keys a bulk request upserts for the volunteers `vs` of event `id`. */
  function KeysFor(id: EventId, vs: set<ProfileId>): (r: set<Key>)
    ensures forall k :: k in r <==> k.0 == id && k.1 in vs
  {
    set v | v in vs :: (id, v)
  }

  /** The table once the marked volunteers among `done` have been upserted:
      one record per pair, holding the submitted status and notes and the
      requester as marker; every other record unchanged. */
  function Upserted(table: Table, id: EventId, done: set<ProfileId>, statusOf: map<ProfileId, string>,
                    notesOf: map<ProfileId, string>, actor: UserId): (r: Table)
    ensures r.Keys == table.Keys + KeysFor(id, MarkedAmong(done, statusOf))
    ensures forall v :: v in MarkedAmong(done, statusOf) ==>
      r[(id, v)] == Record(statusOf[v], NotesFor(notesOf, v), Some(actor))
    ensures forall k :: k in table && !(k.0 == id && k.1 in MarkedAmong(done, statusOf)) ==> r[k] == table[k]
  {
    var marked := MarkedAmong(done, statusOf);
    map k | k in table.Keys + KeysFor(id, marked) ::
      if k.0 == id && k.1 in marked then Record(statusOf[k.1], NotesFor(notesOf, k.1), Some(actor)) else table[k]
  }

  /** Marking the same submission twice leaves the table as marking it once. */
  lemma UpsertIdempotent(table: Table, id: EventId, done: set<ProfileId>, statusOf: map<ProfileId, string>,
                         notesOf: map<ProfileId, string>, actor: UserId)
    ensures var once := Upserted(table, id, done, statusOf, notesOf, actor);
            Upserted(once, id, done, statusOf, notesOf, actor) == once
  {
  }

  /** A later bulk submission's status, notes and marker replace an
      earlier one's for every volunteer it marks. */
  lemma LaterMarkWins(table: Table, id: EventId, done: set<ProfileId>, first: map<ProfileId, string>,
                      second: map<ProfileId, string>, notesOf: map<ProfileId, string>, a1: UserId, a2: UserId, v: ProfileId)
    requires v in MarkedAmong(done, second)
    ensures var t := Upserted(Upserted(table, id, done, first, notesOf, a1), id, done, second, notesOf, a2);
            t[(id, v)] == Record(second[v], NotesFor(notesOf, v), Some(a2))
  {
  }

  /** The bulk-marking request on event `e`, visiting its assigned
      volunteers in the order `order`. Returns the table and the number of
      volunteers marked. A requester without access changes nothing. */
  method BulkMark(u: User, table: Table, e: Event, order: seq<ProfileId>,
                  statusOf: map<ProfileId, string>, notesOf: map<ProfileId, string>)
    returns (r: Table, count: nat)
    requires forall v :: v in order <==> v in e.assignedVolunteers
    requires forall i, j :: 0 <= i < j < |order| ==> order[i] != order[j]
    ensures !(Can(u, TrackAttendance) && CanAccessEvent(u, e)) ==> r == table && count == 0
    ensures Can(u, TrackAttendance) && CanAccessEvent(u, e) ==>
      && r == Upserted(table, e.id, e.assignedVolunteers, statusOf, notesOf, u.id)
      && count == |MarkedAmong(e.assignedVolunteers, statusOf)|
    ensures count <= |e.assignedVolunteers|
  {
    r := table;
    count := 0;
    if !(Can(u, TrackAttendance) && CanAccessEvent(u, e)) {
      return;
    }
    var i := 0;
    ghost var done: set<ProfileId> := {};
    while i < |order|
      invariant 0 <= i <= |order|
      invariant done == Elems(order[..i])
      invariant r == Upserted(table, e.id, done, statusOf, notesOf, u.id)
      invariant count == |MarkedAmong(done, statusOf)|
    {
      var v := order[i];
      ElemsStep(order, i);
      VisitStep(table, e.id, done, v, statusOf, notesOf, u.id);
      if Marks(statusOf, v) {
        r := r[(e.id, v) := Record(statusOf[v], NotesFor(notesOf, v), Some(u.id))];
        count := count + 1;
      }
      done := done + {v};
      i := i + 1;
    }
    assert order[..|order|] == order;
    assert Elems(order) == e.assignedVolunteers;
    MarkedBounded(e.assignedVolunteers, statusOf);
  }

  /** The set of elements of a sequence. */
  function Elems(s: seq<ProfileId>): (r: set<ProfileId>)
    ensures forall v :: v in r <==> v in s
  {
    set v | v in s
  }

  /** One more visited volunteer, distinct from those before it. */
  lemma ElemsStep(order: seq<ProfileId>, i: nat)
    requires i < |order|
    requires forall a, b :: 0 <= a < b < |order| ==> order[a] != order[b]
    ensures Elems(order[..i + 1]) == Elems(order[..i]) + {order[i]}
    ensures order[i] !in Elems(order[..i])
  {
    assert order[..i + 1] == order[..i] + [order[i]];
  }

  /** Upserting one more marked volunteer is one map update. */
  lemma UpsertStep(table: Table, id: EventId, done: set<ProfileId>, v: ProfileId, statusOf: map<ProfileId, string>,
                   notesOf: map<ProfileId, string>, actor: UserId)
    requires v !in done && Marks(statusOf, v)
    ensures Upserted(table, id, done + {v}, statusOf, notesOf, actor)
         == Upserted(table, id, done, statusOf, notesOf, actor)[(id, v) := Record(statusOf[v], NotesFor(notesOf, v), Some(actor))]
  {
    var m0 := MarkedAmong(done, statusOf);
    var m1 := MarkedAmong(done + {v}, statusOf);
    assert m1 == m0 + {v};
    var a := Upserted(table, id, done + {v}, statusOf, notesOf, actor);
    var b := Upserted(table, id, done, statusOf, notesOf, actor)[(id, v) := Record(statusOf[v], NotesFor(notesOf, v), Some(actor))];
    assert a.Keys == b.Keys;
    forall k | k in a
      ensures a[k] == b[k]
    {
    }
  }

  /** Visiting one more volunteer: a marked one is one map update and one
      more in the count; an unmarked one changes neither. */
  lemma VisitStep(table: Table, id: EventId, done: set<ProfileId>, v: ProfileId, statusOf: map<ProfileId, string>,
                  notesOf: map<ProfileId, string>, actor: UserId)
    requires v !in done
    ensures Marks(statusOf, v) ==>
      && Upserted(table, id, done + {v}, statusOf, notesOf, actor)
         == Upserted(table, id, done, statusOf, notesOf, actor)[(id, v) := Record(statusOf[v], NotesFor(notesOf, v), Some(actor))]
      && |MarkedAmong(done + {v}, statusOf)| == |MarkedAmong(done, statusOf)| + 1
    ensures !Marks(statusOf, v) ==>
      && Upserted(table, id, done + {v}, statusOf, notesOf, actor) == Upserted(table, id, done, statusOf, notesOf, actor)
      && |MarkedAmong(done + {v}, statusOf)| == |MarkedAmong(done, statusOf)|
  {
    if Marks(statusOf, v) {
      UpsertStep(table, id, done, v, statusOf, notesOf, actor);
      CountStep(done, v, statusOf);
    } else {
      SkipStep(table, id, done, v, statusOf, notesOf, actor);
    }
  }

  /** Visiting an unmarked volunteer changes nothing. */
  lemma SkipStep(table: Table, id: EventId, done: set<ProfileId>, v: ProfileId, statusOf: map<ProfileId, string>,
                 notesOf: map<ProfileId, string>, actor: UserId)
    requires !Marks(statusOf, v)
    ensures MarkedAmong(done + {v}, statusOf) == MarkedAmong(done, statusOf)
    ensures Upserted(table, id, done + {v}, statusOf, notesOf, actor) == Upserted(table, id, done, statusOf, notesOf, actor)
  {
    assert MarkedAmong(done + {v}, statusOf) == MarkedAmong(done, statusOf);
  }

  /** Visiting a new marked volunteer adds one to the count. */
  lemma CountStep(done: set<ProfileId>, v: ProfileId, statusOf: map<ProfileId, string>)
    requires v !in done && Marks(statusOf, v)
    ensures |MarkedAmong(done + {v}, statusOf)| == |MarkedAmong(done, statusOf)| + 1
  {
    assert MarkedAmong(done + {v}, statusOf) == MarkedAmong(done, statusOf) + {v};
  }

  lemma MarkedBounded(vs: set<ProfileId>, statusOf: map<ProfileId, string>)
    ensures |MarkedAmong(vs, statusOf)| <= |vs|
  {
    SubsetCardinality(MarkedAmong(vs, statusOf), vs);
  }

  lemma {:induction false} SubsetCardinality<T>(a: set<T>, b: set<T>)
    requires a <= b
    ensures |a| <= |b|
    decreases |b|
  {
    if a != {} {
      var x :| x in a;
      SubsetCardinality(a - {x}, b - {x});
    }
  }

}
