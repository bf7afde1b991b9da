/** Volunteer evaluations and event feedback, and the views of
    feedback/views.py: the evaluation list filter, evaluation create and
    author-only update/delete, the event-feedback list filter and the
    ungated event-feedback form. */
module Feedback {
  import opened Wrappers
  import opened Accounts
  import opened Scope
  import opened Volunteers
  import opened Events

  type EvaluationId = nat

  /** An evaluation of one volunteer, by the user who wrote it. */
  datatype Evaluation = Evaluation(
    id: EvaluationId,
    volunteer: ProfileId,
    event: Option<EventId>,
    evaluatedBy: UserId,
    rating: int)

  /** Event feedback, unique per (event, volunteer profile) pair. */
  type FeedbackKey = (EventId, ProfileId)

  datatype FeedbackEntry = FeedbackEntry(feedback: string, suggestions: string, wouldParticipateAgain: bool)

  type FeedbackTable = map<FeedbackKey, FeedbackEntry>

  /** The user who owns the profile with the given id, if it is known. */
  function OwnerOf(profiles: map<ProfileId, Profile>, id: ProfileId): Option<UserId>
  {
    if id in profiles then Some(profiles[id].user) else None
  }

  /** The ministries of the profile with the given id, if it is known. */
  function MinistriesOf(profiles: map<ProfileId, Profile>, id: ProfileId): set<MinistryId>
  {
    if id in profiles then profiles[id].ministries else {}
  }

  /** The evaluation list (open to every signed-in user): a volunteer sees
      the evaluations of their own profile and a priest or coordinator with
      a ministry those of its volunteers, as the scope rule says; an
      administrator, and a priest or coordinator WITHOUT a ministry, see
      every evaluation. */
  function ListEvaluations(u: User, evals: set<Evaluation>, profiles: map<ProfileId, Profile>): (r: set<Evaluation>)
    ensures r <= evals
    ensures !ResolveScope(u).Empty? ==> forall ev :: ev in evals ==>
      (ev in r <==> Admits(ResolveScope(u), OwnerOf(profiles, ev.volunteer), MinistriesOf(profiles, ev.volunteer)))
    ensures ResolveScope(u).Empty? ==> r == evals
  {
    if IsVolunteerUser(u) then
      set ev | ev in evals && OwnerOf(profiles, ev.volunteer) == Some(u.id)
    else if IsCoordinator(u) then
      if ManagedMinistry(u).Some?
      then set ev | ev in evals && ManagedMinistry(u).value in MinistriesOf(profiles, ev.volunteer)
      else evals
    else if IsPriest(u) then
      if ManagedMinistry(u).Some?
      then set ev | ev in evals && ManagedMinistry(u).value in MinistriesOf(profiles, ev.volunteer)
      else evals
    else evals
  }

  /** A priest with no ministry sees the evaluations of every ministry. */
  lemma EvaluationListNotFailClosed()
    ensures var priest := User(1, Priest, Approved, true, false, None);
            var profiles := map[4 := Profile(4, 9, {6}, true)];
            var ev := Evaluation(2, 4, None, 3, 5);
            ResolveScope(priest) == Empty && ev in ListEvaluations(priest, {ev}, profiles)
  {
  }

  /** The evaluation a create request stores: stamped with its author. */
  function CreateEvaluation(u: User, ev: Evaluation): (r: Option<Evaluation>)
    ensures r.Some? <==> u.role != Volunteer
    ensures r.Some? ==> r.value.evaluatedBy == u.id && r.value.(evaluatedBy := ev.evaluatedBy) == ev
  {
    if Can(u, ProvideFeedback) then Some(ev.(evaluatedBy := u.id)) else None
  }

  /** The update and delete views' test: only the author, and only while
      their role may give feedback. */
  predicate CanChangeEvaluation(u: User, ev: Evaluation)
    ensures CanChangeEvaluation(u, ev) <==> u.role != Volunteer && ev.evaluatedBy == u.id
  {
    Can(u, ProvideFeedback) && ev.evaluatedBy == u.id
  }

  /** Once created, an evaluation can be changed by its author and by no
      other user. */
  lemma OnlyAuthorChangesEvaluation(author: User, other: User, ev: Evaluation)
    requires CreateEvaluation(author, ev).Some?
    requires other.id != author.id
    ensures CanChangeEvaluation(author, CreateEvaluation(author, ev).value)
    ensures !CanChangeEvaluation(other, CreateEvaluation(author, ev).value)
  {
  }

  /** The event-feedback list: a volunteer sees the feedback of their own
      profile; every other role sees all of it, with no ministry narrowing. */
  function ListEventFeedback(u: User, table: FeedbackTable, profiles: map<ProfileId, Profile>): (r: set<FeedbackKey>)
    ensures r <= table.Keys
    ensures u.role == Volunteer ==> forall k :: k in table ==>
      (k in r <==> Admits(ResolveScope(u), OwnerOf(profiles, k.1), MinistriesOf(profiles, k.1)))
    ensures u.role != Volunteer ==> r == table.Keys
  {
    if IsVolunteerUser(u) then set k | k in table && OwnerOf(profiles, k.1) == Some(u.id)
    else table.Keys
  }

  /** The table after an event-feedback submission. The form has no role or
      ownership test; a pair that already has feedback is refused, so the
      first submission stays. */
  function SubmitEventFeedback(table: FeedbackTable, key: FeedbackKey, entry: FeedbackEntry): (r: FeedbackTable)
    ensures key in r
    ensures key !in table ==> r[key] == entry && r.Keys == table.Keys + {key}
    ensures key in table ==> r == table
    ensures forall k :: k in table ==> k in r && r[k] == table[k]
  {
    if key in table then table else table[key := entry]
  }

  /** A second submission for the same pair leaves the first one in place. */
  lemma FirstFeedbackStays(table: FeedbackTable, key: FeedbackKey, first: FeedbackEntry, second: FeedbackEntry)
    requires key !in table
    ensures SubmitEventFeedback(SubmitEventFeedback(table, key, first), key, second)[key] == first
  {
  }

}
