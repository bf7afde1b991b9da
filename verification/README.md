# Parish volunteer management: authorization model

This project models, in Dafny, the authorization layer of a parish volunteer-management web
application (Django): which signed-in user may use which view, and which records each view shows
or changes. It also models the lifecycle transitions those views guard:

- volunteer sign-up and approval or rejection;
- suspension;
- role and ministry assignment;
- event creation and the volunteers on an event;
- tasks;
- event reports and their submission stamp;
- attendance marking, single and bulk;
- evaluations and event feedback;
- ministries and announcements.

## Roles, capabilities and scope

A user has one of four roles: administrator, priest, coordinator or volunteer. A priest or
coordinator may carry one assigned ministry. The `can_*` methods of the user record are each a
fixed list of roles (`Accounts.Holders`). The model proves that these lists form a hierarchy: a role
holds a capability exactly when it ranks at least as high as the capability's lowest holder.

Visibility is given by one reference rule, `Scope.ResolveScope` together with `Scope.Admits`:

| user | sees |
|---|---|
| administrator | everything |
| priest or coordinator with a ministry | that ministry |
| priest or coordinator without a ministry | nothing |
| volunteer | their own records |

Each view is written as the source writes it. Its contract is stated against the scope rule
wherever the code agrees with it. Where the code departs from the rule, a lemma exhibits the
departure on a concrete input:

- `Attendance.AttendanceListNotFailClosed` and `Feedback.EvaluationListNotFailClosed`: the
  attendance and evaluation lists skip their ministry filter for a priest or coordinator without
  a ministry, so those users see everything.
- `Events.ReportDetailNotFailClosed`: the report detail view compares two nullable ministries, so
  a priest without a ministry can see the reports of events without one.
- `Volunteers.StaffEditDropsOtherMinistries`: when a priest or coordinator edits a volunteer, the
  form can only keep their own ministry, so the volunteer's other memberships are dropped.

## Modules

| module | covers |
|---|---|
| `Wrappers` | `Option` |
| `Accounts` | the user record, roles, capabilities, managed ministry, `can_login` (accounts/models.py) |
| `Scope` | the reference scope rule |
| `Volunteers` | volunteer profiles, list, detail, create, update, delete, approve and reject (volunteers/views.py) |
| `UserAdmin` | sign-up and the user administration views (accounts/views.py) |
| `Events` | events, tasks and reports, and the event views' tests (events/views.py) |
| `EventForms` | the choice sets of events/forms.py, and event and task creation validated against them |
| `Attendance` | attendance/views.py, including the bulk-marking loop as a method |
| `Feedback` | feedback/views.py |
| `Ministries` | ministries/views.py |
| `Communications` | communications/views.py |
| `Policy` | one `Decide(user, action)` over every gated view, and the properties that hold across views |

## Modelling conventions

- A refused request is modelled by returning the record unchanged, or `None`. The code has no
  typed refusal reasons, so the model has none either.
- Records the code fetches from the database are passed in as parameters, with a `requires` that
  ties them together. For example, `owner.id == p.user` in `Volunteers.Approve` says that `owner`
  is the profile's own user, `key.0 == e.id` in `Attendance.UpdateAttendance` says that `e` is
  the record's own event, and `rep.event == e.id` in `Events.CanViewReport` says the same of a
  report.
- Tables the forms draw their choices from are passed in as sets of records. Where a property
  needs the table's primary key, `Accounts.UniqueUserIds` or `Volunteers.UniqueProfileIds` says
  that no two records share one.
- The clock is a `Stamp` parameter.

## Behaviour worth knowing

- Approving or rejecting a volunteer overwrites whatever status the user had: the views do not
  look at the current status, so a second decision simply replaces the first
  (`Volunteers.DecisionIgnoresPriorStatus`, `Volunteers.LaterDecisionWins`).
- Attendance update and delete do not check that the volunteer is still on the event
  (`Attendance.UpdateIgnoresEnrollment`). The update form offers every event and volunteer, so a
  record can be moved onto an event of another ministry (`Attendance.UpdateMovesAcrossMinistries`).
- Ministry create and update are gated by `can_manage_volunteers`, so priests and coordinators pass
  them; only delete needs `can_manage_ministries` (`Ministries.EditGateWiderThanManageMinistries`).
- Only a priest with a ministry may create, edit or delete events; an administrator may not
  (`Policy.AdministratorReach`).
- Any non-volunteer may update or delete any announcement, whoever wrote it
  (`Communications.NoAuthorshipCheck`).
- `can_login` is defined but never called; sign-in uses the framework's stock login view (see
  Findings).

## Model

| member | source | states |
|---|---|---|
| Accounts.ParseRole | accounts/models.py:5-10 | a role string is accepted exactly when it is the stored name of some role, and it then names that role |
| Accounts.ParseRoleName | accounts/models.py:5-10 | every role's stored name parses back to that role |
| Accounts.ExactlyOneRole | accounts/models.py:30-40 | every user satisfies exactly one of the four role predicates |
| Accounts.CanIsSourceList | accounts/models.py:42-85 | each capability list is upward closed in the hierarchy: a role is on it exactly when it ranks at least as high as the capability's lowest holder |
| Accounts.CapabilityIsRoleOnly | accounts/models.py:42-85 | capabilities depend on the role alone |
| Accounts.Holders | accounts/models.py:42-85 | every capability's role list names the administrator and never the volunteer |
| Accounts.Can | accounts/models.py:42-85 | an administrator holds every capability and a volunteer none; `Accounts.CanIsSourceList` shows the rank test equals the role lists |
| Accounts.AdministratorOnlyCapabilities | accounts/models.py:45-79 | managing all users, viewing audit logs and managing ministries are administrator-only |
| Accounts.PriestTierCapabilities | accounts/models.py:48-82 | assigning roles, approving volunteers, exporting reports and making coordinators belong to exactly administrators and priests |
| Accounts.CoordinatorTierCapabilities | accounts/models.py:42-85 | the remaining capabilities belong to exactly the non-volunteer roles |
| Accounts.ManagedMinistry | accounts/models.py:87-90 | a managed ministry exists exactly for a priest or coordinator with an assigned ministry, and it is that ministry |
| Accounts.CanLogin | accounts/models.py:104-105 | whoever passes `can_login` also passes the sign-in the login URL applies; what it means for the lifecycle is stated by `UserAdmin.SuspendedCannotLogin`, `Volunteers.DecisionAndLogin` and `Accounts.WiredSignInGap` |
| Accounts.WiredSignInGap | accounts/urls.py:8 | the sign-in the login URL applies admits everyone `can_login` admits, plus exactly the active users who are suspended or unapproved |
| Accounts.SuspendedUserSignsIn | accounts/models.py:25 | an active, approved, suspended user passes the wired sign-in although `can_login` refuses them |
| Scope.ResolveScope | volunteers/views.py:46-61 | the scope is everything for an administrator, own records for a volunteer, the ministry for a priest or coordinator with one, and nothing for one without |
| Volunteers.CanListVolunteers | volunteers/views.py:17-18 | the volunteer list is open to exactly the non-volunteer roles |
| Volunteers.ListVolunteers | volunteers/views.py:20-29 | the list is refused to volunteers and otherwise holds exactly the profiles the scope rule admits |
| Volunteers.CanViewVolunteer | volunteers/views.py:46-61 | the detail view admits exactly what the scope rule admits, including a volunteer's own profile |
| Volunteers.CanModifyVolunteer | volunteers/views.py:110-122 | update and delete admit what the scope rule admits, minus volunteers |
| Volunteers.MinistryChoices | volunteers/views.py:72-85 | a priest or coordinator is offered only their managed ministry; others are offered the active ministries |
| Volunteers.SelectionInScope | volunteers/views.py:87-100 | the view's ministry check passes for a priest or coordinator exactly when they have a ministry and select nothing else |
| Volunteers.FormValidationImpliesSelectionInScope | volunteers/views.py:139-154 | a form that passes validation always passes the view's own ministry check |
| Volunteers.CanCreateVolunteer | volunteers/views.py:69-102 | a created volunteer has at least one ministry; a priest or coordinator can create one only in exactly their own ministry |
| Volunteers.CanUpdateVolunteer | volunteers/views.py:110-154 | an accepted update comes from a non-volunteer whom the scope rule admits to the profile; a priest or coordinator can only leave the volunteer in exactly their own ministry; an administrator selects a non-empty set of active ministries |
| Volunteers.UpdateProfile | volunteers/forms.py:18-61 | a successful edit replaces the profile's ministries with the selection and its active flag with the submitted one; a refused one changes nothing; no other field changes |
| Volunteers.UpdateProfileTwice | volunteers/forms.py:18-61 | submitting the same edit twice leaves the profile as the first submission did |
| Volunteers.StaffEditDropsOtherMinistries | volunteers/forms.py:59-61 | a priest of ministry 1 editing a volunteer in ministries {1, 2} leaves the volunteer in {1} only |
| Volunteers.MayDecideApproval | volunteers/views.py:176-187 | approve and reject are allowed exactly to holders of the approval capability whom the scope rule admits to the profile |
| Volunteers.Approve | volunteers/views.py:179-193 | an allowed approval makes the owner approved and active; otherwise nothing changes; no other field changes |
| Volunteers.Reject | volunteers/views.py:199-213 | an allowed rejection makes the owner rejected and inactive; otherwise nothing changes; no other field changes |
| Volunteers.DecisionIgnoresPriorStatus | volunteers/views.py:189-191 | the outcome of a decision does not depend on the current approval state |
| Volunteers.DecisionIdempotent | volunteers/views.py:189-191 | approving twice is approving once |
| Volunteers.LaterDecisionWins | volunteers/views.py:209-211 | a rejection after an approval leaves the user rejected |
| Volunteers.DecisionAndLogin | accounts/models.py:104-105 | after approval, `can_login` holds exactly when the user is not suspended; after rejection it never holds |
| UserAdmin.Signup | accounts/views.py:20-35 | sign-up creates a pending, inactive volunteer with no ministry, who fails `can_login`, and an active profile in no ministry |
| UserAdmin.SignupThenApprove | volunteers/views.py:189-192 | an administrator's approval of a fresh sign-up makes `can_login` hold |
| UserAdmin.CanManageUsers | accounts/views.py:57-58 | the user list, create and update views are administrator-only |
| UserAdmin.CanDeleteUser | accounts/views.py:118-120 | delete is allowed exactly to an administrator deleting someone else |
| UserAdmin.SuspendChanges | accounts/views.py:127-138 | a suspend request takes effect exactly when it changes the target's record |
| UserAdmin.Suspend | accounts/views.py:127-138 | an allowed suspend flips the suspension flag; anything else changes nothing |
| UserAdmin.SuspendTwice | accounts/views.py:137-138 | suspending twice restores the record |
| UserAdmin.SuspendedCannotLogin | accounts/views.py:137-138 | suspending a user makes `can_login` fail |
| UserAdmin.AssignRole | accounts/views.py:149-192 | only the role and ministry change; an invalid role changes nothing; an administrator sets any role; a priest's only change is a volunteer of their ministry to coordinator of it; others change nothing |
| UserAdmin.RoleChangeAccepted | accounts/views.py:154-188 | an accepted request has a valid role and comes from an administrator or a priest asking for coordinator; for an administrator, acceptance is exactly a valid role |
| UserAdmin.RefusedRoleChangeIsNoOp | accounts/views.py:154-190 | a refused role request leaves the target unchanged |
| UserAdmin.PriestCannotEscalate | accounts/views.py:163-188 | a priest never changes a non-volunteer, and anyone they change ends below the priest's rank |
| UserAdmin.PromotionSharesScope | accounts/views.py:185-187 | a coordinator a priest promotes gets the priest's scope |
| UserAdmin.AssignMinistry | accounts/views.py:195-214 | only the ministry field changes; only an administrator changes it; no value clears it; a missing ministry changes nothing |
| UserAdmin.AssignMinistryMovesScope | accounts/views.py:203-212 | assigning a ministry to a priest or coordinator moves their scope to it, and clearing it empties their scope |
| Events.CanCreateEvent | events/views.py:28-34 | event creation is allowed exactly to a priest with a ministry |
| Events.CanEditEvent | events/views.py:57-67 | update and delete are allowed exactly to a priest whose ministry is the event's; an event with no ministry is editable by nobody |
| Events.OwnsEvent | events/views.py:101-104 | the event's own coordinator, who passes the coordinator views, can never create, update or delete events |
| Events.AddVolunteers | events/views.py:121-133 | the assigned set only grows, by at most the selection; the event's coordinator with a valid selection adds exactly it; no other field changes |
| Events.RemoveVolunteer | events/views.py:142-147 | only the named volunteer leaves, only by the event's coordinator, and no other field changes |
| Events.AddThenRemove | events/views.py:121-147 | adding an unassigned volunteer and removing them again restores the event |
| Events.CoerceStatus | events/views.py:231-232 | a save never stores "reviewed", and stores submitted exactly for the string "submitted" |
| Events.CoerceStatusName | events/views.py:255-256 | coercion reads back every status a save can store |
| Events.StampOnSave | events/views.py:234-235 | the submission stamp is set from the clock on the first save into submitted and is never overwritten or cleared |
| Events.CreateReport | events/views.py:221-238 | only the event's coordinator creates a report; it is not reviewed, and it is stamped exactly when submitted |
| Events.CanUpdateReport | events/views.py:249-252 | a report can be updated exactly by the coordinator who wrote it while its status is one a save can store |
| Events.UpdateReport | events/views.py:249-262 | only the author updates a report that is not reviewed; the update stays updatable; an existing stamp is kept; a submission is stamped |
| Events.StampIsPermanent | events/views.py:258-259 | once stamped, a report keeps its stamp through any run of updates |
| Events.StampIsFirstSubmission | events/views.py:254-259 | after any run of author updates, an unstamped report carries the time of the first request into submitted |
| Events.UpdaterCanView | events/views.py:249-278 | the coordinator who may update a report may also view it |
| Events.CanViewReport | events/views.py:273-278 | report detail, on a report of its own event: administrators yes, volunteers no, the authoring coordinator yes, a priest with a ministry exactly by the scope rule, a priest without one exactly for events without one |
| Events.ReportDetailNotFailClosed | events/views.py:276-278 | a priest with no ministry sees the report of an event with no ministry |
| EventForms.EventFormFor | events/forms.py:21-39 | for a priest with a ministry, the ministry is fixed to it, the coordinators offered share the priest's scope, and the volunteers offered are the priest's volunteer list |
| EventForms.CreateEvent | events/views.py:41-49 | a created event comes from a priest with a ministry, names a coordinator, belongs to the priest's ministry whatever was submitted, and is otherwise the submission |
| EventForms.CreateEventChoices | events/forms.py:21-39 | an event is created exactly when the requester may create events, names a coordinator sharing the priest's scope, and assigns only volunteers the priest's scope admits |
| EventForms.CreatorCanEdit | events/views.py:46-67 | the priest who creates an event may edit it |
| EventForms.CreatedEventCoordinatorShares | events/forms.py:32-35 | the coordinator who owns a created event shares the creating priest's scope |
| EventForms.CreatedEventVolunteersInMinistry | events/forms.py:37-39 | every volunteer on a created event belongs to the priest's ministry |
| EventForms.ForeignCoordinatorRefused | events/forms.py:32-39 | a priest of ministry 1 cannot create an event naming a coordinator of ministry 2 or a volunteer only in ministry 2 |
| EventForms.TaskAssignees | events/forms.py:51-64 | assignees are the coordinator's scope, else the event's ministry, else everyone |
| EventForms.CreateTask | events/views.py:155-172 | a task is created only by the event's coordinator, for an existing volunteer, bound to the event and stamped with its creator |
| EventForms.OfferedAssigneeAccepted | events/forms.py:51-64 | the event's coordinator may assign a task to any offered choice |
| EventForms.CreatedTaskAssigneeInMinistry | events/forms.py:56-64 | a created task goes to a volunteer of the coordinator's ministry, or of the event's ministry for a coordinator without one |
| EventForms.CoercionRespectsChoices | events/forms.py:79-84 | the report views' coercion fixes every offered status choice and always stores an offered choice |
| EventForms.AddVolunteerCandidates | events/forms.py:95-104 | the candidates are exactly the requester's ministry's volunteers not yet on the event, or none without a ministry |
| EventForms.AddedVolunteersInOwnMinistry | events/forms.py:100-104 | every volunteer an add request puts on an event belongs to the coordinator's ministry |
| EventForms.AddVolunteersTwice | events/forms.py:100-104 | submitting the same add selection again changes nothing |
| Attendance.ListAttendance | attendance/views.py:19-42 | refused to volunteers; for a scope other than empty, exactly the records of events the scope rule admits; for an empty scope, every record |
| Attendance.AttendanceListNotFailClosed | attendance/views.py:33-40 | a coordinator with no ministry sees another ministry's record |
| Attendance.OfferedOnCreate | attendance/views.py:54-67 | a priest or coordinator is offered only active events and volunteers within their scope; anyone else is offered everything |
| Attendance.DeactivatedNotOffered | attendance/views.py:58-62 | once a volunteer's profile is saved with the active box cleared, no priest or coordinator is offered that volunteer |
| Attendance.CreateChecks | attendance/views.py:69-86 | passing the create checks means the volunteer is on the event and, for a priest or coordinator, event and volunteer are in their ministry |
| Attendance.OfferedImpliesMinistryChecks | attendance/views.py:54-86 | offered choices for an enrolled volunteer always pass the create checks |
| Attendance.CreateAttendance | attendance/views.py:51-90 | a create adds only a new, valid record for an enrolled volunteer, marked by the requester, within the staff member's ministry |
| Attendance.CanAccessEvent | attendance/views.py:150-160 | event access for update, delete and bulk marking is exactly the scope rule |
| Attendance.CanChangeRecord | attendance/views.py:99-114 | update and delete are allowed exactly to a non-volunteer whom the scope rule admits to the record's event |
| Attendance.UpdateAttendance | attendance/views.py:99-118 | only an allowed requester with a valid status changes the record; an allowed request for the same or a free pair puts the submitted values and the original marker there and removes the old pair; a taken pair is refused; all other records are kept |
| Attendance.UpdateMovesRecord | attendance/forms.py:4-7 | an allowed update naming a free pair moves the record there, with the submitted values and the original marker |
| Attendance.UpdateMovesAcrossMinistries | attendance/views.py:99-114 | a coordinator can move a record of their own event onto another event, whatever its ministry |
| Attendance.UpdateIgnoresEnrollment | attendance/views.py:99-114 | a record of a volunteer no longer on the event can still be updated |
| Attendance.DeleteAttendance | attendance/views.py:126-141 | delete removes exactly the named record, only for an allowed requester |
| Attendance.AllowedEvents | attendance/views.py:185-196 | the bulk page offers exactly the active events the requester may access |
| Attendance.Upserted | attendance/views.py:211-220 | a bulk upsert touches exactly the marked volunteers' pairs, each holding the submitted status, notes and marker |
| Attendance.UpsertIdempotent | attendance/views.py:211-220 | the same bulk submission twice is the same as once |
| Attendance.LaterMarkWins | attendance/views.py:211-220 | a later bulk submission's values replace an earlier one's for every volunteer it marks |
| Attendance.BulkMark | attendance/views.py:198-224 | a refused request changes nothing; an allowed one upserts every marked volunteer of the event and counts them; the count never exceeds the event's volunteers |
| Feedback.ListEvaluations | feedback/views.py:16-31 | for a scope other than empty, exactly the evaluations the scope rule admits; for an empty scope, every evaluation |
| Feedback.EvaluationListNotFailClosed | feedback/views.py:26-29 | a priest with no ministry sees an evaluation of another ministry's volunteer |
| Feedback.CreateEvaluation | feedback/views.py:40-45 | only non-volunteers create evaluations, stamped with the author and otherwise as submitted |
| Feedback.CanChangeEvaluation | feedback/views.py:55-57 | update and delete are allowed exactly to the non-volunteer author |
| Feedback.OnlyAuthorChangesEvaluation | feedback/views.py:55-71 | a created evaluation can be changed by its author and by nobody else |
| Feedback.ListEventFeedback | feedback/views.py:80-87 | a volunteer sees exactly their own profile's feedback; other roles see all of it |
| Feedback.SubmitEventFeedback | feedback/models.py:34-35 | a submission stores feedback for a new pair and refuses a taken pair; existing entries are kept |
| Feedback.FirstFeedbackStays | feedback/models.py:34-35 | a second submission for a pair leaves the first in place |
| Ministries.CanEditMinistries | ministries/views.py:24-34 | ministry create and update are open to exactly the non-volunteer roles |
| Ministries.CanDeleteMinistry | ministries/views.py:41-42 | ministry delete is allowed exactly to holders of the manage-ministries capability |
| Ministries.EditGateWiderThanManageMinistries | ministries/views.py:24-25 | a priest may create ministries without holding the manage-ministries capability |
| Communications.CreateAnnouncement | communications/views.py:24-29 | only non-volunteers create announcements, stamped with the author |
| Communications.CanEditAnnouncement | communications/views.py:37-46 | update and delete are open to exactly the non-volunteer roles |
| Communications.NoAuthorshipCheck | communications/views.py:37-38 | any non-volunteer may edit an announcement someone else wrote |
| Communications.GateMatchesSendCommunications | accounts/models.py:42-64 | the gate the announcement views use holds for exactly the roles that may send communications |
| Policy.Decide | events/views.py:11-20 | every view with no role test, such as the event list and detail, lets every signed-in user through |
| Policy.DecisionRespectsCapabilities | accounts/models.py:42-85 | no view lets a user through without the capability its test implies |
| Policy.VolunteerReach | volunteers/views.py:53-54 | a volunteer passes exactly the ungated views and the detail view of their own profile |
| Policy.MinistrylessStaffDenied | attendance/views.py:150-160 | a priest or coordinator without a ministry is refused every ministry-scoped view |
| Policy.OnlyEventCoordinator | events/views.py:101-104 | only the coordinator named on an event passes its coordinator, volunteer, task and report-creation views |
| Policy.NoSelfAction | accounts/views.py:118-135 | nobody may delete or suspend themselves |
| Policy.AdministratorReach | events/views.py:57-67 | an administrator passes every view except self-actions, an invalid role, an invalid ministry form, the priest-only and coordinator-only views, unenrolled attendance and others' evaluations |
| Policy.DecisionIgnoresAccountState | accounts/views.py:127-138 | decisions do not depend on approval, activity or suspension |

## Left out

- `get_ministry_volunteers` (accounts/models.py:92-96): no view calls it.
- Search, the event and status query filters, ordering and pagination of the list views are not
  modelled. They narrow a page further but never widen it. The same goes for the twenty-event
  display limit of the bulk-marking page.
- Object lookups that fail (`get_object_or_404`) are not modelled: every record is passed in
  existing.
- Flash messages, redirects and templates are not modelled.
- The user create and edit forms (accounts/forms.py) are modelled only through their gate.
- Form fields that no authorization test reads are not modelled: titles, descriptions, dates,
  locations, ratings, profile details, task status and due dates.
- Event update and task update requests are modelled only through their views' tests, not as
  transitions. They validate against the same choice sets as the create requests, which are
  modelled in `EventForms`.
- Timestamps other than a report's submission stamp are not modelled: creation and update times,
  marking time and review time. The clock is an opaque natural number.
- Dashboards and report aggregates (ccvms/views.py, reports/views.py) are not modelled. Neither
  are announcement targeting, the e-mail log, the audit log, the framework's admin site and
  ministry programs. None of them is an authorization decision of the core.
- Database transactions and concurrent requests are not modelled: each request is one atomic
  step.
- `Events.CoerceStatus`: it models the views' coercion of any value other than "draft" or
  "submitted" to draft. The report form's choice list already refuses such values before the view
  sees them, and that form-level refusal is not modelled.
- `Attendance.UpdateAttendance`: the submitted pair `newKey` is taken as given. The update form's
  event and volunteer fields refuse ids of records that do not exist, and that refusal is not
  modelled, so the model also lets a record move to a pair naming a missing event or volunteer.
- Evaluation create: the evaluated volunteer is not restricted to the author's ministry, because
  the form offers every volunteer. The model states no restriction.

## Findings

| source | as written | input that shows it | evidently intended | confidence | as-written member | corrected member |
|---|---|---|---|---|---|---|
| accounts/urls.py:8 | the login URL uses the stock login view, whose default backend refuses only inactive accounts; `can_login` (accounts/models.py:104-105) is never called | an active, approved user with `is_suspended` set, which is the state the suspend view (accounts/views.py:137) produces | suspended and unapproved users cannot sign in, as the suspension flag's help text says (accounts/models.py:25) | medium, not executed; the project settings, which could name another authentication backend, are not part of this model | Accounts.SuspendedUserSignsIn | UserAdmin.SuspendedCannotLogin |

The rest of the model uses `can_login` (`Accounts.CanLogin`) as the sign-in rule, under which a
suspension locks the user out (`UserAdmin.SuspendedCannotLogin`). `Accounts.WiredSignInGap` states
exactly which users the wired test admits beyond it.
