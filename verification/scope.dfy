/** The reference scope rule: the visibility boundary a subject's role and
    ministry imply, as one value per subject (administrator: everything;
    priest or coordinator: one ministry, or nothing at all when no ministry
    is assigned; volunteer: their own records). The views in the other
    modules are written as the source writes them, and their contracts are
    stated against this rule wherever the source agrees with it. */
module Scope {
  import opened Wrappers
  import opened Accounts

  datatype Descriptor = All | Ministry(id: MinistryId) | Empty | SelfOnly(user: UserId)

  function ResolveScope(u: User): (s: Descriptor)
    ensures s.All? <==> u.role == Administrator
    ensures s.SelfOnly? <==> u.role == Volunteer
    ensures s.SelfOnly? ==> s.user == u.id
    ensures s.Empty? <==> IsStaff(u) && u.assignedMinistry.None?
    ensures s.Ministry? <==> ManagedMinistry(u).Some?
    ensures s.Ministry? ==> ManagedMinistry(u) == Some(s.id)
  {
    match u.role
    case Administrator => All
    case Volunteer => SelfOnly(u.id)
    case _ => if ManagedMinistry(u).Some? then Ministry(ManagedMinistry(u).value) else Empty
  }

  /** Whether a scope lets its subject see a record owned by `owner` (when
      the record has an owning user) and belonging to `ministries`. */
  predicate Admits(s: Descriptor, owner: Option<UserId>, ministries: set<MinistryId>)
  {
    match s
    case All => true
    case Ministry(m) => m in ministries
    case Empty => false
    case SelfOnly(id) => owner == Some(id)
  }

  /** The ministries of a record with one nullable ministry field. */
  function OptionSet(m: Option<MinistryId>): (r: set<MinistryId>)
    ensures m.None? <==> r == {}
    ensures forall x :: x in r <==> m == Some(x)
  {
    if m.Some? then {m.value} else {}
  }

}
