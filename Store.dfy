/** The hosted data store as the pages see it: tables of organizations,
    memberships, expenses and profiles, the row filters and orderings their
    selects use, and the inserts and single-key updates they issue. Whether a
    request reaches the store and is accepted (network, row-level policies,
    constraints) is decided outside the pages and enters as a parameter. */
module Store {
  import opened Common

  /** Row identifiers (the store's UUIDs; never empty, so always truthy). */
  type Id = nat

  datatype Organization = Organization(id: Id, name: string, slug: string)

  /** A row of `organization_memberships`; `role` is the raw column, which may be null. */
  datatype Membership = Membership(id: Id, orgId: Id, userId: Id, role: Option<string>, createdAt: int)

  /** A row of `expenses`; `amount` is the stored (finite) number. */
  datatype Expense = Expense(
    id: Id, orgId: Id, userId: Id, title: string, amount: real,
    status: string, receiptUrl: Option<string>, createdAt: int)

  datatype Profile = Profile(id: Id, email: string, fullName: Option<string>)

  // ---------------------------------------------------------------------
  // Row filters (the `.eq(...)` and `.in(...)` parts of a select)
  // ---------------------------------------------------------------------

  function HasSlug(slug: string): Organization -> bool {
    (o: Organization) => o.slug == slug
  }

  function IsOfUser(user: Id): Membership -> bool {
    (m: Membership) => m.userId == user
  }

  function IsOfPair(org: Id, user: Id): Membership -> bool {
    (m: Membership) => m.orgId == org && m.userId == user
  }

  function IsOfOrg(org: Id): Membership -> bool {
    (m: Membership) => m.orgId == org
  }

  function IsProfileOf(user: Id): Profile -> bool {
    (p: Profile) => p.id == user
  }

  /** The statuses the approval queue treats as awaiting a decision. */
  const ReviewStatuses: set<string> := {"pending", "pending_manager", "pending_hr", "pending_approval"}

  function InReviewQueue(org: Id): Expense -> bool {
    (e: Expense) => e.orgId == org && e.status in ReviewStatuses
  }

  /** Ordering keys: `created_at` descending and ascending. */
  function NewestFirst(e: Expense): int {
    -e.createdAt
  }

  function OldestFirst(m: Membership): int {
    m.createdAt
  }

  // ---------------------------------------------------------------------
  // Single-column updates keyed by row id (`.update({...}).eq("id", id)`)
  // ---------------------------------------------------------------------

  function SetStatus(id: Id, status: string): Expense -> Expense {
    (e: Expense) => if e.id == id then e.(status := status) else e
  }

  function SetRole(id: Id, role: string): Membership -> Membership {
    (m: Membership) => if m.id == id then m.(role := Some(role)) else m
  }

  /** The expenses after setting the status of the rows with this id. */
  function WithStatus(es: seq<Expense>, id: Id, status: string): seq<Expense> {
    MapSeq(es, SetStatus(id, status))
  }

  /** The memberships after setting the role of the rows with this id
      (also the `members.map(...)` that mirrors the update locally). */
  function WithRole(ms: seq<Membership>, id: Id, role: string): seq<Membership> {
    MapSeq(ms, SetRole(id, role))
  }

  /** The status update touches the rows with that id, whatever organization
      they belong to, and changes nothing but their status. */
  lemma WithStatusEffect(es: seq<Expense>, id: Id, status: string)
    ensures |WithStatus(es, id, status)| == |es|
    ensures forall i :: 0 <= i < |es| && es[i].id == id ==>
      WithStatus(es, id, status)[i] == es[i].(status := status)
    ensures forall i :: 0 <= i < |es| && es[i].id != id ==> WithStatus(es, id, status)[i] == es[i]
  {
  }

  /** The role update keeps the length and the order of the rows, gives the
      rows with that id the new role and leaves every other row as it was. */
  lemma WithRoleEffect(ms: seq<Membership>, id: Id, role: string)
    ensures |WithRole(ms, id, role)| == |ms|
    ensures forall i :: 0 <= i < |ms| && ms[i].id == id ==>
      WithRole(ms, id, role)[i] == ms[i].(role := Some(role))
    ensures forall i :: 0 <= i < |ms| && ms[i].id != id ==> WithRole(ms, id, role)[i] == ms[i]
  {
  }

  /** No two rows share an id. */
  ghost predicate DistinctMembershipIds(ms: seq<Membership>) {
    forall i, j :: 0 <= i < j < |ms| ==> ms[i].id != ms[j].id
  }

  ghost predicate DistinctExpenseIds(es: seq<Expense>) {
    forall i, j :: 0 <= i < j < |es| ==> es[i].id != es[j].id
  }

  /** The id column of `expenses`. */
  function ExpenseId(e: Expense): int {
    e.id
  }

  lemma DistinctExpenseIdsBy(es: seq<Expense>)
    requires DistinctExpenseIds(es)
    ensures DistinctBy(es, ExpenseId)
  {
  }

  /** The tables of the store. Ids are handed out from `nextId`. */
  class Backend {
    var organizations: seq<Organization>
    var memberships: seq<Membership>
    var expenses: seq<Expense>
    var profiles: seq<Profile>
    var nextId: nat

    /** Every id was handed out before, and no two rows of a table share one. */
    ghost predicate Valid()
      reads this
    {
      && (forall i :: 0 <= i < |memberships| ==> memberships[i].id < nextId)
      && (forall i :: 0 <= i < |expenses| ==> expenses[i].id < nextId)
      && DistinctMembershipIds(memberships)
      && DistinctExpenseIds(expenses)
    }

    constructor (organizations: seq<Organization>, profiles: seq<Profile>)
      ensures Valid()
      ensures this.organizations == organizations && this.profiles == profiles
      ensures memberships == [] && expenses == [] && nextId == 0
    {
      this.organizations := organizations;
      this.profiles := profiles;
      memberships := [];
      expenses := [];
      nextId := 0;
    }

    /** `insert` into `organization_memberships`; the new row gets a fresh id. */
    method InsertMembership(orgId: Id, userId: Id, role: string, now: int, accepted: bool)
      returns (ok: bool)
      requires Valid()
      modifies this
      ensures Valid() && nextId >= old(nextId)
      ensures ok == accepted
      ensures memberships == if ok then old(memberships) + [Membership(old(nextId), orgId, userId, Some(role), now)]
                             else old(memberships)
      ensures organizations == old(organizations) && expenses == old(expenses) && profiles == old(profiles)
    {
      ok := accepted;
      if ok {
        memberships := memberships + [Membership(nextId, orgId, userId, Some(role), now)];
        nextId := nextId + 1;
      }
    }

    /** `insert` into `expenses`; the new row gets a fresh id. */
    method InsertExpense(
      orgId: Id, userId: Id, title: string, amount: real, status: string,
      receiptUrl: Option<string>, now: int, accepted: bool)
      returns (ok: bool)
      requires Valid()
      modifies this
      ensures Valid() && nextId >= old(nextId)
      ensures ok == accepted
      ensures expenses == if ok then old(expenses) + [Expense(old(nextId), orgId, userId, title, amount, status, receiptUrl, now)]
                          else old(expenses)
      ensures organizations == old(organizations) && memberships == old(memberships) && profiles == old(profiles)
    {
      ok := accepted;
      if ok {
        expenses := expenses + [Expense(nextId, orgId, userId, title, amount, status, receiptUrl, now)];
        nextId := nextId + 1;
      }
    }

    /** `update({ status }).eq("id", id)` on `expenses`. `accepted` is whether
        the request answers without an error; `applied` is whether the row
        policy lets the update reach the rows. An update the policy filters
        answers without an error and changes no row. */
    method UpdateExpenseStatus(id: Id, status: string, accepted: bool, applied: bool) returns (ok: bool)
      requires Valid()
      modifies this
      ensures Valid() && nextId == old(nextId)
      ensures ok == accepted
      ensures expenses == if ok && applied then WithStatus(old(expenses), id, status) else old(expenses)
      ensures organizations == old(organizations) && memberships == old(memberships) && profiles == old(profiles)
    {
      ok := accepted;
      if ok && applied {
        expenses := WithStatus(expenses, id, status);
      }
    }

    /** `update({ role }).eq("id", id)` on `organization_memberships`, with
        `accepted` and `applied` as for `UpdateExpenseStatus`. */
    method UpdateMembershipRole(id: Id, role: string, accepted: bool, applied: bool) returns (ok: bool)
      requires Valid()
      modifies this
      ensures Valid() && nextId == old(nextId)
      ensures ok == accepted
      ensures memberships == if ok && applied then WithRole(old(memberships), id, role) else old(memberships)
      ensures organizations == old(organizations) && expenses == old(expenses) && profiles == old(profiles)
    {
      ok := accepted;
      if ok && applied {
        memberships := WithRole(memberships, id, role);
      }
    }
  }
}
