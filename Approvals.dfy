/** The HR approval queue (src/pages/hr/Approvals.tsx): an HR member sees
    the organization's expenses awaiting review, newest first, and approves
    or rejects them one at a time. */
module ApprovalsScreen {
  import opened Common
  import opened Store

  /** The role the queue admits, compared exactly (`(role ?? "unassigned") !== "hr"`). */
  function GuardRole(m: Membership): string {
    m.role.GetOr("unassigned")
  }

  /** The queue's select: the organization's expenses with a review status,
      ordered by `created_at` descending. */
  function PendingListing(es: seq<Expense>, org: Id): seq<Expense> {
    SortBy(Filter(es, InReviewQueue(org)), NewestFirst)
  }

  /** The queue lists exactly the organization's expenses with a review
      status, each as often as it is stored, newest first. */
  lemma PendingListingContents(es: seq<Expense>, org: Id)
    ensures forall e :: e in PendingListing(es, org) <==> e in es && e.orgId == org && e.status in ReviewStatuses
    ensures multiset(PendingListing(es, org)) == multiset(Filter(es, InReviewQueue(org)))
    ensures forall i, j :: 0 <= i < j < |PendingListing(es, org)| ==>
      PendingListing(es, org)[i].createdAt >= PendingListing(es, org)[j].createdAt
  {
    var f := Filter(es, InReviewQueue(org));
    var l := PendingListing(es, org);
    FilterMembers(es, InReviewQueue(org));
    forall e ensures e in l <==> e in es && e.orgId == org && e.status in ReviewStatuses {
      assert e in l <==> e in multiset(l);
      assert e in f <==> e in multiset(f);
      if e in es && InReviewQueue(org)(e) {
        var i :| 0 <= i < |es| && es[i] == e;
        assert es[i] in f;
      }
      if e in f {
        var i :| 0 <= i < |f| && f[i] == e;
        assert f[i] in es && InReviewQueue(org)(f[i]);
      }
    }
    forall i, j | 0 <= i < j < |l| ensures l[i].createdAt >= l[j].createdAt {
      assert NewestFirst(l[i]) <= NewestFirst(l[j]);
    }
  }

  /** Some row of `rows` has the id. */
  predicate Lists(rows: seq<Expense>, id: Id) {
    exists k :: 0 <= k < |rows| && rows[k].id == id
  }

  /** `after` is `before` with its row of the id cut out, wherever that row is. */
  ghost predicate CutOut(after: seq<Expense>, before: seq<Expense>, id: Id) {
    forall k :: 0 <= k < |before| && before[k].id == id ==> after == before[..k] + before[k + 1..]
  }

  /** Keep every row except those with this id. */
  function NotId(id: Id): Expense -> bool {
    (e: Expense) => e.id != id
  }

  /** `prev.filter((x) => x.id !== expenseId)`: the local removal after a decision. */
  function RemoveId(pending: seq<Expense>, id: Id): seq<Expense> {
    Filter(pending, NotId(id))
  }

  /** The removal drops the decided row and keeps the others in order. */
  lemma RemoveIdEffect(pending: seq<Expense>, id: Id)
    ensures forall e :: e in RemoveId(pending, id) <==> e in pending && e.id != id
    ensures |RemoveId(pending, id)| <= |pending|
  {
    FilterMembers(pending, NotId(id));
    forall e | e in pending && e.id != id ensures e in RemoveId(pending, id) {
      var i :| 0 <= i < |pending| && pending[i] == e;
    }
    forall e | e in RemoveId(pending, id) ensures e in pending && e.id != id {
      var i :| 0 <= i < |RemoveId(pending, id)| && RemoveId(pending, id)[i] == e;
    }
  }

  /** When exactly one row of the queue has the id, the removal drops that
      row and keeps every other one, in order. */
  lemma RemoveIdDropsOne(pending: seq<Expense>, id: Id, k: int)
    ensures 0 <= k < |pending| && pending[k].id == id
         && (forall i :: 0 <= i < |pending| && i != k ==> pending[i].id != id)
         ==> RemoveId(pending, id) == pending[..k] + pending[k + 1..]
  {
    if 0 <= k < |pending| && pending[k].id == id
       && (forall i :: 0 <= i < |pending| && i != k ==> pending[i].id != id) {
      FilterDropsOne(pending, NotId(id), k);
    }
  }

  /** A removal after which the queue is unchanged found no row with the id:
      so when a listed row has it, the shown queue differs from the old one. */
  lemma RemoveIdDropsListedRow(pending: seq<Expense>, id: Id, k: int)
    ensures 0 <= k < |pending| && pending[k].id == id ==> RemoveId(pending, id) != pending
  {
    if 0 <= k < |pending| && pending[k].id == id {
      RemoveIdEffect(pending, id);
      assert pending[k] !in RemoveId(pending, id);
    }
  }

  /** Expense ids are unique in the table, so they are unique in the queue. */
  lemma PendingListingDistinct(es: seq<Expense>, org: Id)
    requires DistinctExpenseIds(es)
    ensures DistinctExpenseIds(PendingListing(es, org))
  {
    DistinctExpenseIdsBy(es);
    FilterDistinct(es, InReviewQueue(org), ExpenseId);
    SortDistinct(Filter(es, InReviewQueue(org)), NewestFirst, ExpenseId);
    var l := PendingListing(es, org);
    forall i, j | 0 <= i < j < |l| ensures l[i].id != l[j].id {
      assert ExpenseId(l[i]) != ExpenseId(l[j]);
    }
  }

  /** The statuses a decision writes; neither is a review status. */
  predicate IsDecision(status: string) {
    status == "approved" || status == "rejected"
  }

  /** No drift: after a decision on a listed queue, the queue shown (the old
      listing minus the decided row) is exactly what a fresh load of the
      queue would list from the updated table. */
  lemma DecisionMatchesReload(es: seq<Expense>, org: Id, id: Id, status: string)
    requires IsDecision(status)
    ensures PendingListing(WithStatus(es, id, status), org) == RemoveId(PendingListing(es, org), id)
  {
    var p, q, f := InReviewQueue(org), NotId(id), SetStatus(id, status);
    assert forall x :: p(f(x)) == (p(x) && q(x));
    assert forall x :: p(x) && q(x) ==> f(x) == x;
    FilterMapAsFilter(es, f, p, q);
    SortFilterCommute(Filter(es, p), NewestFirst, q);
  }

  /** A decision on a queue loaded from `es`: exactly the decided row is cut
      out; the result is the reloaded queue when the update reached the row,
      and differs from it when a filtered update left a listed row. */
  lemma DecisionOnListing(es: seq<Expense>, org: Id, id: Id, status: string)
    requires DistinctExpenseIds(es) && IsDecision(status)
    ensures CutOut(RemoveId(PendingListing(es, org), id), PendingListing(es, org), id)
    ensures PendingListing(WithStatus(es, id, status), org) == RemoveId(PendingListing(es, org), id)
    ensures Lists(PendingListing(es, org), id) ==> PendingListing(es, org) != RemoveId(PendingListing(es, org), id)
  {
    var l := PendingListing(es, org);
    PendingListingDistinct(es, org);
    DecisionMatchesReload(es, org, id, status);
    forall k | 0 <= k < |l| && l[k].id == id ensures RemoveId(l, id) == l[..k] + l[k + 1..] {
      RemoveIdDropsOne(l, id, k);
    }
    if Lists(l, id) {
      var k :| 0 <= k < |l| && l[k].id == id;
      RemoveIdDropsListedRow(l, id, k);
    }
  }

  /** What `bootstrap` ends in. */
  datatype Boot =
    | LoadFailed      // the membership select failed: "Failed to load approvals", to /dashboard
    | NotAuthorized   // the role is not exactly `hr`: "Not authorized", to /dashboard
    | ListFailed      // the queue select failed: "Failed to load approvals", to /dashboard
    | Listed          // the queue is shown

  /** `bootstrap`'s decision from the membership answer and whether the queue
      select succeeds. */
  function BootDecision(answer: Fetch<Membership>, listReachable: bool): (b: Boot)
    ensures b == LoadFailed <==> answer.Failed? || answer.data.None?
    ensures b == Listed <==>
      answer.Fetched? && answer.data.Some? && GuardRole(answer.data.value) == "hr" && listReachable
  {
    match answer
    case Failed => LoadFailed
    case Fetched(None) => LoadFailed  // reading `mem.role` of null throws
    case Fetched(Some(m)) =>
      if GuardRole(m) != "hr" then NotAuthorized
      else if !listReachable then ListFailed
      else Listed
  }

  /** The membership select: the user's rows, exactly one expected. */
  function QueueAnswer(ms: seq<Membership>, user: Id, reachable: bool): Fetch<Membership> {
    Single(Filter(ms, IsOfUser(user)), reachable)
  }

  /** The approval queue's state. */
  class ApprovalsPage {
    var loading: bool
    var orgId: Option<Id>
    var myRole: string
    var pending: seq<Expense>
    var updatingId: Option<Id>
    var navigations: seq<Route>

    constructor ()
      ensures loading && orgId.None? && myRole == "unassigned"
      ensures pending == [] && updatingId.None? && navigations == []
    {
      loading, orgId, myRole := true, None, "unassigned";
      pending, updatingId, navigations := [], None, [];
    }

    /** The shown queue is what a load of the queue would list now. */
    ghost predicate Mirrors(store: Backend)
      reads this, store
    {
      orgId.Some? && pending == PendingListing(store.expenses, orgId.value)
    }

    /** The first effect: with the session known and no user, go to /auth. */
    method OnSessionChange(authLoading: bool, user: Option<Id>)
      modifies this
      ensures navigations == old(navigations) + if SessionRedirect(authLoading, user.Some?).Some? then [Auth] else []
      ensures loading == old(loading) && orgId == old(orgId) && myRole == old(myRole)
        && pending == old(pending) && updatingId == old(updatingId)
    {
      var redirect := SessionRedirect(authLoading, user.Some?);
      if redirect.Some? {
        navigations := navigations + [redirect.value];
      }
    }

    /** `bootstrap` (with `loadPending`). */
    method Bootstrap(store: Backend, user: Id, memberReachable: bool, listReachable: bool) returns (b: Boot)
      modifies this
      ensures var answer := QueueAnswer(store.memberships, user, memberReachable);
        && b == BootDecision(answer, listReachable)
        && orgId == (if b == LoadFailed then old(orgId) else Some(answer.data.value.orgId))
        && myRole == (if b == LoadFailed then old(myRole) else GuardRole(answer.data.value))
      ensures pending == if b == Listed then PendingListing(store.expenses, orgId.value) else old(pending)
      ensures b == Listed ==> Mirrors(store)
      ensures navigations == old(navigations) + if b == Listed then [] else [Dashboard]
      ensures !loading && updatingId == old(updatingId)
    {
      loading := true;
      var answer := QueueAnswer(store.memberships, user, memberReachable);
      b := BootDecision(answer, listReachable);
      if b != LoadFailed {
        myRole := GuardRole(answer.data.value);
        orgId := Some(answer.data.value.orgId);
      }
      if b == Listed {
        pending := PendingListing(store.expenses, answer.data.value.orgId);
      } else {
        navigations := navigations + [Dashboard];
      }
      loading := false;
    }

    /** `approve`. */
    method Approve(store: Backend, id: Id, accepted: bool, applied: bool) returns (ok: bool)
      requires store.Valid()
      modifies this, store
      ensures store.Valid()
      ensures Decided(store, id, "approved", accepted, applied, ok)
    {
      ok := Decide(store, id, "approved", accepted, applied);
    }

    /** `reject`. */
    method Reject(store: Backend, id: Id, accepted: bool, applied: bool) returns (ok: bool)
      requires store.Valid()
      modifies this, store
      ensures store.Valid()
      ensures Decided(store, id, "rejected", accepted, applied, ok)
    {
      ok := Decide(store, id, "rejected", accepted, applied);
    }

    /** The state a decision leaves. Without an organization nothing happens.
        Otherwise the update (keyed by the expense id alone) is issued, and
        once it answers without an error the row leaves the local queue,
        whether or not the row policy let the update reach the row. On a
        queue that mirrored the table, exactly the decided row leaves; the
        queue still mirrors the table when the update reached the row, and
        no longer does when a filtered update left a listed row as it was. */
    twostate predicate Decided(store: Backend, id: Id, status: string, accepted: bool, applied: bool, ok: bool)
      reads this, store
    {
      && store.organizations == old(store.organizations) && store.memberships == old(store.memberships)
      && store.profiles == old(store.profiles)
      && orgId == old(orgId) && myRole == old(myRole) && loading == old(loading)
      && navigations == old(navigations)
      && (old(orgId).None? ==>
            !ok && store.expenses == old(store.expenses) && pending == old(pending)
            && updatingId == old(updatingId))
      && (old(orgId).Some? ==>
            && ok == accepted && updatingId.None?
            && store.expenses == (if ok && applied then WithStatus(old(store.expenses), id, status)
                                  else old(store.expenses))
            && pending == (if ok then RemoveId(old(pending), id) else old(pending))
            && (old(Mirrors(store)) && ok ==> CutOut(pending, old(pending), id))
            && (old(Mirrors(store)) && (ok ==> applied) ==> Mirrors(store))
            && (old(Mirrors(store)) && ok && !applied && Lists(old(pending), id) ==> !Mirrors(store)))
    }

    /** The body `approve` and `reject` share. */
    method Decide(store: Backend, id: Id, status: string, accepted: bool, applied: bool) returns (ok: bool)
      requires store.Valid() && IsDecision(status)
      modifies this, store
      ensures store.Valid()
      ensures Decided(store, id, status, accepted, applied, ok)
    {
      ok := false;
      if orgId.None? {
        return;
      }
      DecisionOnListing(store.expenses, orgId.value, id, status);
      updatingId := Some(id);
      ok := store.UpdateExpenseStatus(id, status, accepted, applied);
      pending := if ok then RemoveId(pending, id) else pending;
      updatingId := None;
    }
  }
}
