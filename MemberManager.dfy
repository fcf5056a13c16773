/** The member manager (src/pages/admin/Admin.tsx, whose component is
    `Members`): an admin lists the organization's memberships, oldest first,
    and sets the role of each non-admin member. */
module MemberManagerScreen {
  import opened Common
  import opened Text
  import opened Store

  /** The roles the selector offers. `admin` is not among them. */
  const RoleOptions: seq<string> := ["unassigned", "employee", "hr", "accounts"]

  /** The role this screen works with: null read as `unassigned`, then lower-cased. */
  function ManagerRole(role: Option<string>): string {
    Lower(role.GetOr("unassigned"))
  }

  /** The members select: the organization's memberships by `created_at` ascending. */
  function MemberListing(ms: seq<Membership>, org: Id): seq<Membership> {
    SortBy(Filter(ms, IsOfOrg(org)), OldestFirst)
  }

  /** The listing holds exactly the organization's memberships, oldest first. */
  lemma MemberListingContents(ms: seq<Membership>, org: Id)
    ensures forall m :: m in MemberListing(ms, org) <==> m in ms && m.orgId == org
    ensures multiset(MemberListing(ms, org)) == multiset(Filter(ms, IsOfOrg(org)))
    ensures forall i, j :: 0 <= i < j < |MemberListing(ms, org)| ==>
      MemberListing(ms, org)[i].createdAt <= MemberListing(ms, org)[j].createdAt
  {
    var f := Filter(ms, IsOfOrg(org));
    var l := MemberListing(ms, org);
    FilterMembers(ms, IsOfOrg(org));
    forall m ensures m in l <==> m in ms && m.orgId == org {
      assert m in l <==> m in multiset(l);
      assert m in f <==> m in multiset(f);
      if m in ms && m.orgId == org {
        var i :| 0 <= i < |ms| && ms[i] == m;
        assert IsOfOrg(org)(ms[i]);
      }
      if m in f {
        var i :| 0 <= i < |f| && f[i] == m;
        assert f[i] in ms && IsOfOrg(org)(f[i]);
      }
    }
    forall i, j | 0 <= i < j < |l| ensures l[i].createdAt <= l[j].createdAt {
      assert OldestFirst(l[i]) <= OldestFirst(l[j]);
    }
  }

  /** No drift: setting a role in the shown list (`members.map(...)`) gives
      exactly what a fresh load of the list would show from the updated table. */
  lemma RoleUpdateMatchesReload(ms: seq<Membership>, org: Id, id: Id, role: string)
    ensures MemberListing(WithRole(ms, id, role), org) == WithRole(MemberListing(ms, org), id, role)
  {
    var p, f := IsOfOrg(org), SetRole(id, role);
    assert forall x :: p(f(x)) == p(x);
    assert forall y :: OldestFirst(f(y)) == OldestFirst(y);
    FilterMapCommute(ms, f, p);
    SortMapCommute(Filter(ms, p), OldestFirst, f);
  }

  /** The local update alters the shown list whenever a listed row with the
      id does not hold the new role yet. */
  lemma RoleUpdateChangesRow(members: seq<Membership>, id: Id, role: string, k: int)
    ensures 0 <= k < |members| && members[k].id == id && members[k].role != Some(role) ==>
      WithRole(members, id, role) != members
  {
    if 0 <= k < |members| && members[k].id == id && members[k].role != Some(role) {
      WithRoleEffect(members, id, role);
      assert WithRole(members, id, role)[k] != members[k];
    }
  }

  /** Some row of `rows` has the id and does not hold `role`. */
  predicate HoldsOtherRole(rows: seq<Membership>, id: Id, role: string) {
    exists k :: 0 <= k < |rows| && rows[k].id == id && rows[k].role != Some(role)
  }

  /** What a member's row shows. */
  datatype RowControl =
    | ReadOnlyAdmin                            // the "admin" label, no selector
    | RoleSelect(value: string, disabled: bool)

  /** The row for `m`: admins (in any ASCII capitalisation) are read-only;
      everyone else gets a selector showing the lower-cased role, disabled
      while that row is saving or when the viewer is not an admin. */
  function Control(m: Membership, savingId: Option<Id>, myRole: string): RowControl {
    var role := ManagerRole(m.role);
    if role == "admin" then ReadOnlyAdmin else RoleSelect(role, savingId == Some(m.id) || myRole != "admin")
  }

  /** Only a viewer whose own role is `admin` can use a selector, and only
      on a row that is not saving; rows of admins are read-only whatever the
      capitalisation of their role. */
  lemma ControlRules(m: Membership, savingId: Option<Id>, myRole: string)
    ensures m.role.Some? && Lower(m.role.value) == "admin" ==> Control(m, savingId, myRole) == ReadOnlyAdmin
    ensures myRole != "admin" || savingId == Some(m.id) ==>
      Control(m, savingId, myRole).ReadOnlyAdmin? || Control(m, savingId, myRole).disabled
    ensures Control(m, savingId, myRole) == RoleSelect(ManagerRole(m.role), false) <==>
      ManagerRole(m.role) != "admin" && myRole == "admin" && savingId != Some(m.id)
  {
  }

  /** The selector cannot make anyone an admin, and no admin row can be
      changed through it: every role it can write is one of the options, none
      of which lowers to `admin`. */
  lemma SelectorNeverGrantsAdmin(m: Membership, savingId: Option<Id>, myRole: string, choice: string)
    requires Control(m, savingId, myRole).RoleSelect? && choice in RoleOptions
    ensures ManagerRole(Some(choice)) != "admin"
    ensures ManagerRole(m.role) != "admin"
  {
    LowerFixesRoleName(choice);
  }

  /** What `bootstrap` ends in. */
  datatype Boot =
    | LoadFailed     // the own-membership select failed: a toast, and the page stays
    | NotAuthorized  // the lowered role is not `admin`: "Not authorized", to /dashboard
    | ListFailed     // the members select failed: a toast, and the page stays
    | Listed

  function BootDecision(answer: Fetch<Membership>, listReachable: bool): (b: Boot)
    ensures b == LoadFailed <==> answer.Failed? || answer.data.None?
    ensures b == NotAuthorized <==>
      answer.Fetched? && answer.data.Some? && ManagerRole(answer.data.value.role) != "admin"
    ensures b == Listed <==>
      answer.Fetched? && answer.data.Some? && ManagerRole(answer.data.value.role) == "admin" && listReachable
  {
    match answer
    case Failed => LoadFailed
    case Fetched(None) => LoadFailed  // reading `organization_id` of null throws
    case Fetched(Some(m)) =>
      if ManagerRole(m.role) != "admin" then NotAuthorized
      else if !listReachable then ListFailed
      else Listed
  }

  /** The own-membership select: the user's rows, exactly one expected. */
  function ManagerAnswer(ms: seq<Membership>, user: Id, reachable: bool): Fetch<Membership> {
    Single(Filter(ms, IsOfUser(user)), reachable)
  }

  /** The member manager's state. */
  class MemberManagerPage {
    var loading: bool
    var orgId: Option<Id>
    var myRole: string
    var members: seq<Membership>
    var savingId: Option<Id>
    var navigations: seq<Route>

    constructor ()
      ensures loading && orgId.None? && myRole == "unassigned"
      ensures members == [] && savingId.None? && navigations == []
    {
      loading, orgId, myRole := true, None, "unassigned";
      members, savingId, navigations := [], None, [];
    }

    /** The shown list is what a load of the list would show now. */
    ghost predicate Mirrors(store: Backend)
      reads this, store
    {
      orgId.Some? && members == MemberListing(store.memberships, orgId.value)
    }

    /** The first effect: with the session known and no user, go to /auth. */
    method OnSessionChange(authLoading: bool, user: Option<Id>)
      modifies this
      ensures navigations == old(navigations) + if SessionRedirect(authLoading, user.Some?).Some? then [Auth] else []
      ensures loading == old(loading) && orgId == old(orgId) && myRole == old(myRole)
        && members == old(members) && savingId == old(savingId)
    {
      var redirect := SessionRedirect(authLoading, user.Some?);
      if redirect.Some? {
        navigations := navigations + [redirect.value];
      }
    }

    /** `bootstrap`. */
    method Bootstrap(store: Backend, user: Id, memberReachable: bool, listReachable: bool) returns (b: Boot)
      modifies this
      ensures var answer := ManagerAnswer(store.memberships, user, memberReachable);
        && b == BootDecision(answer, listReachable)
        && orgId == (if b == LoadFailed then old(orgId) else Some(answer.data.value.orgId))
        && myRole == (if b == LoadFailed then old(myRole) else ManagerRole(answer.data.value.role))
      ensures members == if b == Listed then MemberListing(store.memberships, orgId.value) else old(members)
      ensures b == Listed ==> Mirrors(store)
      ensures navigations == old(navigations) + if b == NotAuthorized then [Dashboard] else []
      ensures !loading && savingId == old(savingId)
    {
      loading := true;
      var answer := ManagerAnswer(store.memberships, user, memberReachable);
      b := BootDecision(answer, listReachable);
      if b != LoadFailed {
        orgId := Some(answer.data.value.orgId);
        myRole := ManagerRole(answer.data.value.role);
      }
      if b == NotAuthorized {
        navigations := navigations + [Dashboard];
      } else if b == Listed {
        members := MemberListing(store.memberships, answer.data.value.orgId);
      }
      loading := false;
    }

    /** `updateRole`: the update is keyed by the membership id alone. Once it
        answers without an error the shown row takes the new role, whether or
        not the row policy let the update reach the row. A list that mirrored
        the table still does when the update reached the row, and no longer
        does when a filtered update left a listed row with its old role. */
    method UpdateRole(store: Backend, id: Id, newRole: string, accepted: bool, applied: bool) returns (ok: bool)
      requires store.Valid()
      modifies this, store
      ensures store.Valid()
      ensures ok == accepted && savingId.None?
      ensures store.memberships == if ok && applied then WithRole(old(store.memberships), id, newRole)
                                   else old(store.memberships)
      ensures members == if ok then WithRole(old(members), id, newRole) else old(members)
      ensures old(Mirrors(store)) && (ok ==> applied) ==> Mirrors(store)
      ensures old(Mirrors(store)) && ok && !applied
           && HoldsOtherRole(old(members), id, newRole)
           ==> !Mirrors(store)
      ensures store.organizations == old(store.organizations) && store.expenses == old(store.expenses)
      ensures store.profiles == old(store.profiles)
      ensures orgId == old(orgId) && myRole == old(myRole) && loading == old(loading)
      ensures navigations == old(navigations)
    {
      ghost var before, shown := store.memberships, members;
      savingId := Some(id);
      ok := store.UpdateMembershipRole(id, newRole, accepted, applied);
      if ok {
        members := WithRole(members, id, newRole);
        if orgId.Some? && applied {
          RoleUpdateMatchesReload(before, orgId.value, id, newRole);
        }
        if !applied && HoldsOtherRole(shown, id, newRole) {
          var k :| 0 <= k < |shown| && shown[k].id == id && shown[k].role != Some(newRole);
          RoleUpdateChangesRow(shown, id, newRole, k);
          assert members != shown;
        }
      }
      savingId := None;
    }
  }
}
