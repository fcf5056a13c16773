/** How the screens fit together for one signed-in user: what the
    dashboard, the waiting screen, the expense form, the approval queue, the
    member manager and the admin panel each make of the same membership row,
    and what a join, a submission, a decision and a role assignment change
    for the next screen. The screens read the role in different ways (raw or
    lower-cased, null read as `unassigned` or as the empty string), and the
    lemmas here state where they agree and exhibit where they do not. */
module Journeys {
  import opened Common
  import opened Text
  import opened Store
  import opened OnboardingScreen
  import opened DashboardScreen
  import opened PendingScreen
  import SubmitExpenseScreen
  import ApprovalsScreen
  import MemberManagerScreen
  import AdminPanelScreen
  import AuthScreen

  /** The cards the dashboard shows, once loaded, for a user whose one membership is `m`. */
  function DashboardCards(m: Membership): seq<Card> {
    match Resolve(Fetched(Some(m)))
    case Member(v) => Render(false, false, Some(v)).cards
    case _ => []
  }

  /** The dashboard's cards are those of the lower-cased role; a null role
      and `unassigned` in any capitalisation show none. */
  lemma DashboardCardsByRole(m: Membership)
    ensures m.role.None? || Lower(m.role.value) == "unassigned" ==> DashboardCards(m) == []
    ensures m.role.Some? && Lower(m.role.value) != "unassigned" ==>
      DashboardCards(m) == Cards(Lower(m.role.value))
  {
    if m.role.None? {
      LowerFixesRoleNames();
      assert Resolve(Fetched(Some(m))) == AwaitingRole;
    } else if Lower(m.role.value) == "unassigned" {
      assert Resolve(Fetched(Some(m))) == AwaitingRole;
    } else {
      var v := MembershipView(m.id, m.orgId, Lower(m.role.value));
      assert Resolve(Fetched(Some(m))) == Member(v);
      LowerIdempotent(m.role.value);
      assert EffectiveRole(Some(v.role)) == v.role;
    }
  }

  // ---------------------------------------------------------------------
  // The dashboard and the waiting screen
  // ---------------------------------------------------------------------

  /** With the store reachable, the dashboard and the waiting screen agree on
      who has no organization (no row, or rows in several organizations), a
      user the waiting screen keeps is one the dashboard sends to it, and a
      member the dashboard keeps is released by the waiting screen. */
  lemma DashboardAndPendingAgree(ms: seq<Membership>, user: Id)
    ensures Resolve(MembershipAnswer(ms, user, true)) == NoOrganization
        <==> CheckRole(RoleAnswer(ms, user, true)) == ToOnboarding
    ensures CheckRole(RoleAnswer(ms, user, true)) == Wait ==>
      Resolve(MembershipAnswer(ms, user, true)) == AwaitingRole
    ensures Resolve(MembershipAnswer(ms, user, true)).Member? ==>
      CheckRole(RoleAnswer(ms, user, true)) == ToDashboard
  {
    LowerFixesRoleNames();
  }

  /** They disagree on a role that is `unassigned` in another capitalisation:
      the dashboard lowers it and sends the user to /pending, the waiting
      screen compares it exactly and sends the user back to /dashboard, and
      so on for as long as the row stays. */
  lemma MixedCaseUnassignedBounces(ms: seq<Membership>, user: Id, r: string)
    requires |Filter(ms, IsOfUser(user))| == 1
    requires Filter(ms, IsOfUser(user))[0].role == Some(r)
    requires Lower(r) == "unassigned" && r != "unassigned"
    ensures Resolve(MembershipAnswer(ms, user, true)) == AwaitingRole
    ensures CheckRole(RoleAnswer(ms, user, true)) == ToDashboard
  {
  }

  /** Such a role exists: `Unassigned`. */
  lemma CapitalisedUnassignedIsOne()
    ensures Lower("Unassigned") == "unassigned" && "Unassigned" != "unassigned"
  {
    var s := "Unassigned";
    LowerShape(s);
    assert Lower(s)[0] == 'u';
  }

  // ---------------------------------------------------------------------
  // Joining
  // ---------------------------------------------------------------------

  /** A user without any membership who joins an organization ends with
      exactly the new `unassigned` row, so the dashboard sends them to the
      waiting screen, and the waiting screen keeps them there. */
  lemma FirstJoinAwaitsRole(
    orgs: seq<Organization>, ms: seq<Membership>, orgCode: string, user: Id,
    insertAccepted: bool, newId: Id, now: int)
    requires Filter(ms, IsOfUser(user)) == []
    requires Join(orgs, ms, orgCode, Some(user), true, true, insertAccepted, newId, now).outcome == Joined
    ensures TargetOrganization(orgs, orgCode).Some?
    ensures var after := Join(orgs, ms, orgCode, Some(user), true, true, insertAccepted, newId, now).memberships;
      && Filter(after, IsOfUser(user)) == [NewMember(newId, TargetOrganization(orgs, orgCode).value.id, user, now)]
      && Resolve(MembershipAnswer(after, user, true)) == AwaitingRole
      && CheckRole(RoleAnswer(after, user, true)) == Wait
  {
    JoinEarlyExits(orgs, ms, orgCode, Some(user), true, true, insertAccepted, newId, now);
    JoinedMeansOneRow(orgs, ms, orgCode, Some(user), true, true, insertAccepted, newId, now);
    var org := TargetOrganization(orgs, orgCode).value;
    JoinOnceFound(orgs, ms, orgCode, Some(user), true, true, insertAccepted, newId, now, org);
    FilterMembers(ms, IsOfUser(user));
    forall i | 0 <= i < |ms| ensures !IsOfPair(org.id, user)(ms[i]) {
      assert !IsOfUser(user)(ms[i]);
    }
    FilterDropsAll(ms, IsOfPair(org.id, user));
    var row := NewMember(newId, org.id, user, now);
    var after := Join(orgs, ms, orgCode, Some(user), true, true, insertAccepted, newId, now).memberships;
    assert after == ms + [row];
    FilterAppend(ms, [row], IsOfUser(user));
    FilterCons(row, [], IsOfUser(user));
    LowerFixesRoleNames();
  }

  /** A member of one organization who joins a second one succeeds, but then
      has two memberships: the dashboard shows the onboarding prompt, the
      waiting screen sends them to onboarding, and joining again with the
      same code succeeds without changing anything. The user cannot get back
      to a role dashboard. */
  lemma SecondJoinStrandsUser(
    orgs: seq<Organization>, ms: seq<Membership>, orgCode: string, user: Id,
    insertAccepted: bool, newId: Id, now: int, insertAccepted2: bool, newId2: Id, now2: int)
    requires |Filter(ms, IsOfUser(user))| == 1
    requires Join(orgs, ms, orgCode, Some(user), true, true, insertAccepted, newId, now).outcome == Joined
    requires TargetOrganization(orgs, orgCode).Some?
    requires Filter(ms, IsOfUser(user))[0].orgId != TargetOrganization(orgs, orgCode).value.id
    ensures var after := Join(orgs, ms, orgCode, Some(user), true, true, insertAccepted, newId, now).memberships;
      && |Filter(after, IsOfUser(user))| == 2
      && Resolve(MembershipAnswer(after, user, true)) == NoOrganization
      && CheckRole(RoleAnswer(after, user, true)) == ToOnboarding
      && Join(orgs, after, orgCode, Some(user), true, true, insertAccepted2, newId2, now2) == JoinStep(Joined, after)
  {
    JoinEarlyExits(orgs, ms, orgCode, Some(user), true, true, insertAccepted, newId, now);
    var org := TargetOrganization(orgs, orgCode).value;
    JoinOnceFound(orgs, ms, orgCode, Some(user), true, true, insertAccepted, newId, now, org);
    var mine := Filter(ms, IsOfUser(user));
    FilterMembers(ms, IsOfUser(user));
    forall i | 0 <= i < |ms| ensures !IsOfPair(org.id, user)(ms[i]) {
      if IsOfUser(user)(ms[i]) {
        assert ms[i] in mine;
        assert ms[i] == mine[0];
      }
    }
    FilterDropsAll(ms, IsOfPair(org.id, user));
    var row := NewMember(newId, org.id, user, now);
    var after := Join(orgs, ms, orgCode, Some(user), true, true, insertAccepted, newId, now).memberships;
    assert after == ms + [row];
    FilterAppend(ms, [row], IsOfUser(user));
    FilterCons(row, [], IsOfUser(user));
    JoinIdempotent(orgs, ms, orgCode, Some(user), insertAccepted, newId, now, insertAccepted2, newId2, now2);
  }

  // ---------------------------------------------------------------------
  // The expense form
  // ---------------------------------------------------------------------

  /** The form sends to /pending only users the dashboard also sends there;
      but a null role, which the dashboard and the waiting screen treat as
      awaiting a role, is let through to the form. */
  lemma FormAndDashboardOnRoles(answer: Fetch<Membership>)
    ensures SubmitExpenseScreen.BootDecision(answer) == SubmitExpenseScreen.AwaitingRole ==>
      Resolve(answer) == AwaitingRole
    ensures answer.Fetched? && answer.data.Some? && answer.data.value.role.None? ==>
      && Resolve(answer) == AwaitingRole
      && CheckRole(answer) == Wait
      && SubmitExpenseScreen.BootDecision(answer) == SubmitExpenseScreen.Ready
  {
    LowerFixesRoleNames();
  }

  /** A stored submission shows up in its organization's approval queue, which
      grows by exactly that row; the queue of every other organization is
      unchanged. */
  lemma SubmissionReachesQueue(
    es: seq<Expense>, id: Id, org: Id, user: Id, title: string, amount: real, now: int, other: Id)
    ensures var row := SubmitExpenseScreen.SubmittedRow(id, org, user, title, amount, now);
      && row in ApprovalsScreen.PendingListing(es + [row], org)
      && |ApprovalsScreen.PendingListing(es + [row], org)| == |ApprovalsScreen.PendingListing(es, org)| + 1
      && (other != org ==> ApprovalsScreen.PendingListing(es + [row], other) == ApprovalsScreen.PendingListing(es, other))
  {
    var row := SubmitExpenseScreen.SubmittedRow(id, org, user, title, amount, now);
    var before, after := Filter(es, InReviewQueue(org)), Filter(es + [row], InReviewQueue(org));
    assert after == before + [row] by {
      FilterAppend(es, [row], InReviewQueue(org));
      FilterCons(row, [], InReviewQueue(org));
    }
    var listing := ApprovalsScreen.PendingListing(es + [row], org);
    assert multiset(listing) == multiset(before) + multiset{row};
    assert row in multiset(listing);
    assert |multiset(listing)| == |listing|;
    assert |multiset(ApprovalsScreen.PendingListing(es, org))| == |ApprovalsScreen.PendingListing(es, org)|;
    if other != org {
      assert Filter(es + [row], InReviewQueue(other)) == Filter(es, InReviewQueue(other)) by {
        FilterAppend(es, [row], InReviewQueue(other));
        FilterCons(row, [], InReviewQueue(other));
      }
    }
  }

  // ---------------------------------------------------------------------
  // Decisions and role assignments
  // ---------------------------------------------------------------------

  /** After HR decides on an expense, no row with its id is listed in any
      queue reload, and every other row listed before still is. */
  lemma DecisionLeavesQueue(es: seq<Expense>, org: Id, id: Id, status: string)
    requires ApprovalsScreen.IsDecision(status)
    ensures forall e :: e in ApprovalsScreen.PendingListing(WithStatus(es, id, status), org) <==>
      e in ApprovalsScreen.PendingListing(es, org) && e.id != id
  {
    ApprovalsScreen.DecisionMatchesReload(es, org, id, status);
    ApprovalsScreen.RemoveIdEffect(ApprovalsScreen.PendingListing(es, org), id);
  }

  /** The roles the member manager offers are already lower case. */
  lemma RoleOptionsAreLowercase(role: string)
    requires role in MemberManagerScreen.RoleOptions
    ensures Lower(role) == role
  {
    LowerFixesRoleName(role);
  }

  /** When the member manager gives a waiting user one of its roles other
      than `unassigned`, the waiting screen releases them and the dashboard
      keeps their membership with that role. */
  lemma AssignedRoleReleasesWaitingUser(ms: seq<Membership>, user: Id, role: string)
    requires |Filter(ms, IsOfUser(user))| == 1
    requires role in MemberManagerScreen.RoleOptions && role != "unassigned"
    ensures var m := Filter(ms, IsOfUser(user))[0];
      var after := WithRole(ms, m.id, role);
      && CheckRole(RoleAnswer(after, user, true)) == ToDashboard
      && Resolve(MembershipAnswer(after, user, true)) == Member(MembershipView(m.id, m.orgId, role))
  {
    var m := Filter(ms, IsOfUser(user))[0];
    var row := m.(role := Some(role));
    var after := WithRole(ms, m.id, role);
    RoleUpdateOfOwnRow(ms, user, role);
    assert RoleAnswer(after, user, true) == Fetched(Some(row));
    assert MembershipAnswer(after, user, true) == Fetched(Some(row));
    RoleOptionsAreLowercase(role);
    assert Resolve(Fetched(Some(row))) == Member(MembershipView(m.id, m.orgId, role));
  }

  /** Setting the role of a user's only row leaves them exactly that row, with the new role. */
  lemma RoleUpdateOfOwnRow(ms: seq<Membership>, user: Id, role: string)
    requires |Filter(ms, IsOfUser(user))| == 1
    ensures var m := Filter(ms, IsOfUser(user))[0];
      Filter(WithRole(ms, m.id, role), IsOfUser(user)) == [m.(role := Some(role))]
  {
    var m := Filter(ms, IsOfUser(user))[0];
    var f := SetRole(m.id, role);
    assert forall x :: IsOfUser(user)(f(x)) == IsOfUser(user)(x);
    FilterMapCommute(ms, f, IsOfUser(user));
    assert MapSeq([m], f) == [f(m)];
  }

  // ---------------------------------------------------------------------
  // Role guards of the HR and admin screens
  // ---------------------------------------------------------------------

  /** The dashboard offers the approvals card to `hr` in any capitalisation,
      while the queue itself admits only the exact text `hr`: everyone the
      queue admits was offered the card, but not the other way round. */
  lemma HrCardAndQueueGuard(m: Membership)
    ensures ApprovalsCard in DashboardCards(m) <==> m.role.Some? && Lower(m.role.value) == "hr"
    ensures ApprovalsScreen.BootDecision(Fetched(Some(m)), true) == ApprovalsScreen.Listed <==> m.role == Some("hr")
    ensures m.role == Some("hr") ==> ApprovalsCard in DashboardCards(m)
  {
    DashboardCardsByRole(m);
    CardsByRole("hr");
    LowerFixesRoleNames();
    if m.role.Some? {
      CardsByRole(Lower(m.role.value));
    }
  }

  /** The dashboard offers the members card exactly to `admin` in any
      capitalisation. */
  lemma MembersCardByRole(m: Membership)
    ensures MembersCard in DashboardCards(m) <==> m.role.Some? && Lower(m.role.value) == "admin"
  {
    DashboardCardsByRole(m);
    if m.role.Some? && Lower(m.role.value) != "unassigned" {
      CardsByRole(Lower(m.role.value));
    }
  }

  /** The dashboard's members card and the member manager both read the role
      lower-cased, so they agree on who manages members; the admin panel
      compares the role exactly, so it admits only a part of them. */
  lemma AdminGuards(m: Membership)
    ensures MemberManagerScreen.BootDecision(Fetched(Some(m)), true) == MemberManagerScreen.Listed
        <==> MembersCard in DashboardCards(m)
    ensures !AdminPanelScreen.CheckAdmin(Fetched(Some(m))) ==> MembersCard in DashboardCards(m)
  {
    MembersCardByRole(m);
    var b := MemberManagerScreen.BootDecision(Fetched(Some(m)), true);
    if m.role.None? {
      LowerFixesRoleNames();
      assert MemberManagerScreen.ManagerRole(m.role) == "unassigned";
      assert b == MemberManagerScreen.NotAuthorized;
    } else {
      assert MemberManagerScreen.ManagerRole(m.role) == Lower(m.role.value);
      assert b == MemberManagerScreen.Listed <==> Lower(m.role.value) == "admin";
      if m.role == Some("admin") {
        LowerFixesRoleNames();
      }
    }
  }

  /** An `Admin` membership manages members but is turned away by the panel. */
  lemma CapitalisedAdminSplitsScreens(m: Membership)
    requires m.role == Some("Admin")
    ensures MemberManagerScreen.BootDecision(Fetched(Some(m)), true) == MemberManagerScreen.Listed
    ensures AdminPanelScreen.CheckAdmin(Fetched(Some(m)))
  {
    LowerShape("Admin");
    assert Lower("Admin") == "admin";
  }

  // ---------------------------------------------------------------------
  // Sessions
  // ---------------------------------------------------------------------

  /** The waiting screen's Logout keeps the session: from /auth a signed-in
      user is sent straight back to /dashboard, and the dashboard (with the
      session known) does not send them back to /auth. */
  method LogoutKeepsSession() returns (pending: PendingPage, auth: AuthScreen.AuthPage)
    ensures pending.navigations == [Auth]
    ensures auth.navigations == [Dashboard]
    ensures SessionRedirect(false, true).None?
  {
    pending := new PendingPage();
    pending.Logout();
    auth := new AuthScreen.AuthPage(None);
    auth.OnSession(true);
  }
}
