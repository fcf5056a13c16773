/** The dashboard (src/pages/Dashboard.tsx): it loads the signed-in user's
    profile and membership, sends users without a role to the pending
    screen, and shows a title and quick-action cards chosen by role. */
module DashboardScreen {
  import opened Common
  import opened Text
  import opened Store

  /** The membership as the dashboard keeps it, with its role already made
      non-null and lower-cased. */
  datatype MembershipView = MembershipView(id: Id, orgId: Id, role: string)

  /** `(role ?? "unassigned").toLowerCase()`: the role every role-dependent
      screen decision on the dashboard is made with. */
  function EffectiveRole(role: Option<string>): string {
    Lower(role.GetOr("unassigned"))
  }

  /** What `fetchUserData` makes of the membership answer. */
  datatype Resolution =
    | NoOrganization               // error or no row: membership becomes null
    | AwaitingRole                 // the effective role is `unassigned`: go to /pending
    | Member(view: MembershipView) // anything else is kept

  function Resolve(answer: Fetch<Membership>): (r: Resolution)
    ensures r.NoOrganization? <==> answer.Failed? || answer.data.None?
    ensures r.AwaitingRole? <==>
      answer.Fetched? && answer.data.Some? && EffectiveRole(answer.data.value.role) == "unassigned"
    ensures r.Member? ==>
      && answer.Fetched? && answer.data.Some?
      && r.view == MembershipView(answer.data.value.id, answer.data.value.orgId, EffectiveRole(answer.data.value.role))
  {
    match answer
    case Failed => NoOrganization
    case Fetched(None) => NoOrganization
    case Fetched(Some(m)) =>
      var role := EffectiveRole(m.role);
      if role == "unassigned" then AwaitingRole else Member(MembershipView(m.id, m.orgId, role))
  }

  /** The membership select: the user's rows of every organization, one row expected. */
  function MembershipAnswer(ms: seq<Membership>, user: Id, reachable: bool): Fetch<Membership> {
    MaybeSingle(Filter(ms, IsOfUser(user)), reachable)
  }

  /** The profile select: the user's profile row, exactly one expected. */
  function ProfileAnswer(ps: seq<Profile>, user: Id, reachable: bool): Fetch<Profile> {
    Single(Filter(ps, IsProfileOf(user)), reachable)
  }

  /** A kept membership never carries an ASCII capital and is never `unassigned`. */
  lemma MemberViewIsNormalized(answer: Fetch<Membership>)
    requires Resolve(answer).Member?
    ensures forall i :: 0 <= i < |Resolve(answer).view.role| ==> !IsUpperAscii(Resolve(answer).view.role[i])
    ensures Resolve(answer).view.role != "unassigned"
  {
    LowerShape(answer.data.value.role.GetOr("unassigned"));
  }

  /** A null role and `unassigned` in any ASCII capitalisation all mean
      "awaiting a role". */
  lemma UnassignedInAnyCase(m: Membership)
    requires m.role.None? || Lower(m.role.value) == "unassigned"
    ensures Resolve(Fetched(Some(m))) == AwaitingRole
  {
    assert Lower("unassigned") == "unassigned" by {
      LowerFixesRoleNames();
    }
  }

  /** The membership select is keyed by user only: a user who belongs to two
      organizations gets an error and is shown the onboarding prompt. */
  lemma SeveralOrganizationsLookLikeNone(ms: seq<Membership>, user: Id, reachable: bool)
    requires |Filter(ms, IsOfUser(user))| >= 2
    ensures Resolve(MembershipAnswer(ms, user, reachable)) == NoOrganization
  {
  }

  /** The quick-action cards, in the order the page lays them out. */
  datatype Card = SubmitExpenseCard | MembersCard | ApprovalsCard | ExportCard

  /** Where each card's button navigates. */
  function CardTarget(c: Card): Route {
    match c
    case SubmitExpenseCard => NewExpense
    case MembersCard => AdminMembers
    case ApprovalsCard => HrApprovals
    case ExportCard => AccountsExport
  }

  /** The buttons of the four cards navigate to /expenses/new, /admin/members,
      /hr/approvals and /accounts/export, and no two cards lead to one route. */
  lemma CardPaths(c: Card, d: Card)
    ensures Path(CardTarget(SubmitExpenseCard)) == "/expenses/new"
    ensures Path(CardTarget(MembersCard)) == "/admin/members"
    ensures Path(CardTarget(ApprovalsCard)) == "/hr/approvals"
    ensures Path(CardTarget(ExportCard)) == "/accounts/export"
    ensures CardTarget(c) == CardTarget(d) <==> c == d
  {
  }

  /** The cards shown for a (lower-cased) role. */
  function Cards(role: string): seq<Card> {
    (if role == "employee" || role == "admin" then [SubmitExpenseCard] else [])
    + (if role == "admin" then [MembersCard] else [])
    + (if role == "hr" then [ApprovalsCard] else [])
    + (if role == "accounts" then [ExportCard] else [])
  }

  /** Which card each role sees: submitting for employees and admins, member
      management for admins, approvals for HR, export for accounts; any other
      role (`unassigned` or unknown) sees none. Each card appears at most once. */
  lemma CardsByRole(role: string)
    ensures SubmitExpenseCard in Cards(role) <==> role == "employee" || role == "admin"
    ensures MembersCard in Cards(role) <==> role == "admin"
    ensures ApprovalsCard in Cards(role) <==> role == "hr"
    ensures ExportCard in Cards(role) <==> role == "accounts"
    ensures Cards(role) == [] <==> role !in {"employee", "admin", "hr", "accounts"}
    ensures |Cards(role)| <= 2
    ensures forall i, j :: 0 <= i < j < |Cards(role)| ==> Cards(role)[i] != Cards(role)[j]
  {
  }

  /** The heading for a (lower-cased) role; every role not named falls back
      to the employee title. */
  function RoleTitle(role: string): string {
    if role == "admin" then "Admin Dashboard"
    else if role == "hr" then "HR Dashboard"
    else if role == "accounts" then "Accounts Dashboard"
    else "Employee Dashboard"
  }

  /** What the dashboard renders. */
  datatype Screen =
    | Spinner
    | OnboardingPrompt                                // "Continue to Onboarding" links to /onboarding
    | RoleDashboard(title: string, cards: seq<Card>)

  function Render(authLoading: bool, loading: bool, membership: Option<MembershipView>): Screen {
    if authLoading || loading then Spinner
    else if membership.None? then OnboardingPrompt
    else
      var role := EffectiveRole(Some(membership.value.role));
      RoleDashboard(RoleTitle(role), Cards(role))
  }

  /** Once loaded, a membership the dashboard kept shows the title and cards
      of its role, and the title and cards agree: a card other than
      submitting appears only under its own role's title. */
  lemma RenderAfterResolve(answer: Fetch<Membership>)
    requires Resolve(answer).Member?
    ensures var v := Resolve(answer).view;
      Render(false, false, Some(v)) == RoleDashboard(RoleTitle(v.role), Cards(v.role))
    ensures var s := Render(false, false, Some(Resolve(answer).view));
      && (MembersCard in s.cards ==> s.title == "Admin Dashboard")
      && (ApprovalsCard in s.cards ==> s.title == "HR Dashboard")
      && (ExportCard in s.cards ==> s.title == "Accounts Dashboard")
  {
    var v := Resolve(answer).view;
    MemberViewIsNormalized(answer);
    LowerFixesLowercase(v.role);
    CardsByRole(v.role);
  }

  /** The dashboard's state. */
  class DashboardPage {
    var profile: Option<Profile>
    var membership: Option<MembershipView>
    var loading: bool
    var navigations: seq<Route>

    constructor ()
      ensures profile.None? && membership.None? && loading && navigations == []
    {
      profile, membership, loading, navigations := None, None, true, [];
    }

    /** The effect run whenever the session changes. */
    method OnSessionChange(
      store: Backend, user: Option<Id>, authLoading: bool, profileReachable: bool, membershipReachable: bool)
      modifies this
      ensures SessionRedirect(authLoading, user.Some?).Some? ==>
        navigations == old(navigations) + [Auth] && profile == old(profile)
        && membership == old(membership) && loading == old(loading)
      ensures SessionRedirect(authLoading, user.Some?).None? && user.Some? ==>
        Loaded(store, user.value, profileReachable, membershipReachable)
      ensures SessionRedirect(authLoading, user.Some?).None? && user.None? ==>
        navigations == old(navigations) && profile == old(profile)
        && membership == old(membership) && loading == old(loading)
    {
      var redirect := SessionRedirect(authLoading, user.Some?);
      if redirect.Some? {
        navigations := navigations + [redirect.value];
        return;
      }
      if user.Some? {
        FetchUserData(store, user, profileReachable, membershipReachable);
      }
    }

    /** `handleSignOut`: the session is ended by the auth service (not part of
        this model), then the page goes to the landing page. */
    method HandleSignOut()
      modifies this
      ensures navigations == old(navigations) + [Home]
      ensures profile == old(profile) && membership == old(membership) && loading == old(loading)
    {
      navigations := navigations + [Home];
    }

    /** The button of a quick-action card navigates to its card's route. */
    method ClickCard(c: Card)
      modifies this
      ensures navigations == old(navigations) + [CardTarget(c)]
      ensures profile == old(profile) && membership == old(membership) && loading == old(loading)
    {
      navigations := navigations + [CardTarget(c)];
    }

    /** The state `fetchUserData` leaves for `user`: the profile replaced when
        one was found, the membership resolved, /pending visited when the role
        is unassigned, and loading over. */
    twostate predicate Loaded(store: Backend, user: Id, profileReachable: bool, membershipReachable: bool)
      reads this, store
    {
      var found := ProfileAnswer(store.profiles, user, profileReachable);
      var r := Resolve(MembershipAnswer(store.memberships, user, membershipReachable));
      && !loading
      && profile == (if found.Fetched? && found.data.Some? then found.data else old(profile))
      && membership == (match r
                        case NoOrganization => None
                        case AwaitingRole => old(membership)
                        case Member(v) => Some(v))
      && navigations == old(navigations) + (if r.AwaitingRole? then [Pending] else [])
    }

    /** `fetchUserData`. */
    method FetchUserData(store: Backend, user: Option<Id>, profileReachable: bool, membershipReachable: bool)
      modifies this
      ensures user.Some? ==> Loaded(store, user.value, profileReachable, membershipReachable)
      ensures user.None? ==>
        navigations == old(navigations) && profile == old(profile)
        && membership == old(membership) && loading == old(loading)
    {
      if user.None? {
        return;
      }
      loading := true;
      var found := ProfileAnswer(store.profiles, user.value, profileReachable);
      if found.Fetched? && found.data.Some? {
        profile := found.data;
      }
      var r := Resolve(MembershipAnswer(store.memberships, user.value, membershipReachable));
      match r {
        case NoOrganization =>
          membership := None;
        case AwaitingRole =>
          navigations := navigations + [Pending];
        case Member(v) =>
          membership := Some(v);
      }
      loading := false;
    }
  }
}
