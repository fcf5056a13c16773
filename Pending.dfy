/** The waiting screen (src/pages/PendingApproval.tsx): a signed-in user
    whose role is still `unassigned` waits here. It re-checks the role and
    moves on as soon as one is assigned. */
module PendingScreen {
  import opened Common
  import opened Store

  /** What `checkRole` decides from the membership answer. */
  datatype Check =
    | ToOnboarding   // error (no row, several rows, store unreachable)
    | ToDashboard    // a role other than `unassigned`
    | Wait           // still `unassigned`: show the waiting card

  /** `checkRole`'s decision. The role is compared exactly, without lowering:
      only a null role or the exact text `unassigned` keeps the user waiting. */
  function CheckRole(answer: Fetch<Membership>): (c: Check)
    ensures c == ToOnboarding <==> answer.Failed?
    ensures c == Wait <==> answer.Fetched? && (answer.data.None? || answer.data.value.role.GetOr("unassigned") == "unassigned")
  {
    match answer
    case Failed => ToOnboarding
    case Fetched(row) =>
      var role := if row.Some? then row.value.role.GetOr("unassigned") else "unassigned";
      if role != "unassigned" then ToDashboard else Wait
  }

  /** The role select: the user's membership rows, exactly one expected. */
  function RoleAnswer(ms: seq<Membership>, user: Id, reachable: bool): Fetch<Membership> {
    Single(Filter(ms, IsOfUser(user)), reachable)
  }

  /** The check in terms of the table: a user without a membership, or with
      memberships in several organizations, is sent to onboarding; a user
      with one membership waits exactly while its role is null or `unassigned`. */
  lemma CheckRoleOnTable(ms: seq<Membership>, user: Id)
    ensures |Filter(ms, IsOfUser(user))| != 1 ==> CheckRole(RoleAnswer(ms, user, true)) == ToOnboarding
    ensures |Filter(ms, IsOfUser(user))| == 1 ==>
      (CheckRole(RoleAnswer(ms, user, true)) == Wait
       <==> Filter(ms, IsOfUser(user))[0].role.GetOr("unassigned") == "unassigned")
  {
  }

  /** The waiting screen's state. */
  class PendingPage {
    var loading: bool
    var navigations: seq<Route>

    constructor ()
      ensures loading && navigations == []
    {
      loading, navigations := true, [];
    }

    /** The first effect: with the session known and no user, go to /auth. */
    method OnSessionChange(authLoading: bool, user: Option<Id>)
      modifies this
      ensures navigations == old(navigations) + if SessionRedirect(authLoading, user.Some?).Some? then [Auth] else []
      ensures loading == old(loading)
    {
      var redirect := SessionRedirect(authLoading, user.Some?);
      if redirect.Some? {
        navigations := navigations + [redirect.value];
      }
    }

    /** The second effect, `checkRole`. It only runs with a user; loading
        stays on when the page navigates away. */
    method CheckRoleEffect(store: Backend, user: Option<Id>, reachable: bool) returns (c: Option<Check>)
      modifies this
      ensures user.None? ==> c.None? && navigations == old(navigations) && loading == old(loading)
      ensures user.Some? ==> c == Some(CheckRole(RoleAnswer(store.memberships, user.value, reachable)))
      ensures c.Some? ==>
        && navigations == old(navigations) + (match c.value
                                              case ToOnboarding => [Onboarding]
                                              case ToDashboard => [Dashboard]
                                              case Wait => [])
        && loading == (c.value != Wait)
    {
      if user.None? {
        return None;
      }
      loading := true;
      var answer := RoleAnswer(store.memberships, user.value, reachable);
      if answer.Failed? {
        navigations := navigations + [Onboarding];
        return Some(ToOnboarding);
      }
      var role := if answer.data.Some? then answer.data.value.role.GetOr("unassigned") else "unassigned";
      if role != "unassigned" {
        navigations := navigations + [Dashboard];
        return Some(ToDashboard);
      }
      loading := false;
      return Some(Wait);
    }

    /** The Logout button: it only navigates to /auth; it does not end the session. */
    method Logout()
      modifies this
      ensures navigations == old(navigations) + [Auth] && loading == old(loading)
    {
      navigations := navigations + [Auth];
    }
  }
}
