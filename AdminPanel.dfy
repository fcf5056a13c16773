/** The admin panel (src/pages/admin/Members.tsx, whose component is
    `Admin`): a landing card linking to the member manager, guarded by a
    role check that sends non-admins back to the dashboard. */
module AdminPanelScreen {
  import opened Common
  import opened Store

  /** `checkAdmin`: whether the visitor is sent back to /dashboard. The role
      is compared exactly: an error, a null role, or any text other than
      `admin` (`Admin` included) redirects. */
  function CheckAdmin(answer: Fetch<Membership>): (redirect: bool)
    ensures !redirect <==> answer.Fetched? && answer.data.Some? && answer.data.value.role == Some("admin")
  {
    answer.Failed? || answer.data.None? || answer.data.value.role != Some("admin")
  }

  /** The role select: the user's rows, exactly one expected. */
  function PanelAnswer(ms: seq<Membership>, user: Id, reachable: bool): Fetch<Membership> {
    Single(Filter(ms, IsOfUser(user)), reachable)
  }

  /** A visitor stays on the panel only with exactly one membership, whose
      role is exactly `admin`. */
  lemma StaysOnlyAsSoleAdmin(ms: seq<Membership>, user: Id, reachable: bool)
    ensures !CheckAdmin(PanelAnswer(ms, user, reachable)) <==>
      reachable && |Filter(ms, IsOfUser(user))| == 1 && Filter(ms, IsOfUser(user))[0].role == Some("admin")
  {
  }

  /** What the panel renders. */
  datatype Screen =
    | Blank    // `return null` while the session is loading
    | Panel    // the card with the "Manage Members" link to /admin/members

  /** The panel is drawn as soon as the session is known, before and
      regardless of the role check, and for signed-out visitors too. */
  function Render(authLoading: bool): (s: Screen)
    ensures s == Blank <==> authLoading
  {
    if authLoading then Blank else Panel
  }

  /** The admin panel's state: only the navigations it makes. */
  class AdminPanelPage {
    var navigations: seq<Route>

    constructor ()
      ensures navigations == []
    {
      navigations := [];
    }

    /** The effect on the user: without a user nothing is checked (there is
        no redirect to /auth on this screen). */
    method OnUserChange(store: Backend, user: Option<Id>, reachable: bool) returns (redirected: bool)
      modifies this
      ensures redirected <==> user.Some? && CheckAdmin(PanelAnswer(store.memberships, user.value, reachable))
      ensures navigations == old(navigations) + if redirected then [Dashboard] else []
    {
      redirected := false;
      if user.None? {
        return;
      }
      redirected := CheckAdmin(PanelAnswer(store.memberships, user.value, reachable));
      if redirected {
        navigations := navigations + [Dashboard];
      }
    }
  }
}
