/** The expense form (src/pages/SubmitExpense.tsx): a member of an
    organization submits an expense with a title and an amount; it is stored
    as `pending` with no receipt. */
module SubmitExpenseScreen {
  import opened Common
  import opened Text
  import opened Store

  /** The value of `Number(amount)`: a finite number, or one of the values
      for which `Number.isFinite` is false. */
  datatype Num = Finite(value: real) | NaN | PosInf | NegInf

  /** What the load of the form's membership decides. */
  datatype Boot =
    | BootFailed     // error, or no row: "Could not load organization", back to /dashboard
    | AwaitingRole   // `(role ?? "").toLowerCase() === "unassigned"`: go to /pending
    | Ready          // stay on the form

  /** `bootstrap`'s decision. A null role becomes the empty string here (not
      `unassigned` as on the other screens), so it stays on the form. */
  function BootDecision(answer: Fetch<Membership>): (b: Boot)
    ensures b == BootFailed <==> answer.Failed? || answer.data.None?
    ensures b == AwaitingRole <==>
      answer.Fetched? && answer.data.Some? && answer.data.value.role.Some?
      && Lower(answer.data.value.role.value) == "unassigned"
  {
    match answer
    case Failed => BootFailed
    case Fetched(None) => BootFailed  // reading `organization_id` of null throws
    case Fetched(Some(m)) =>
      if Lower(m.role.GetOr("")) == "unassigned" then AwaitingRole else Ready
  }

  /** The membership select: the user's rows, exactly one expected. */
  function FormAnswer(ms: seq<Membership>, user: Id, reachable: bool): Fetch<Membership> {
    Single(Filter(ms, IsOfUser(user)), reachable)
  }

  /** A member with a null role is let through to the form. */
  lemma NullRoleStaysOnForm(m: Membership)
    requires m.role.None?
    ensures BootDecision(Fetched(Some(m))) == Ready
  {
  }

  /** What `handleSubmit` decides before writing anything, in the order it checks. */
  datatype Submission =
    | NotReady                               // no organization loaded or no user: nothing happens
    | TitleRequired                          // "Title is required"
    | InvalidAmount                          // "Enter a valid amount"
    | Accepted(title: string, amount: real)  // the values that are inserted

  function ValidateSubmission(orgId: Option<Id>, user: Option<Id>, title: string, amount: Num): (s: Submission)
    ensures s.NotReady? <==> orgId.None? || user.None?
    ensures s.TitleRequired? <==> orgId.Some? && user.Some? && Trim(title) == ""
    ensures s.InvalidAmount? <==>
      orgId.Some? && user.Some? && Trim(title) != "" && !(amount.Finite? && amount.value > 0.0)
    ensures s.Accepted? ==> s.title == Trim(title) && amount.Finite? && s.amount == amount.value
  {
    if orgId.None? || user.None? then NotReady
    else
      var cleanTitle := Trim(title);
      if cleanTitle == "" then TitleRequired
      else if !amount.Finite? || amount.value <= 0.0 then InvalidAmount
      else Accepted(cleanTitle, amount.value)
  }

  /** What an accepted submission stores: a title that is not empty and
      carries no surrounding white space, and a strictly positive amount. A
      title made only of white space is refused as missing. */
  lemma AcceptedSubmissionIsClean(orgId: Option<Id>, user: Option<Id>, title: string, amount: Num)
    ensures ValidateSubmission(orgId, user, title, amount).TitleRequired? <==>
      orgId.Some? && user.Some? && forall i :: 0 <= i < |title| ==> IsJsSpace(title[i])
    ensures var s := ValidateSubmission(orgId, user, title, amount);
      s.Accepted? ==>
        && s.amount > 0.0 && s.title != []
        && !IsJsSpace(s.title[0]) && !IsJsSpace(s.title[|s.title| - 1])
        && Trim(s.title) == s.title
  {
    TrimEmptyIff(title);
    TrimIsInnerSlice(title);
    TrimIdempotent(title);
  }

  /** The row an accepted submission inserts. */
  function SubmittedRow(id: Id, org: Id, user: Id, title: string, amount: real, now: int): Expense {
    Expense(id, org, user, title, amount, "pending", None, now)
  }

  /** The form's state; `amount` holds the field already parsed by `Number`. */
  class SubmitExpensePage {
    var loading: bool
    var saving: bool
    var orgId: Option<Id>
    var myRole: Option<string>
    var title: string
    var amount: Num
    var navigations: seq<Route>

    constructor ()
      ensures loading && !saving && orgId.None? && myRole == Some("")
      ensures title == "" && amount == Finite(0.0) && navigations == []
    {
      loading, saving, orgId, myRole := true, false, None, Some("");
      title, amount, navigations := "", Finite(0.0), [];
    }

    /** The first effect: with the session known and no user, go to /auth. */
    method OnSessionChange(authLoading: bool, user: Option<Id>)
      modifies this
      ensures navigations == old(navigations) + if SessionRedirect(authLoading, user.Some?).Some? then [Auth] else []
      ensures loading == old(loading) && saving == old(saving) && orgId == old(orgId) && myRole == old(myRole)
        && title == old(title) && amount == old(amount)
    {
      var redirect := SessionRedirect(authLoading, user.Some?);
      if redirect.Some? {
        navigations := navigations + [redirect.value];
      }
    }

    /** The effect on the user id: load the form's membership when signed in. */
    method OnUserChange(store: Backend, user: Option<Id>, reachable: bool) returns (b: Option<Boot>)
      modifies this
      ensures user.None? ==> b.None? && unchanged(this)
      ensures user.Some? ==> b == Some(BootDecision(FormAnswer(store.memberships, user.value, reachable)))
      ensures user.Some? ==> Booted(store, user.value, reachable)
    {
      if user.None? {
        return None;
      }
      var d := Bootstrap(store, user.value, reachable);
      return Some(d);
    }

    /** The state `bootstrap` leaves: the organization and raw role recorded
        whenever a row came back, the navigation its decision calls for, and
        loading over. The form's fields and saving flag are untouched. */
    twostate predicate Booted(store: Backend, user: Id, reachable: bool)
      reads this, store
    {
      var answer := FormAnswer(store.memberships, user, reachable);
      var b := BootDecision(answer);
      && !loading
      && orgId == (if b == BootFailed then old(orgId) else Some(answer.data.value.orgId))
      && myRole == (if b == BootFailed then old(myRole) else answer.data.value.role)
      && navigations == old(navigations) + (match b
                                            case BootFailed => [Dashboard]
                                            case AwaitingRole => [Pending]
                                            case Ready => [])
      && saving == old(saving) && title == old(title) && amount == old(amount)
    }

    /** `bootstrap`. */
    method Bootstrap(store: Backend, user: Id, reachable: bool) returns (b: Boot)
      modifies this
      ensures b == BootDecision(FormAnswer(store.memberships, user, reachable))
      ensures Booted(store, user, reachable)
    {
      loading := true;
      var answer := FormAnswer(store.memberships, user, reachable);
      b := BootDecision(answer);
      if b == BootFailed {
        navigations := navigations + [Dashboard];
      } else {
        orgId := Some(answer.data.value.orgId);
        myRole := answer.data.value.role;
        if b == AwaitingRole {
          navigations := navigations + [Pending];
        }
      }
      loading := false;
    }

    /** `handleSubmit`. Nothing is inserted unless the submission is accepted;
        an accepted one inserts exactly one `pending` row and, once stored,
        returns to the dashboard. There is no guard against submitting the
        same expense twice. */
    method HandleSubmit(store: Backend, user: Option<Id>, accepted: bool, now: int)
      returns (s: Submission, stored: bool)
      requires store.Valid()
      modifies this, store
      ensures store.Valid()
      ensures s == ValidateSubmission(old(orgId), user, old(title), old(amount))
      ensures stored <==> s.Accepted? && accepted
      ensures store.expenses == if stored
        then old(store.expenses) + [SubmittedRow(old(store.nextId), old(orgId).value, user.value, s.title, s.amount, now)]
        else old(store.expenses)
      ensures store.organizations == old(store.organizations) && store.memberships == old(store.memberships)
      ensures store.profiles == old(store.profiles)
      ensures navigations == old(navigations) + if stored then [Dashboard] else []
      ensures saving == (if s.Accepted? then false else old(saving))
      ensures loading == old(loading) && orgId == old(orgId) && myRole == old(myRole)
      ensures title == old(title) && amount == old(amount)
    {
      s := ValidateSubmission(orgId, user, title, amount);
      stored := false;
      if !s.Accepted? {
        return;
      }
      saving := true;
      stored := store.InsertExpense(orgId.value, user.value, s.title, s.amount, "pending", None, now, accepted);
      if stored {
        navigations := navigations + [Dashboard];
      }
      saving := false;
    }
  }
}
