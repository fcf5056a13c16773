# ExpenseFlow screens, modelled in Dafny

ExpenseFlow is a small expense-approval web application. Every user belongs
to one organization through a membership row that carries a role
(`unassigned`, `employee`, `hr`, `accounts` or `admin`). Employees submit
expenses, HR approves or rejects them, and an admin assigns the roles. This
project models the client-side logic of the application's screens and proves
what that logic guarantees.

The modelled screens are:
- onboarding: joining an organization by its code;
- the dashboard: resolving the user's role, then the title and quick-action
  cards for that role;
- the waiting screen for users without a role;
- the expense form;
- the HR approval queue;
- the member manager, which sets roles;
- the admin panel;
- the sign-in and sign-up screen.

The hosted data store is a class `Store.Backend`. It holds tables of
organizations, memberships, expenses and profiles. Its methods mirror the
inserts and the single-row updates the screens issue. The store's answers to
a one-row select are modelled as `Common.Fetch`: an error, a null row, or a
row. `Common.Single` (`.single()`) and `Common.MaybeSingle` (`.maybeSingle()`)
compute that answer from the matching rows. Whether a request reaches the
store and answers without an error enters as a boolean parameter. That
covers the network, refused inserts and constraints. An update has a second
outcome, `applied`, which says whether the row policy let it reach the row. An
update the policy filters answers without an error and changes no row.

Each screen's state is a class whose fields are the screen's React state.
Each event handler or effect is a method that changes those fields and the
store. Every navigation is appended to a `navigations` sequence of `Route`s.
Each handler's decision is also a function of its inputs, and the handler is
proved to follow it. Lemmas then state the properties of those decisions.

The module `Journeys` relates the screens to one another. It proves that:
- a first join leads to the waiting screen;
- a role assignment releases a waiting user;
- a submission reaches the HR queue;
- a decision leaves the queue.

It also exhibits where the screens read the same membership row differently:
- `Unassigned` bounces the user between the dashboard and the waiting screen;
- a capitalised `HR` gets the approvals card from the dashboard but is turned
  away by the queue behind it;
- an `Admin` membership can manage members but is turned away by the admin
  panel;
- a second organization strands the user on onboarding.

Roles are kept as raw strings. `Text.Lower` is ASCII lower-casing, so the
screens that lower-case the role and those that compare it exactly stay
distinct.

## Model

| member | source | states |
|---|---|---|
| `Common.Path` | src/pages/Dashboard.tsx:256-304 | every route's path is an absolute path starting with `/` |
| `Common.PathNamesRoute` | src/pages/Dashboard.tsx:256-304 | no two routes share a path, so a path names its route |
| `Common.SessionRedirect` | src/pages/Dashboard.tsx:57-60 | a screen goes to /auth exactly when the session is known and no user is signed in, and to no other route |
| `Common.Single` | src/pages/PendingApproval.tsx:26-30 | `.single()` answers with a row exactly when the store is reachable and exactly one row matches; no row or several rows are an error |
| `Common.MaybeSingle` | src/pages/Dashboard.tsx:80-90 | `.maybeSingle()` is an error only when the store is unreachable or several rows match; no match is a null row, and one match is that row |
| `Common.SingleAgreesWithMaybeSingle` | src/pages/Onboarding.tsx:56-78 | the two select forms agree wherever `.single()` answers, and differ exactly on an empty match |
| `Common.SortBy` | src/pages/hr/Approvals.tsx:97 | `.order(...)` yields a permutation of the rows (same multiset) in non-decreasing key order |
| `Common.SortFilterCommute` | src/pages/hr/Approvals.tsx:118 | filtering a sorted list gives the same list as sorting the filtered rows, so a local removal keeps the query's order |
| `Common.SortMapCommute` | src/pages/admin/Admin.tsx:110-112 | a map that keeps every key commutes with the ordering, so a local update keeps the query's order |
| `Common.FilterMapAsFilter` | src/pages/hr/Approvals.tsx:115-118 | an update that moves rows out of a filter and leaves the remaining ones alone is the same as filtering the removed rows out |
| `Text.LowerShape` | src/pages/Dashboard.tsx:111 | lower-casing keeps the length, maps each character by ASCII lowering, and leaves no ASCII capital |
| `Text.LowerIdempotent` | src/pages/Dashboard.tsx:133-135 | lower-casing an already lower-cased role changes nothing |
| `Text.LowerFixesRoleNames` | src/pages/admin/Admin.tsx:34-37 | each role name the screens compare with is its own lower case |
| `Text.TrimIsInnerSlice` | src/pages/SubmitExpense.tsx:82 | `trim` keeps the slice between the leading and trailing white-space runs, and the kept text neither starts nor ends with white space |
| `Text.TrimEmptyIff` | src/pages/SubmitExpense.tsx:85 | `trim` yields the empty string exactly when every character is white space |
| `Text.TrimIdempotent` | src/pages/SubmitExpense.tsx:82 | trimming a trimmed text changes nothing |
| `Text.Contains` | src/pages/Auth.tsx:120 | `includes` holds exactly when the part occurs at some position of the text |
| `Text.Utf16LengthInBmp` | src/pages/Auth.tsx:15 | inside the Basic Multilingual Plane the JavaScript length is the number of characters |
| `Store.WithStatusEffect` | src/pages/hr/Approvals.tsx:115 | the status update is keyed by expense id only: it touches the rows with that id in any organization, and changes nothing but their status |
| `Store.WithRoleEffect` | src/pages/admin/Admin.tsx:103-106 | the role update keeps length and order, gives the rows with that id the new role and leaves every other row as it was |
| `Store.Backend.constructor` | src/pages/Onboarding.tsx:56-60 | a store starts with the given organizations and profiles, no memberships or expenses, and satisfies its invariant |
| `Store.Backend.InsertMembership` | src/pages/Onboarding.tsx:84-92 | an accepted insert appends exactly one membership, numbered with the store's next id; a refused one changes nothing; the other tables are unchanged |
| `Store.Backend.InsertExpense` | src/pages/SubmitExpense.tsx:99-108 | an accepted insert appends exactly one expense, numbered with the store's next id; a refused one changes nothing; the other tables are unchanged |
| `Store.Backend.UpdateExpenseStatus` | src/pages/hr/Approvals.tsx:115-116 | the update answers without an error exactly when accepted; it sets the status of the rows with that id only when it also reached them, and otherwise changes nothing; the other tables are unchanged |
| `Store.Backend.UpdateMembershipRole` | src/pages/admin/Admin.tsx:103-108 | the update answers without an error exactly when accepted; it sets the role of the rows with that id only when it also reached them, and otherwise changes nothing; the other tables are unchanged |
| `OnboardingScreen.NormalizeCodeIsSlugSafe` | src/pages/Onboarding.tsx:27-31 | a normalized code holds only characters of `[a-z0-9-]` |
| `OnboardingScreen.NormalizeCodeKeepsAllowedInOrder` | src/pages/Onboarding.tsx:27-31 | the normalized code is exactly the slug characters of the lower-cased input, in their original order (the trim removes none of them) |
| `OnboardingScreen.NormalizeCodeIdempotent` | src/pages/Onboarding.tsx:27-31 | normalizing a normalized code changes nothing |
| `OnboardingScreen.JoinEarlyExits` | src/pages/Onboarding.tsx:36-70 | an empty code gives "code required", no user gives "not signed in", and a failed slug lookup gives "not found", in that order; these and a failed join leave the memberships unchanged |
| `OnboardingScreen.JoinOnceFound` | src/pages/Onboarding.tsx:56-93 | once the code names one organization, the join is the membership lookup and the conditional insert for that organization |
| `OnboardingScreen.JoinAddsAtMostOneRow` | src/pages/Onboarding.tsx:73-93 | a join adds nothing, or exactly one `unassigned` membership of the user in the named organization, and only when there was none |
| `OnboardingScreen.JoinedMeansOneRow` | src/pages/Onboarding.tsx:73-100 | after a successful join the user has exactly one membership in the named organization |
| `OnboardingScreen.JoinIdempotent` | src/pages/Onboarding.tsx:73-93 | joining again with the same code succeeds and adds nothing |
| `OnboardingScreen.OnboardingPage.constructor` | src/pages/Onboarding.tsx:23-25 | the code field and the error are empty, and nothing is loading |
| `OnboardingScreen.OnboardingPage.HandleJoinOrganization` | src/pages/Onboarding.tsx:33-111 | the outcome and the new memberships are those of `Join` on the old tables; organizations, expenses and profiles are unchanged; /dashboard only after a join; the inline error only for an empty code; loading is cleared except on the two early exits |
| `OnboardingScreen.OnboardingPage.JoinMembership` | src/pages/Onboarding.tsx:73-93 | the lookup and the conditional insert do what `JoinMember` says, on the memberships the store held |
| `DashboardScreen.Resolve` | src/pages/Dashboard.tsx:92-119 | an error or a null row means no organization; a role that reads `unassigned` (null or lower-cased) means awaiting a role; any other row is kept with its lower-cased role |
| `DashboardScreen.MemberViewIsNormalized` | src/pages/Dashboard.tsx:111-119 | a kept membership's role has no ASCII capital and is never `unassigned` |
| `DashboardScreen.UnassignedInAnyCase` | src/pages/Dashboard.tsx:105-117 | a null role and `unassigned` in any capitalisation both send the user to /pending |
| `DashboardScreen.SeveralOrganizationsLookLikeNone` | src/pages/Dashboard.tsx:89-95 | a user with memberships in two or more organizations is shown the onboarding prompt |
| `DashboardScreen.CardsByRole` | src/pages/Dashboard.tsx:247-309 | the submit card shows exactly for employee and admin, members exactly for admin, approvals exactly for hr, export exactly for accounts; other roles see none; no card repeats |
| `DashboardScreen.CardPaths` | src/pages/Dashboard.tsx:256-304 | the four cards lead to /expenses/new, /admin/members, /hr/approvals and /accounts/export, and no two cards lead to one route |
| `DashboardScreen.RenderAfterResolve` | src/pages/Dashboard.tsx:199-309 | a kept membership shows its role's title and cards, and the members, approvals and export cards appear only under the admin, HR and accounts titles |
| `DashboardScreen.DashboardPage.constructor` | src/pages/Dashboard.tsx:52-54 | no profile, no membership, loading |
| `DashboardScreen.DashboardPage.OnSessionChange` | src/pages/Dashboard.tsx:56-63 | with the session known and no user, go to /auth and change nothing else; with a user, load their data |
| `DashboardScreen.DashboardPage.FetchUserData` | src/pages/Dashboard.tsx:65-126 | the profile is replaced only when one was found; the membership becomes null, stays, or becomes the kept view, as `Resolve` decides; /pending only when awaiting a role; loading ends |
| `DashboardScreen.DashboardPage.HandleSignOut` | src/pages/Dashboard.tsx:128-131 | sign-out goes to the landing page |
| `DashboardScreen.DashboardPage.ClickCard` | src/pages/Dashboard.tsx:256-304 | a card's button navigates to that card's route and changes nothing else |
| `PendingScreen.CheckRole` | src/pages/PendingApproval.tsx:32-46 | any lookup error goes to /onboarding; the user waits exactly when the row is null or its role is null or exactly `unassigned`; any other text goes to /dashboard |
| `PendingScreen.CheckRoleOnTable` | src/pages/PendingApproval.tsx:26-46 | no membership, or several, goes to /onboarding; with one membership the user waits exactly while its role is null or exactly `unassigned` |
| `PendingScreen.PendingPage.constructor` | src/pages/PendingApproval.tsx:15 | the screen starts loading |
| `PendingScreen.PendingPage.OnSessionChange` | src/pages/PendingApproval.tsx:17-19 | with the session known and no user, go to /auth |
| `PendingScreen.PendingPage.CheckRoleEffect` | src/pages/PendingApproval.tsx:21-50 | without a user nothing happens; with one, the navigation `CheckRole` decides, and loading is cleared only when the user waits |
| `PendingScreen.PendingPage.Logout` | src/pages/PendingApproval.tsx:74 | the Logout button only goes to /auth |
| `SubmitExpenseScreen.BootDecision` | src/pages/SubmitExpense.tsx:45-75 | an error or missing row goes back to /dashboard; a role that lower-cases to `unassigned` goes to /pending; everything else, a null role included, stays on the form |
| `SubmitExpenseScreen.NullRoleStaysOnForm` | src/pages/SubmitExpense.tsx:60 | a member with a null role is let through to the form |
| `SubmitExpenseScreen.ValidateSubmission` | src/pages/SubmitExpense.tsx:80-92 | no organization or user is a no-op; an empty trimmed title is refused before the amount is looked at; a non-finite or non-positive amount is refused; otherwise the trimmed title and the amount are accepted |
| `SubmitExpenseScreen.AcceptedSubmissionIsClean` | src/pages/SubmitExpense.tsx:82-92 | a title of white space only is refused as missing; an accepted title is non-empty with no surrounding white space, and the amount is strictly positive |
| `SubmitExpenseScreen.SubmitExpensePage.constructor` | src/pages/SubmitExpense.tsx:26-33 | loading, not saving, no organization, an empty role, empty fields |
| `SubmitExpenseScreen.SubmitExpensePage.OnSessionChange` | src/pages/SubmitExpense.tsx:35-37 | with the session known and no user, go to /auth; the form is untouched |
| `SubmitExpenseScreen.SubmitExpensePage.OnUserChange` | src/pages/SubmitExpense.tsx:39-43 | without a user nothing changes; with one, the membership load runs |
| `SubmitExpenseScreen.SubmitExpensePage.Bootstrap` | src/pages/SubmitExpense.tsx:45-75 | the organization and raw role are recorded whenever a row came back, the navigation is the one `BootDecision` makes, loading ends, and the form fields are untouched |
| `SubmitExpenseScreen.SubmitExpensePage.HandleSubmit` | src/pages/SubmitExpense.tsx:77-126 | nothing is inserted unless `ValidateSubmission` accepts; an accepted, stored submission appends exactly one `pending` row with no receipt and the caller's organization and user, then goes to /dashboard; the other tables and the form are unchanged |
| `ApprovalsScreen.PendingListingContents` | src/pages/hr/Approvals.tsx:91-101 | the queue holds exactly the organization's expenses with a review status, each as often as stored, newest first |
| `ApprovalsScreen.RemoveIdEffect` | src/pages/hr/Approvals.tsx:118 | the local removal drops exactly the rows with the decided id and keeps the others |
| `ApprovalsScreen.RemoveIdDropsOne` | src/pages/hr/Approvals.tsx:118 | when one row of the queue has the id, the removal leaves the queue with exactly that row cut out, the others in their order |
| `ApprovalsScreen.RemoveIdDropsListedRow` | src/pages/hr/Approvals.tsx:118 | when a listed row has the id, the removal changes the shown queue |
| `ApprovalsScreen.PendingListingDistinct` | src/pages/hr/Approvals.tsx:91-101 | a table with unique expense ids gives a queue with unique ids |
| `ApprovalsScreen.DecisionOnListing` | src/pages/hr/Approvals.tsx:110-143 | on a queue loaded from a table with unique ids, a decision cuts out exactly the decided row; that is the reloaded queue when the update reaches the row, and differs from the unchanged table's queue when a listed row was left as it was |
| `ApprovalsScreen.DecisionMatchesReload` | src/pages/hr/Approvals.tsx:110-143 | when the decision reaches the row, the queue shown is exactly what reloading the queue from the updated table would list |
| `ApprovalsScreen.BootDecision` | src/pages/hr/Approvals.tsx:50-89 | an error or missing row is a load failure; the queue is listed exactly when the role (null read as `unassigned`) is exactly `hr` and the queue loads |
| `ApprovalsScreen.ApprovalsPage.constructor` | src/pages/hr/Approvals.tsx:33-38 | loading, no organization, role `unassigned`, an empty queue, nothing updating |
| `ApprovalsScreen.ApprovalsPage.OnSessionChange` | src/pages/hr/Approvals.tsx:40-42 | with the session known and no user, go to /auth; the queue is untouched |
| `ApprovalsScreen.ApprovalsPage.Bootstrap` | src/pages/hr/Approvals.tsx:50-102 | the role and organization are recorded whenever a row came back; the queue is loaded only when listed, and then mirrors the table; every other end goes to /dashboard |
| `ApprovalsScreen.ApprovalsPage.Approve` | src/pages/hr/Approvals.tsx:110-126 | as `Decide` with status `approved` |
| `ApprovalsScreen.ApprovalsPage.Reject` | src/pages/hr/Approvals.tsx:128-143 | as `Decide` with status `rejected` |
| `ApprovalsScreen.ApprovalsPage.Decide` | src/pages/hr/Approvals.tsx:110-143 | without an organization nothing happens. Otherwise, after an update without an error the row leaves the queue, and the table changes only if the update reached the row; after an error nothing changes; `updatingId` ends null. On a queue that mirrored the table exactly the decided row is cut out, the queue still mirrors the table when the update reached the row, and it no longer does when a filtered update left a listed row |
| `MemberManagerScreen.MemberListingContents` | src/pages/admin/Admin.tsx:79-87 | the list holds exactly the organization's memberships, each as often as stored, oldest first |
| `MemberManagerScreen.RoleUpdateMatchesReload` | src/pages/admin/Admin.tsx:100-112 | when the role update reaches the row, the list shown is exactly what reloading the list from the updated table would give |
| `MemberManagerScreen.RoleUpdateChangesRow` | src/pages/admin/Admin.tsx:110-112 | the local update changes the shown list whenever a listed row with that id holds another role |
| `MemberManagerScreen.ControlRules` | src/pages/admin/Admin.tsx:177-219 | admin rows are read-only in any capitalisation; the selector is usable exactly when the row is not an admin, the viewer is an admin and that row is not saving |
| `MemberManagerScreen.SelectorNeverGrantsAdmin` | src/pages/admin/Admin.tsx:34-37 | every role the selector offers is other than admin, and it only appears on non-admin rows |
| `MemberManagerScreen.BootDecision` | src/pages/admin/Admin.tsx:49-98 | an error or missing row is a load failure; a lower-cased role other than `admin` is refused; the list is loaded exactly for an admin whose list loads |
| `MemberManagerScreen.MemberManagerPage.constructor` | src/pages/admin/Admin.tsx:28-32 | loading, no organization, role `unassigned`, no members, nothing saving |
| `MemberManagerScreen.MemberManagerPage.OnSessionChange` | src/pages/admin/Admin.tsx:39-41 | with the session known and no user, go to /auth; the list is untouched |
| `MemberManagerScreen.MemberManagerPage.Bootstrap` | src/pages/admin/Admin.tsx:49-98 | the organization and lowered role are recorded whenever a row came back; a refused role goes to /dashboard; a failed load stays with no navigation; a listed page mirrors the table |
| `MemberManagerScreen.MemberManagerPage.UpdateRole` | src/pages/admin/Admin.tsx:100-125 | after an update without an error the rows with that id take the new role in the list, and in the table only if the update reached them; after an error nothing changes; `savingId` ends null. A list that mirrored the table still does when the update reached the row, and no longer does when a filtered update left a listed row with another role |
| `AdminPanelScreen.CheckAdmin` | src/pages/admin/Members.tsx:23-25 | the visitor stays exactly when a row came back whose role is exactly `admin` |
| `AdminPanelScreen.StaysOnlyAsSoleAdmin` | src/pages/admin/Members.tsx:16-25 | the visitor stays exactly with one membership, whose role is exactly `admin`, and a reachable store |
| `AdminPanelScreen.Render` | src/pages/admin/Members.tsx:31-58 | nothing is drawn while the session loads; after that the panel is drawn, whatever the role check |
| `AdminPanelScreen.AdminPanelPage.constructor` | src/pages/admin/Members.tsx:9-11 | no navigation yet |
| `AdminPanelScreen.AdminPanelPage.OnUserChange` | src/pages/admin/Members.tsx:13-29 | without a user nothing is checked; with one, /dashboard exactly when `CheckAdmin` redirects |
| `AuthScreen.InitialTab` | src/pages/Auth.tsx:22 | the first tab is sign-up exactly when `mode` is `signup` |
| `AuthScreen.ValidationVerdict` | src/pages/Auth.tsx:49-68 | the form passes exactly on a valid e-mail, a password of at least 8 UTF-16 code units and, when signing up, a full name with a non-space character; sign-up validity implies sign-in validity; sign-in ignores the name |
| `AuthScreen.PasswordMinimum` | src/pages/Auth.tsx:15 | inside the Basic Multilingual Plane the minimum is 8 characters, while four characters outside it already count as 8 |
| `AuthScreen.SignInFailureTextRewordsOnlyBadCredentials` | src/pages/Auth.tsx:85-87 | the sign-in notice rewords exactly the "Invalid login credentials" message and shows every other one as it came |
| `AuthScreen.AlreadyRegistered` | src/pages/Auth.tsx:120 | the tab switch happens exactly when the error message contains "already registered" |
| `AuthScreen.AuthPage.constructor` | src/pages/Auth.tsx:22-30 | the initial tab from `mode`, nothing loading or sent, empty fields, no messages |
| `AuthScreen.AuthPage.OnSession` | src/pages/Auth.tsx:33-47 | a signed-in visitor is sent to /dashboard |
| `AuthScreen.AuthPage.ValidateForm` | src/pages/Auth.tsx:49-68 | the messages are replaced with the validation result, and the result is true exactly when there is none |
| `AuthScreen.AuthPage.HandleSignIn` | src/pages/Auth.tsx:70-98 | an invalid form makes no call; otherwise one password sign-in call, /dashboard on success, the reworded notice on failure, and loading ends |
| `AuthScreen.AuthPage.HandleSignUp` | src/pages/Auth.tsx:100-143 | an invalid form makes no call; otherwise one sign-up call with the untrimmed name, /dashboard on success, the sign-in tab exactly on an "already registered" error, and loading ends |
| `AuthScreen.AuthPage.HandleMagicLink` | src/pages/Auth.tsx:145-180 | only the e-mail is checked, and a bad one replaces all messages with the e-mail message and makes no call; otherwise one call, and `magicLinkSent` is set on success |
| `AuthScreen.AuthPage.SelectTab` | src/pages/Auth.tsx:348-363 | clicking a tab or its link changes only the tab |
| `Journeys.DashboardCardsByRole` | src/pages/Dashboard.tsx:105-135 | the cards come from the lower-cased role; a null or `unassigned` role has none |
| `Journeys.DashboardAndPendingAgree` | src/pages/PendingApproval.tsx:26-46 | with a reachable store the dashboard and the waiting screen agree on who has no organization; a user the waiting screen keeps is one the dashboard sends there; a kept member is released |
| `Journeys.MixedCaseUnassignedBounces` | src/pages/PendingApproval.tsx:38-44 | a role that is `unassigned` in another capitalisation goes from the dashboard to /pending and from there back to /dashboard |
| `Journeys.CapitalisedUnassignedIsOne` | src/pages/Dashboard.tsx:111 | `Unassigned` is such a role |
| `Journeys.FirstJoinAwaitsRole` | src/pages/Onboarding.tsx:73-100 | after a first join the user's only row is the new `unassigned` one, the dashboard sends them to /pending, and the waiting screen keeps them |
| `Journeys.SecondJoinStrandsUser` | src/pages/Onboarding.tsx:73-100 | a member who joins a second organization ends with two rows: the dashboard shows the onboarding prompt, the waiting screen sends to /onboarding, and joining again changes nothing |
| `Journeys.FormAndDashboardOnRoles` | src/pages/SubmitExpense.tsx:60-63 | the form sends to /pending only users the dashboard also sends there; a null role, which the dashboard and the waiting screen treat as waiting, is let through to the form |
| `Journeys.SubmissionReachesQueue` | src/pages/SubmitExpense.tsx:96-106 | a stored submission is listed in its organization's HR queue, which grows by one; other organizations' queues are unchanged |
| `Journeys.DecisionLeavesQueue` | src/pages/hr/Approvals.tsx:110-143 | after a decision no row with that id is listed on reload, and every other listed row still is |
| `Journeys.RoleOptionsAreLowercase` | src/pages/admin/Admin.tsx:34-37 | every offered role is its own lower case |
| `Journeys.RoleUpdateOfOwnRow` | src/pages/admin/Admin.tsx:103-106 | setting the role of a user's only row leaves the user exactly that row, with the new role |
| `Journeys.AssignedRoleReleasesWaitingUser` | src/pages/admin/Admin.tsx:100-112 | when a waiting user is given one of the selector's roles other than `unassigned`, the waiting screen releases them and the dashboard keeps their membership with that role |
| `Journeys.HrCardAndQueueGuard` | src/pages/hr/Approvals.tsx:62-66 | the dashboard offers the approvals card to `hr` in any capitalisation, the queue admits only the exact text `hr`, and everyone it admits was offered the card |
| `Journeys.MembersCardByRole` | src/pages/Dashboard.tsx:263 | the members card is offered exactly to `admin` in any capitalisation |
| `Journeys.AdminGuards` | src/pages/admin/Admin.tsx:62-68 | the dashboard's members card and the member manager agree on who manages members; everyone the admin panel admits is among them |
| `Journeys.CapitalisedAdminSplitsScreens` | src/pages/admin/Members.tsx:23 | an `Admin` membership can manage members but is turned away by the admin panel |
| `Journeys.LogoutKeepsSession` | src/pages/PendingApproval.tsx:74 | a scenario: Logout on the waiting screen goes to /auth, which sends a signed-in user straight back to /dashboard |

## Left out

- Network, row-level security and database constraints: whether a request answers without an error is a boolean parameter of each operation. For the two updates, `applied` says whether the row policy let the update reach the row. Which rows a policy hides from a select is not modelled: every select sees the whole table.
- The e-mail schema: `isEmail` is a parameter, an uninterpreted predicate over the text.
- `Number(amount)` parsing: the amount field is held already parsed, as `SubmitExpenseScreen.Num`. `Finite` stands for every value `Number.isFinite` accepts. Floating-point rounding is not modelled.
- `Intl.NumberFormat` currency formatting, dates, toasts, spinner markup, the `Refresh` button's page reload, and the back-to-dashboard header links of the form, the queue and the member manager. None of these decides navigation or data.
- Unicode lower-casing and case folding: `Text.Lower` lowers ASCII capitals only. Other scripts are kept as they are.
- The joined profile and organization columns of the selects (names and e-mails shown beside rows). They are display-only, so the model's rows carry ids and roles only.
- Ties in `created_at`: the model orders by `createdAt` alone. Rows with equal timestamps may come back from the store in either order, while the model fixes one.
- Asynchronous interleaving: late answers, a second click while `updatingId` or `savingId` is set, and two administrators or two HR users acting at once. Each handler is modelled as running to completion.
- Ending the session on sign-out and the session subscription itself: the auth service is outside the model. The sign-in state enters as `authLoading` and the user id.
- The landing page, marketing sections, the route table of the application and the generated database types are not part of this model. Nor is creating organizations, which these screens never do.
- `DashboardScreen.DashboardPage.FetchUserData`: the profile select is kept only as far as "replaced when found". The profile's fields are not interpreted.
