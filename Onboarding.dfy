/** The onboarding screen (src/pages/Onboarding.tsx): a signed-in user types
    an organization code (the organization's slug) and joins that
    organization as an `unassigned` member. This screen never creates
    organizations. */
module OnboardingScreen {
  import opened Common
  import opened Text
  import opened Store

  /** The characters a slug may contain: `[a-z0-9-]`. */
  predicate IsSlugChar(c: char) {
    'a' <= c <= 'z' || '0' <= c <= '9' || c == '-'
  }

  /** `normalizeCode`: trim, lower-case, then drop every character outside `[a-z0-9-]`. */
  function NormalizeCode(value: string): string {
    Filter(Lower(Trim(value)), IsSlugChar)
  }

  /** A normalized code holds slug characters only. */
  lemma NormalizeCodeIsSlugSafe(value: string)
    ensures forall i :: 0 <= i < |NormalizeCode(value)| ==> IsSlugChar(NormalizeCode(value)[i])
  {
    FilterMembers(Lower(Trim(value)), IsSlugChar);
  }

  /** White space holds no slug character, before or after lowering. */
  lemma NoSlugCharsInSpace(s: string)
    requires forall i :: 0 <= i < |s| ==> IsJsSpace(s[i])
    ensures Filter(Lower(s), IsSlugChar) == []
  {
    LowerShape(s);
    forall i | 0 <= i < |Lower(s)| ensures !IsSlugChar(Lower(s)[i]) {
      SpaceIsNotSlugChar(s[i]);
    }
    FilterDropsAll(Lower(s), IsSlugChar);
  }

  /** A white-space character is kept by lowering and is not a slug character. */
  lemma SpaceIsNotSlugChar(c: char)
    requires IsJsSpace(c)
    ensures LowerChar(c) == c && !IsSlugChar(c)
  {
    SpaceIsNotUpper(c);
  }

  /** The trim is redundant: the normalized code is exactly the slug
      characters of the lower-cased input, in their original order. */
  lemma NormalizeCodeKeepsAllowedInOrder(value: string)
    ensures NormalizeCode(value) == Filter(Lower(value), IsSlugChar)
  {
    TrimIsInnerSlice(value);
    var t := Trim(value);
    var o := TrimOffset(value);
    var head, tail := value[..o], value[o + |t|..];
    assert value == head + t + tail by {
      assert value == value[..o] + value[o..o + |t|] + value[o + |t|..];
    }
    forall i | 0 <= i < |head| ensures IsJsSpace(head[i]) {
      assert head[i] == value[i];
    }
    forall i | 0 <= i < |tail| ensures IsJsSpace(tail[i]) {
      assert tail[i] == value[o + |t| + i];
    }
    NoSlugCharsInSpace(head);
    NoSlugCharsInSpace(tail);
    FilterLowerSplit(head, t, tail);
  }

  /** Lowering and filtering distribute over a three-part concatenation. */
  lemma FilterLowerSplit(a: string, b: string, c: string)
    ensures Filter(Lower(a + b + c), IsSlugChar)
         == Filter(Lower(a), IsSlugChar) + Filter(Lower(b), IsSlugChar) + Filter(Lower(c), IsSlugChar)
  {
    LowerAppend(a + b, c);
    LowerAppend(a, b);
    FilterAppend(Lower(a) + Lower(b), Lower(c), IsSlugChar);
    FilterAppend(Lower(a), Lower(b), IsSlugChar);
  }

  /** Normalizing a normalized code changes nothing. */
  lemma NormalizeCodeIdempotent(value: string)
    ensures NormalizeCode(NormalizeCode(value)) == NormalizeCode(value)
  {
    var c := NormalizeCode(value);
    NormalizeCodeIsSlugSafe(value);
    TrimFixesUnpadded(c);
    LowerFixesLowercase(c);
    FilterKeepsAll(c, IsSlugChar);
  }

  /** How a join attempt ends (each end has its own message on screen). */
  datatype JoinOutcome =
    | CodeRequired          // inline error "Organization code is required"
    | NotSignedIn           // "You must be logged in to continue"
    | OrganizationNotFound  // the slug lookup failed
    | JoinFailed            // the membership lookup or insert failed
    | Joined                // "Joined organization!", then /dashboard

  /** One join attempt on given tables: its outcome and the memberships afterwards. */
  datatype JoinStep = JoinStep(outcome: JoinOutcome, memberships: seq<Membership>)

  /** The membership row a join inserts. */
  function NewMember(id: Id, org: Id, user: Id, now: int): Membership {
    Membership(id, org, user, Some("unassigned"), now)
  }

  /** `handleJoinOrganization`, as a function of the tables it reads. The
      flags say whether each request reached the store and was accepted;
      `newId` and `now` are the id and timestamp the store gives a new row. */
  function Join(
    orgs: seq<Organization>, ms: seq<Membership>, orgCode: string, user: Option<Id>,
    orgReachable: bool, membershipReachable: bool, insertAccepted: bool, newId: Id, now: int): JoinStep
  {
    var code := NormalizeCode(orgCode);
    if code == "" then JoinStep(CodeRequired, ms)
    else if user.None? then JoinStep(NotSignedIn, ms)
    else
      match Single(Filter(orgs, HasSlug(code)), orgReachable)
      case Failed => JoinStep(OrganizationNotFound, ms)
      case Fetched(None) => JoinStep(JoinFailed, ms)  // reading `org.id` of null throws
      case Fetched(Some(org)) =>
        JoinMember(ms, org.id, user.value, membershipReachable, insertAccepted, newId, now)
  }

  /** The second half of a join, once the organization is known: look up the
      user's membership in it and insert an `unassigned` one if there is none. */
  function JoinMember(
    ms: seq<Membership>, org: Id, user: Id,
    membershipReachable: bool, insertAccepted: bool, newId: Id, now: int): JoinStep
  {
    match MaybeSingle(Filter(ms, IsOfPair(org, user)), membershipReachable)
    case Failed => JoinStep(JoinFailed, ms)
    case Fetched(Some(_)) => JoinStep(Joined, ms)
    case Fetched(None) =>
      if insertAccepted then JoinStep(Joined, ms + [NewMember(newId, org, user, now)])
      else JoinStep(JoinFailed, ms)
  }

  /** Once the code names an organization, a join is its second half. */
  lemma JoinOnceFound(
    orgs: seq<Organization>, ms: seq<Membership>, orgCode: string, user: Option<Id>,
    orgReachable: bool, membershipReachable: bool, insertAccepted: bool, newId: Id, now: int, org: Organization)
    requires NormalizeCode(orgCode) != "" && user.Some?
    requires Single(Filter(orgs, HasSlug(NormalizeCode(orgCode))), orgReachable) == Fetched(Some(org))
    ensures Join(orgs, ms, orgCode, user, orgReachable, membershipReachable, insertAccepted, newId, now)
         == JoinMember(ms, org.id, user.value, membershipReachable, insertAccepted, newId, now)
  {
  }

  /** The organization a code names: the one organization with that slug. */
  function TargetOrganization(orgs: seq<Organization>, orgCode: string): Option<Organization> {
    var hits := Filter(orgs, HasSlug(NormalizeCode(orgCode)));
    if |hits| == 1 then Some(hits[0]) else None
  }

  /** The early exits: an empty code, no user, or a failed slug lookup leave
      the memberships alone, in that order of precedence. */
  lemma JoinEarlyExits(
    orgs: seq<Organization>, ms: seq<Membership>, orgCode: string, user: Option<Id>,
    orgReachable: bool, membershipReachable: bool, insertAccepted: bool, newId: Id, now: int)
    ensures var r := Join(orgs, ms, orgCode, user, orgReachable, membershipReachable, insertAccepted, newId, now);
      && (r.outcome == CodeRequired <==> NormalizeCode(orgCode) == "")
      && (r.outcome == NotSignedIn <==> NormalizeCode(orgCode) != "" && user.None?)
      && (r.outcome == OrganizationNotFound <==>
            NormalizeCode(orgCode) != "" && user.Some?
            && (!orgReachable || TargetOrganization(orgs, orgCode).None?))
      && (r.outcome in {CodeRequired, NotSignedIn, OrganizationNotFound, JoinFailed} ==> r.memberships == ms)
  {
  }

  /** A join adds at most one row: nothing, or one `unassigned` membership of
      the user in the organization the code names. */
  lemma JoinAddsAtMostOneRow(
    orgs: seq<Organization>, ms: seq<Membership>, orgCode: string, user: Option<Id>,
    orgReachable: bool, membershipReachable: bool, insertAccepted: bool, newId: Id, now: int)
    ensures var r := Join(orgs, ms, orgCode, user, orgReachable, membershipReachable, insertAccepted, newId, now);
      || r.memberships == ms
      || (&& r.outcome == Joined && user.Some?
          && TargetOrganization(orgs, orgCode).Some?
          && Filter(ms, IsOfPair(TargetOrganization(orgs, orgCode).value.id, user.value)) == []
          && r.memberships == ms + [NewMember(newId, TargetOrganization(orgs, orgCode).value.id, user.value, now)])
  {
  }

  /** After a successful join the user has exactly one membership in the
      organization the code names. */
  lemma JoinedMeansOneRow(
    orgs: seq<Organization>, ms: seq<Membership>, orgCode: string, user: Option<Id>,
    orgReachable: bool, membershipReachable: bool, insertAccepted: bool, newId: Id, now: int)
    requires Join(orgs, ms, orgCode, user, orgReachable, membershipReachable, insertAccepted, newId, now).outcome == Joined
    ensures user.Some? && TargetOrganization(orgs, orgCode).Some?
    ensures |Filter(Join(orgs, ms, orgCode, user, orgReachable, membershipReachable, insertAccepted, newId, now).memberships,
                    IsOfPair(TargetOrganization(orgs, orgCode).value.id, user.value))| == 1
  {
    var org := TargetOrganization(orgs, orgCode).value;
    var p := IsOfPair(org.id, user.value);
    var r := Join(orgs, ms, orgCode, user, orgReachable, membershipReachable, insertAccepted, newId, now);
    if r.memberships != ms {
      var row := NewMember(newId, org.id, user.value, now);
      assert r.memberships == ms + [row];
      FilterAppend(ms, [row], p);
      FilterCons(row, [], p);
    }
  }

  /** Joining is idempotent: once a join has succeeded, joining again with the
      same code (whatever id and time the store would give a new row) again
      succeeds and adds nothing. */
  lemma JoinIdempotent(
    orgs: seq<Organization>, ms: seq<Membership>, orgCode: string, user: Option<Id>,
    insertAccepted: bool, newId: Id, now: int, insertAccepted2: bool, newId2: Id, now2: int)
    requires Join(orgs, ms, orgCode, user, true, true, insertAccepted, newId, now).outcome == Joined
    ensures var once := Join(orgs, ms, orgCode, user, true, true, insertAccepted, newId, now).memberships;
      Join(orgs, once, orgCode, user, true, true, insertAccepted2, newId2, now2) == JoinStep(Joined, once)
  {
    JoinedMeansOneRow(orgs, ms, orgCode, user, true, true, insertAccepted, newId, now);
  }

  /** The onboarding screen's state. */
  class OnboardingPage {
    var orgCode: string       // the code field
    var loading: bool
    var error: string         // the inline error under the field
    var navigations: seq<Route>

    constructor ()
      ensures orgCode == "" && !loading && error == "" && navigations == []
    {
      orgCode, loading, error, navigations := "", false, "", [];
    }

    /** `handleJoinOrganization`. */
    method HandleJoinOrganization(
      store: Backend, user: Option<Id>,
      orgReachable: bool, membershipReachable: bool, insertAccepted: bool, now: int)
      returns (outcome: JoinOutcome)
      requires store.Valid()
      modifies this, store
      ensures store.Valid()
      ensures Join(old(store.organizations), old(store.memberships), orgCode, user,
                   orgReachable, membershipReachable, insertAccepted, old(store.nextId), now)
           == JoinStep(outcome, store.memberships)
      ensures store.organizations == old(store.organizations)
      ensures store.expenses == old(store.expenses) && store.profiles == old(store.profiles)
      ensures orgCode == old(orgCode)
      ensures navigations == old(navigations) + if outcome == Joined then [Dashboard] else []
      ensures error == if outcome == CodeRequired then "Organization code is required"
                       else if outcome == NotSignedIn then old(error) else ""
      ensures loading == if outcome in {CodeRequired, NotSignedIn} then old(loading) else false
    {
      ghost var ms, newId := store.memberships, store.nextId;
      var orgs, text := store.organizations, orgCode;
      var code := NormalizeCode(text);
      if code == "" {
        error := "Organization code is required";
        return CodeRequired;
      }
      if user.None? {
        return NotSignedIn;
      }
      loading := true;
      error := "";
      // try { ... } finally { setLoading(false) }
      var found := Single(Filter(orgs, HasSlug(code)), orgReachable);
      if found.Failed? {
        outcome := OrganizationNotFound;
      } else if found.data.None? {
        outcome := JoinFailed;
      } else {
        JoinOnceFound(orgs, ms, text, user, orgReachable, membershipReachable, insertAccepted, newId, now, found.data.value);
        outcome := JoinMembership(store, found.data.value.id, user.value, membershipReachable, insertAccepted, now);
      }
      if outcome == Joined {
        navigations := navigations + [Dashboard];
      }
      loading := false;
    }

    /** The membership half of `handleJoinOrganization`: look the user's row
        up and insert an `unassigned` one when there is none. */
    static method JoinMembership(
      store: Backend, org: Id, user: Id, membershipReachable: bool, insertAccepted: bool, now: int)
      returns (outcome: JoinOutcome)
      requires store.Valid()
      modifies store
      ensures store.Valid()
      ensures JoinMember(old(store.memberships), org, user, membershipReachable, insertAccepted, old(store.nextId), now)
           == JoinStep(outcome, store.memberships)
      ensures store.organizations == old(store.organizations)
      ensures store.expenses == old(store.expenses) && store.profiles == old(store.profiles)
    {
      var existing := MaybeSingle(Filter(store.memberships, IsOfPair(org, user)), membershipReachable);
      if existing.Failed? {
        outcome := JoinFailed;
      } else if existing.data.Some? {
        outcome := Joined;
      } else {
        var ok := store.InsertMembership(org, user, "unassigned", now, insertAccepted);
        outcome := if ok then Joined else JoinFailed;
      }
    }
  }
}
