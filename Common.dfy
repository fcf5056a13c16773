/** Shared vocabulary of the pages: optional values, results, routes, the two
    shapes in which the data store answers a one-row select, and the sequence
    operations (filter, map, ordering) that its queries are built from. */
module Common {

  /** A value that may be absent; `GetOr` is the `??` operator. */
  datatype Option<+T> = None | Some(value: T) {
    function GetOr(default: T): T {
      match this
      case Some(v) => v
      case None => default
    }
  }

  /** The client-side routes the pages navigate to. */
  datatype Route =
    | Home | Auth | Dashboard | Onboarding | Pending
    | NewExpense | AdminMembers | HrApprovals | AccountsExport

  /** The URL path of a route. */
  function Path(r: Route): (p: string)
    ensures |p| > 0 && p[0] == '/'
  {
    match r
    case Home => "/"
    case Auth => "/auth"
    case Dashboard => "/dashboard"
    case Onboarding => "/onboarding"
    case Pending => "/pending"
    case NewExpense => "/expenses/new"
    case AdminMembers => "/admin/members"
    case HrApprovals => "/hr/approvals"
    case AccountsExport => "/accounts/export"
  }

  /** Each route has its own path, so the path a page navigates to names the route. */
  lemma PathNamesRoute(r1: Route, r2: Route)
    ensures Path(r1) == Path(r2) <==> r1 == r2
  {
  }

  /** The effect that the dashboard, waiting, form, queue and member-manager
      screens run on a session change: once the session is known (not
      loading) and there is no user, go to /auth. */
  function SessionRedirect(authLoading: bool, signedIn: bool): (r: Option<Route>)
    ensures r.Some? <==> !authLoading && !signedIn
    ensures r.Some? ==> r.value == Auth
  {
    if !authLoading && !signedIn then Some(Auth) else None
  }

  /** The `{ data, error }` answer of a select: an error, or data that may be null. */
  datatype Fetch<T> = Failed | Fetched(data: Option<T>)

  /** A select ending in `.single()`: it answers with the row when exactly one
      row matches; no row or several rows are an error, as is an unreachable
      store (`reachable` is false). */
  function Single<T>(rows: seq<T>, reachable: bool): (f: Fetch<T>)
    ensures f.Fetched? <==> reachable && |rows| == 1
    ensures f.Fetched? ==> f.data == Some(rows[0])
  {
    if reachable && |rows| == 1 then Fetched(Some(rows[0])) else Failed
  }

  /** A select ending in `.maybeSingle()`: no matching row is a normal null
      answer; several rows are an error. */
  function MaybeSingle<T>(rows: seq<T>, reachable: bool): (f: Fetch<T>)
    ensures f.Fetched? <==> reachable && |rows| <= 1
    ensures f.Fetched? ==> (f.data.None? <==> rows == [])
    ensures f.Fetched? && f.data.Some? ==> f.data.value == rows[0]
  {
    if !reachable || |rows| > 1 then Failed
    else if rows == [] then Fetched(None)
    else Fetched(Some(rows[0]))
  }

  /** The two forms agree wherever `.single()` answers; they differ exactly on
      an empty match, which `.single()` reports as an error and
      `.maybeSingle()` as a null row. */
  lemma SingleAgreesWithMaybeSingle<T>(rows: seq<T>, reachable: bool)
    ensures Single(rows, reachable).Fetched? ==> MaybeSingle(rows, reachable) == Single(rows, reachable)
    ensures Single(rows, reachable) != MaybeSingle(rows, reachable) <==> reachable && rows == []
  {
  }

  // ---------------------------------------------------------------------
  // Sequence operations
  // ---------------------------------------------------------------------

  /** The elements of `s` that satisfy `p`, in their original order. */
  function Filter<T>(s: seq<T>, p: T -> bool): (r: seq<T>)
    ensures |r| <= |s|
  {
    if s == [] then []
    else (if p(s[0]) then [s[0]] else []) + Filter(s[1..], p)
  }

  /** What the filter keeps: exactly the elements that satisfy the predicate. */
  lemma {:induction false} FilterMembers<T>(s: seq<T>, p: T -> bool)
    ensures forall i :: 0 <= i < |Filter(s, p)| ==> Filter(s, p)[i] in s && p(Filter(s, p)[i])
    ensures forall i :: 0 <= i < |s| && p(s[i]) ==> s[i] in Filter(s, p)
  {
    if s != [] {
      FilterMembers(s[1..], p);
      assert s == [s[0]] + s[1..];
      FilterCons(s[0], s[1..], p);
      var r, r1 := Filter(s, p), Filter(s[1..], p);
      forall i | 0 <= i < |r| ensures r[i] in s && p(r[i]) {
        if p(s[0]) && i == 0 {
        } else {
          var j := if p(s[0]) then i - 1 else i;
          assert r[i] == r1[j];
        }
      }
      forall i | 0 <= i < |s| && p(s[i]) ensures s[i] in r {
        if i > 0 {
          assert s[i] == s[1..][i - 1];
        }
      }
    }
  }

  /** Filtering a sequence that starts with `x`. */
  lemma FilterCons<T>(x: T, s: seq<T>, p: T -> bool)
    ensures Filter([x] + s, p) == (if p(x) then [x] else []) + Filter(s, p)
  {
    assert ([x] + s)[0] == x;
    assert ([x] + s)[1..] == s;
  }

  lemma {:induction false} FilterAppend<T>(a: seq<T>, b: seq<T>, p: T -> bool)
    ensures Filter(a + b, p) == Filter(a, p) + Filter(b, p)
  {
    if a == [] {
      assert a + b == b;
    } else {
      assert a + b == [a[0]] + (a[1..] + b);
      FilterCons(a[0], a[1..] + b, p);
      FilterAppend(a[1..], b, p);
      assert a == [a[0]] + a[1..];
      FilterCons(a[0], a[1..], p);
    }
  }

  /** Filtering a sequence whose elements all satisfy the predicate keeps it whole. */
  lemma {:induction false} FilterKeepsAll<T>(s: seq<T>, p: T -> bool)
    requires forall i :: 0 <= i < |s| ==> p(s[i])
    ensures Filter(s, p) == s
  {
    if s != [] {
      FilterKeepsAll(s[1..], p);
    }
  }

  /** Filtering a sequence none of whose elements satisfy the predicate leaves nothing. */
  lemma {:induction false} FilterDropsAll<T>(s: seq<T>, p: T -> bool)
    requires forall i :: 0 <= i < |s| ==> !p(s[i])
    ensures Filter(s, p) == []
  {
    if s != [] {
      FilterDropsAll(s[1..], p);
    }
  }

  /** Filtering out the one element that fails the predicate leaves the others
      in their order. */
  lemma {:induction false} FilterDropsOne<T>(s: seq<T>, p: T -> bool, k: nat)
    requires k < |s| && !p(s[k])
    requires forall i :: 0 <= i < |s| && i != k ==> p(s[i])
    ensures Filter(s, p) == s[..k] + s[k + 1..]
  {
    assert s == [s[0]] + s[1..];
    FilterCons(s[0], s[1..], p);
    if k == 0 {
      FilterKeepsAll(s[1..], p);
    } else {
      FilterDropsOne(s[1..], p, k - 1);
      assert s[1..][..k - 1] + s[1..][k..] == s[1..k] + s[k + 1..];
      assert s[..k] == [s[0]] + s[1..k];
    }
  }

  /** `f` applied to every element, in order (JavaScript `Array.map`). */
  function MapSeq<T>(s: seq<T>, f: T -> T): (r: seq<T>)
    ensures |r| == |s|
    ensures forall i :: 0 <= i < |s| ==> r[i] == f(s[i])
  {
    if s == [] then [] else [f(s[0])] + MapSeq(s[1..], f)
  }

  lemma MapSeqCons<T>(x: T, s: seq<T>, f: T -> T)
    ensures MapSeq([x] + s, f) == [f(x)] + MapSeq(s, f)
  {
    assert ([x] + s)[1..] == s;
  }

  /** Mapping then filtering, when the predicate does not see what the map changes. */
  lemma {:induction false} FilterMapCommute<T>(s: seq<T>, f: T -> T, p: T -> bool)
    requires forall x :: p(f(x)) == p(x)
    ensures Filter(MapSeq(s, f), p) == MapSeq(Filter(s, p), f)
  {
    if s != [] {
      assert s == [s[0]] + s[1..];
      MapSeqCons(s[0], s[1..], f);
      FilterCons(f(s[0]), MapSeq(s[1..], f), p);
      FilterCons(s[0], s[1..], p);
      FilterMapCommute(s[1..], f, p);
      if p(s[0]) {
        MapSeqCons(s[0], Filter(s[1..], p), f);
      }
    }
  }

  /** Mapping then filtering by `p`, when on every element that passes `p`
      after the map the map changed nothing, and `p` holds after the map
      exactly where `p` and `q` held before: the same as filtering twice. */
  lemma {:induction false} FilterMapAsFilter<T>(s: seq<T>, f: T -> T, p: T -> bool, q: T -> bool)
    requires forall x :: p(f(x)) == (p(x) && q(x))
    requires forall x :: p(x) && q(x) ==> f(x) == x
    ensures Filter(MapSeq(s, f), p) == Filter(Filter(s, p), q)
  {
    if s != [] {
      assert s == [s[0]] + s[1..];
      MapSeqCons(s[0], s[1..], f);
      FilterCons(f(s[0]), MapSeq(s[1..], f), p);
      FilterCons(s[0], s[1..], p);
      FilterMapAsFilter(s[1..], f, p, q);
      assert p(f(s[0])) == (p(s[0]) && q(s[0]));
      var f1 := Filter(s[1..], p);
      if p(s[0]) {
        assert Filter(s, p) == [s[0]] + f1;
        FilterCons(s[0], f1, q);
        if q(s[0]) {
          assert f(s[0]) == s[0];
        }
      } else {
        assert Filter(s, p) == f1;
      }
    }
  }

  // ---------------------------------------------------------------------
  // Ordering (a select's `.order(column)`)
  // ---------------------------------------------------------------------

  /** `s` is in non-decreasing order of `key`. */
  ghost predicate SortedBy<T>(s: seq<T>, key: T -> int) {
    forall i, j :: 0 <= i < j < |s| ==> key(s[i]) <= key(s[j])
  }

  /** In a sorted sequence no element has a key below the first one's. */
  lemma SortedHeadBound<T>(s: seq<T>, key: T -> int)
    requires SortedBy(s, key) && s != []
    ensures forall x :: x in s ==> key(s[0]) <= key(x)
  {
    forall x | x in s ensures key(s[0]) <= key(x) {
      var k :| 0 <= k < |s| && s[k] == x;
      if k > 0 {
        assert key(s[0]) <= key(s[k]);
      }
    }
  }

  /** A sorted sequence stays sorted behind an element whose key bounds it from below. */
  lemma ConsSorted<T>(y: T, s: seq<T>, key: T -> int)
    requires SortedBy(s, key)
    requires forall i :: 0 <= i < |s| ==> key(y) <= key(s[i])
    ensures SortedBy([y] + s, key)
  {
    var r := [y] + s;
    forall i, j | 0 <= i < j < |r| ensures key(r[i]) <= key(r[j]) {
      assert r[j] == s[j - 1];
      if i > 0 {
        assert r[i] == s[i - 1];
      }
    }
  }

  /** A lower bound on keys carries over to a sequence with the same elements plus `x`. */
  lemma BoundCarries<T>(r: seq<T>, s: seq<T>, x: T, key: T -> int, b: int)
    requires multiset(r) == multiset(s) + multiset{x}
    requires b <= key(x)
    requires forall i :: 0 <= i < |s| ==> b <= key(s[i])
    ensures forall i :: 0 <= i < |r| ==> b <= key(r[i])
  {
    forall i | 0 <= i < |r| ensures b <= key(r[i]) {
      var y := r[i];
      assert y in multiset(r);
      if y != x {
        assert y in multiset(s);
        var k :| 0 <= k < |s| && s[k] == y;
      }
    }
  }

  /** `x` placed before the first element whose key is not below its own. */
  function InsertBy<T>(x: T, s: seq<T>, key: T -> int): (r: seq<T>)
    requires SortedBy(s, key)
    ensures SortedBy(r, key)
    ensures multiset(r) == multiset(s) + multiset{x}
  {
    if s == [] then [x]
    else if key(x) <= key(s[0]) then
      ConsSorted(x, s, key);
      [x] + s
    else
      assert s == [s[0]] + s[1..];
      var rest := InsertBy(x, s[1..], key);
      BoundCarries(rest, s[1..], x, key, key(s[0]));
      ConsSorted(s[0], rest, key);
      [s[0]] + rest
  }

  /** The rows of `s` in non-decreasing order of `key`; rows with equal keys
      keep their relative order. */
  function SortBy<T>(s: seq<T>, key: T -> int): (r: seq<T>)
    ensures SortedBy(r, key)
    ensures multiset(r) == multiset(s)
  {
    if s == [] then []
    else
      assert s == [s[0]] + s[1..];
      InsertBy(s[0], SortBy(s[1..], key), key)
  }

  /** No two elements of `s` share a value of `f` (an id column, say). */
  ghost predicate DistinctBy<T>(s: seq<T>, f: T -> int) {
    forall i, j :: 0 <= i < j < |s| ==> f(s[i]) != f(s[j])
  }

  lemma DistinctTail<T>(s: seq<T>, f: T -> int)
    requires DistinctBy(s, f) && s != []
    ensures DistinctBy(s[1..], f)
    ensures forall i :: 0 <= i < |s[1..]| ==> f(s[1..][i]) != f(s[0])
  {
    forall i, j | 0 <= i < j < |s[1..]| ensures f(s[1..][i]) != f(s[1..][j]) {
      assert s[1..][i] == s[i + 1] && s[1..][j] == s[j + 1];
    }
    forall i | 0 <= i < |s[1..]| ensures f(s[1..][i]) != f(s[0]) {
      assert s[1..][i] == s[i + 1];
    }
  }

  lemma ConsDistinct<T>(y: T, s: seq<T>, f: T -> int)
    requires DistinctBy(s, f)
    requires forall x :: x in s ==> f(x) != f(y)
    ensures DistinctBy([y] + s, f)
  {
    var r := [y] + s;
    forall i, j | 0 <= i < j < |r| ensures f(r[i]) != f(r[j]) {
      assert r[j] == s[j - 1];
      if i > 0 {
        assert r[i] == s[i - 1];
      }
    }
  }

  /** An element of a sequence is one of its positions, so its `f` differs
      from every value the positions avoid. */
  lemma AvoidsAll<T>(s: seq<T>, f: T -> int, v: int)
    requires forall i :: 0 <= i < |s| ==> f(s[i]) != v
    ensures forall x :: x in s ==> f(x) != v
  {
    forall x | x in s ensures f(x) != v {
      var k :| 0 <= k < |s| && s[k] == x;
    }
  }

  /** Filtering keeps distinct values distinct. */
  lemma {:induction false} FilterDistinct<T>(s: seq<T>, p: T -> bool, f: T -> int)
    requires DistinctBy(s, f)
    ensures DistinctBy(Filter(s, p), f)
  {
    if s != [] {
      DistinctTail(s, f);
      FilterDistinct(s[1..], p, f);
      assert s == [s[0]] + s[1..];
      FilterCons(s[0], s[1..], p);
      if p(s[0]) {
        var r := Filter(s[1..], p);
        FilterMembers(s[1..], p);
        AvoidsAll(s[1..], f, f(s[0]));
        forall x | x in r ensures f(x) != f(s[0]) {
          var k :| 0 <= k < |r| && r[k] == x;
          assert r[k] in s[1..];
        }
        ConsDistinct(s[0], r, f);
      }
    }
  }

  /** Every element of a sequence with the elements of `s` plus `x` is `x` or one of `s`. */
  lemma InsertedFrom<T>(r: seq<T>, s: seq<T>, x: T)
    requires multiset(r) == multiset(s) + multiset{x}
    ensures forall z :: z in r ==> z == x || z in s
  {
    forall z | z in r ensures z == x || z in s {
      assert z in multiset(r);
    }
  }

  /** Inserting an element whose value no element has keeps values distinct. */
  lemma {:induction false} InsertDistinct<T>(x: T, s: seq<T>, key: T -> int, f: T -> int)
    requires SortedBy(s, key) && DistinctBy(s, f)
    requires forall y :: y in s ==> f(y) != f(x)
    ensures DistinctBy(InsertBy(x, s, key), f)
  {
    if s == [] {
    } else if key(x) <= key(s[0]) {
      ConsDistinct(x, s, f);
    } else {
      assert s == [s[0]] + s[1..];
      DistinctTail(s, f);
      var rest := InsertBy(x, s[1..], key);
      forall y | y in s[1..] ensures f(y) != f(x) {
        assert y in s;
      }
      InsertDistinct(x, s[1..], key, f);
      InsertedFrom(rest, s[1..], x);
      AvoidsAll(s[1..], f, f(s[0]));
      ConsDistinct(s[0], rest, f);
    }
  }

  /** Ordering keeps distinct values distinct. */
  lemma {:induction false} SortDistinct<T>(s: seq<T>, key: T -> int, f: T -> int)
    requires DistinctBy(s, f)
    ensures DistinctBy(SortBy(s, key), f)
  {
    if s != [] {
      assert s == [s[0]] + s[1..];
      DistinctTail(s, f);
      SortDistinct(s[1..], key, f);
      var r := SortBy(s[1..], key);
      AvoidsAll(s[1..], f, f(s[0]));
      forall y | y in r ensures f(y) != f(s[0]) {
        assert y in multiset(r);
        assert y in multiset(s[1..]);
      }
      InsertDistinct(s[0], r, key, f);
    }
  }

  /** Ordering commutes with a map that leaves every key alone. */
  lemma {:induction false} InsertMapCommute<T>(x: T, s: seq<T>, key: T -> int, f: T -> T)
    requires SortedBy(s, key) && SortedBy(MapSeq(s, f), key)
    requires forall y :: key(f(y)) == key(y)
    ensures InsertBy(f(x), MapSeq(s, f), key) == MapSeq(InsertBy(x, s, key), f)
  {
    if s == [] {
    } else if key(x) <= key(s[0]) {
      assert s == [s[0]] + s[1..];
      MapSeqCons(x, s, f);
    } else {
      assert s == [s[0]] + s[1..];
      MapSeqCons(s[0], s[1..], f);
      InsertMapCommute(x, s[1..], key, f);
      MapSeqCons(s[0], InsertBy(x, s[1..], key), f);
    }
  }

  lemma {:induction false} SortMapCommute<T>(s: seq<T>, key: T -> int, f: T -> T)
    requires forall y :: key(f(y)) == key(y)
    ensures SortBy(MapSeq(s, f), key) == MapSeq(SortBy(s, key), f)
  {
    if s != [] {
      assert s == [s[0]] + s[1..];
      MapSeqCons(s[0], s[1..], f);
      SortMapCommute(s[1..], key, f);
      InsertMapCommute(s[0], SortBy(s[1..], key), key, f);
    }
  }

  /** Filtering keeps a sequence sorted. */
  lemma {:induction false} FilterSorted<T>(s: seq<T>, key: T -> int, p: T -> bool)
    requires SortedBy(s, key)
    ensures SortedBy(Filter(s, p), key)
  {
    if s != [] {
      assert s == [s[0]] + s[1..];
      FilterSorted(s[1..], key, p);
      FilterCons(s[0], s[1..], p);
      var rest := Filter(s[1..], p);
      FilterMembers(s[1..], p);
      SortedHeadBound(s, key);
      forall i | 0 <= i < |rest| ensures key(s[0]) <= key(rest[i]) {
        assert rest[i] in rest;
        assert rest[i] in s;
      }
      if p(s[0]) {
        ConsSorted(s[0], rest, key);
      }
    }
  }

  /** Inserting commutes with filtering (the sort is stable). */
  lemma {:induction false} InsertFilterCommute<T>(x: T, s: seq<T>, key: T -> int, p: T -> bool)
    requires SortedBy(s, key)
    ensures SortedBy(Filter(s, p), key)
    ensures Filter(InsertBy(x, s, key), p)
         == if p(x) then InsertBy(x, Filter(s, p), key) else Filter(s, p)
    decreases |s|, 1
  {
    FilterSorted(s, key, p);
    if s == [] {
      FilterCons(x, [], p);
    } else if key(x) <= key(s[0]) {
      InsertFilterFront(x, s, key, p);
    } else {
      InsertFilterBehind(x, s, key, p);
    }
  }

  lemma InsertFilterFront<T>(x: T, s: seq<T>, key: T -> int, p: T -> bool)
    requires SortedBy(s, key) && s != [] && key(x) <= key(s[0])
    requires SortedBy(Filter(s, p), key)
    ensures Filter(InsertBy(x, s, key), p)
         == if p(x) then InsertBy(x, Filter(s, p), key) else Filter(s, p)
  {
    assert InsertBy(x, s, key) == [x] + s;
    FilterCons(x, s, p);
    var fs := Filter(s, p);
    if p(x) && fs != [] {
      FilterMembers(s, p);
      SortedHeadBound(s, key);
      assert fs[0] in s;
      assert InsertBy(x, fs, key) == [x] + fs;
    }
  }

  lemma {:induction false} InsertFilterBehind<T>(x: T, s: seq<T>, key: T -> int, p: T -> bool)
    requires SortedBy(s, key) && s != [] && key(x) > key(s[0])
    requires SortedBy(Filter(s, p), key)
    ensures Filter(InsertBy(x, s, key), p)
         == if p(x) then InsertBy(x, Filter(s, p), key) else Filter(s, p)
    decreases |s|, 0
  {
    assert s == [s[0]] + s[1..];
    var rest := InsertBy(x, s[1..], key);
    assert InsertBy(x, s, key) == [s[0]] + rest;
    InsertFilterCommute(x, s[1..], key, p);
    FilterCons(s[0], rest, p);
    FilterCons(s[0], s[1..], p);
    var f1 := Filter(s[1..], p);
    if p(s[0]) {
      assert Filter(s, p) == [s[0]] + f1;
      if p(x) {
        assert ([s[0]] + f1)[1..] == f1;
        assert InsertBy(x, [s[0]] + f1, key) == [s[0]] + InsertBy(x, f1, key);
      }
    } else {
      assert Filter(s, p) == f1;
    }
  }

  lemma {:induction false} SortFilterCommute<T>(s: seq<T>, key: T -> int, p: T -> bool)
    ensures Filter(SortBy(s, key), p) == SortBy(Filter(s, p), key)
  {
    if s != [] {
      assert s == [s[0]] + s[1..];
      var t := SortBy(s[1..], key);
      assert SortBy(s, key) == InsertBy(s[0], t, key);
      SortFilterCommute(s[1..], key, p);
      InsertFilterCommute(s[0], t, key, p);
      FilterCons(s[0], s[1..], p);
      var f1 := Filter(s[1..], p);
      if p(s[0]) {
        assert Filter(s, p) == [s[0]] + f1;
        assert ([s[0]] + f1)[1..] == f1;
        assert SortBy([s[0]] + f1, key) == InsertBy(s[0], SortBy(f1, key), key);
      } else {
        assert Filter(s, p) == f1;
      }
    }
  }
}
