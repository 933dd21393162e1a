/** The listing rules of getProjects (src/controllers/project.controller.js): query
    defaults, the projects a user may see, the sort stage, the page slice taken by
    `$skip`/`$limit`, and the `$facet` metadata. The sort field's value is abstracted
    as `rank`, the position of a project's sortField value in the collation order. */
module Pagination {
  import opened Wrappers
  import opened MemberSchema
  import opened Registry

  /** The query string; an absent parameter takes its default. */
  datatype ProjectQuery = ProjectQuery(page: Option<int>, limit: Option<int>, sortOrder: Option<string>, sortField: Option<string>, search: Option<string>)

  datatype PageMeta = PageMeta(total: nat, page: int, limit: int, totalPages: nat)

  datatype ProjectsPage = ProjectsPage(projects: seq<Project>, meta: PageMeta, message: string)

  /** Page and limit, when given, are positive numbers. */
  predicate WellFormedQuery(q: ProjectQuery) {
    (q.page.None? || q.page.value >= 1) && (q.limit.None? || q.limit.value >= 1)
  }

  function PageNumber(q: ProjectQuery): int {
    q.page.GetOr(1)
  }

  function LimitNumber(q: ProjectQuery): int {
    q.limit.GetOr(10)
  }

  /** The number of sorted rows that come before the requested page. */
  function Skip(q: ProjectQuery): (r: nat)
    requires WellFormedQuery(q)
    ensures q.page.None? ==> r == 0
    ensures q.page.Some? && q.limit.None? ==> r == (q.page.value - 1) * 10
    ensures r + LimitNumber(q) == PageNumber(q) * LimitNumber(q)
  {
    var before: nat := PageNumber(q) - 1;
    var limit: nat := LimitNumber(q);
    MulSucc(before, limit);
    before * limit
  }

  lemma MulSucc(a: nat, b: nat)
    ensures a * b >= 0
    ensures a * b + b == (a + 1) * b
  {
  }

  /** 1 (ascending) exactly when sortOrder is "asc"; -1 (descending) otherwise,
      including the default "desc". */
  function SortDirection(sortOrder: Option<string>): (r: int)
    ensures r == 1 <==> sortOrder == Some("asc")
    ensures r == -1 <==> sortOrder != Some("asc")
    ensures sortOrder.None? ==> r == -1
  {
    if sortOrder.GetOr("desc") == "asc" then 1 else -1
  }

  /** The `$match` stage: a user sees the projects they are a member of and the
      projects they created. */
  predicate CanSee(store: Store, user: UserId, p: Project) {
    (p.id, user) in store.members || p.createdBy == user
  }

  /** The rows of `ps` that `keep` accepts, in their original order. */
  function Filter(ps: seq<Project>, keep: Project -> bool): (r: seq<Project>)
    ensures |r| <= |ps|
    ensures forall p :: p in r <==> p in ps && keep(p)
    ensures multiset(r) <= multiset(ps)
    ensures forall p :: multiset(r)[p] == if keep(p) then multiset(ps)[p] else 0
  {
    if ps == [] then []
    else
      assert ps == [ps[0]] + ps[1..];
      if keep(ps[0]) then [ps[0]] + Filter(ps[1..], keep)
      else Filter(ps[1..], keep)
  }

  /** A match stage over a concatenation is the match stage over each part, one
      after the other: together with Filter on a single row this fixes the order
      of the rows it keeps. */
  lemma {:induction false} FilterAppend(a: seq<Project>, b: seq<Project>, keep: Project -> bool)
    ensures Filter(a + b, keep) == Filter(a, keep) + Filter(b, keep)
  {
    if a == [] {
      assert a + b == b;
    } else {
      assert (a + b)[1..] == a[1..] + b;
      FilterAppend(a[1..], b, keep);
    }
  }

  /** The visible projects, in collection order. */
  function Visible(store: Store, user: UserId): (r: seq<Project>)
    ensures forall p :: p in r <==> p in store.projects && CanSee(store, user, p)
  {
    Filter(store.projects, p => CanSee(store, user, p))
  }

  /** The characters String.prototype.trim removes: the white space characters
      (tab, vertical tab, form feed, space, no-break space, byte-order mark and the
      space separators) and the line terminators. */
  predicate IsSpace(c: char) {
    || c in {'\t', '\U{000B}', '\U{000C}', ' ', '\U{00A0}', '\U{FEFF}'}
    || c in {'\U{1680}', '\U{202F}', '\U{205F}', '\U{3000}'}
    || '\U{2000}' <= c <= '\U{200A}'
    || c in {'\n', '\r', '\U{2028}', '\U{2029}'}
  }

  /** The first position at or after `i` that does not hold white space (|s| when
      there is none). */
  function FirstNonSpace(s: string, i: nat): (k: nat)
    requires i <= |s|
    decreases |s| - i
    ensures i <= k <= |s|
    ensures forall j :: i <= j < k ==> IsSpace(s[j])
    ensures k == |s| || !IsSpace(s[k])
  {
    if i == |s| || !IsSpace(s[i]) then i else FirstNonSpace(s, i + 1)
  }

  /** The end of `s[lo..hi]` once its trailing white space is dropped. */
  function EndBeforeSpace(s: string, lo: nat, hi: nat): (k: nat)
    requires lo <= hi <= |s|
    decreases hi - lo
    ensures lo <= k <= hi
    ensures forall j :: k <= j < hi ==> IsSpace(s[j])
    ensures k == lo || !IsSpace(s[k - 1])
  {
    if hi == lo || !IsSpace(s[hi - 1]) then hi else EndBeforeSpace(s, lo, hi - 1)
  }

  /** String.prototype.trim: the slice of `s` that starts at its first character
      that is not white space and ends after its last one. Everything cut off on
      either side is white space; the result is empty iff `s` is all white space,
      and otherwise starts and ends with a character that is not. */
  function Trim(s: string): (r: string)
    ensures var lo := FirstNonSpace(s, 0);
      && lo + |r| <= |s| && r == s[lo..lo + |r|]
      && (forall j :: 0 <= j < lo ==> IsSpace(s[j]))
      && (forall j :: lo + |r| <= j < |s| ==> IsSpace(s[j]))
    ensures r == [] <==> forall i :: 0 <= i < |s| ==> IsSpace(s[i])
    ensures r != [] ==> !IsSpace(r[0]) && !IsSpace(r[|r| - 1])
  {
    var lo := FirstNonSpace(s, 0);
    var hi := EndBeforeSpace(s, lo, |s|);
    assert hi > lo ==> s[lo..hi][0] == s[lo] && s[lo..hi][hi - lo - 1] == s[hi - 1];
    s[lo..hi]
  }

  /** The search stage is in the pipeline: a search text was given and
      `search.trim()` is not empty, that is, some character of it is not white space. */
  function SearchActive(search: Option<string>): (r: bool)
    ensures r <==> search.Some? && exists i :: 0 <= i < |search.value| && !IsSpace(search.value[i])
  {
    search.Some? && Trim(search.value) != ""
  }

  /** The projects entering the sort stage: the visible ones, narrowed to those
      `matches` accepts when a search is active. `matches` stands for the
      case-insensitive regex match of the search text against the project's name,
      description and creator's username, full name and e-mail. */
  function Listed(store: Store, user: UserId, search: Option<string>, matches: Project -> bool): (r: seq<Project>)
    ensures forall p :: p in r <==> p in store.projects && CanSee(store, user, p) && (SearchActive(search) ==> matches(p))
    ensures !SearchActive(search) ==> r == Visible(store, user)
  {
    if SearchActive(search) then Filter(Visible(store, user), matches) else Visible(store, user)
  }

  /** `a` may come before `b` in direction `dir` (1 ascending, -1 descending). */
  predicate Before(rank: Project -> int, dir: int, a: Project, b: Project) {
    if dir == 1 then rank(a) <= rank(b) else rank(a) >= rank(b)
  }

  ghost predicate SortedBy(rank: Project -> int, dir: int, s: seq<Project>) {
    forall i, j :: 0 <= i < j < |s| ==> Before(rank, dir, s[i], s[j])
  }

  /** Inserts `x` into a sorted sequence, keeping it sorted. */
  function Insert(rank: Project -> int, dir: int, x: Project, s: seq<Project>): (r: seq<Project>)
    requires SortedBy(rank, dir, s)
    ensures multiset(r) == multiset(s) + multiset{x}
    ensures SortedBy(rank, dir, r)
  {
    if s == [] then [x]
    else if Before(rank, dir, x, s[0]) then [x] + s
    else
      var rest := Insert(rank, dir, x, s[1..]);
      assert s == [s[0]] + s[1..];
      HeadBeforeInserted(rank, dir, x, s, rest);
      [s[0]] + rest
  }

  /** The head of a sorted sequence may precede every row of the sequence its tail
      became after inserting `x`, when `x` itself may not precede the head. */
  lemma HeadBeforeInserted(rank: Project -> int, dir: int, x: Project, s: seq<Project>, rest: seq<Project>)
    requires s != [] && SortedBy(rank, dir, s) && !Before(rank, dir, x, s[0])
    requires multiset(rest) == multiset(s[1..]) + multiset{x}
    requires SortedBy(rank, dir, rest)
    ensures SortedBy(rank, dir, [s[0]] + rest)
  {
    forall y | y in rest
      ensures Before(rank, dir, s[0], y)
    {
      assert y in multiset(rest);
      if y != x {
        assert y in multiset(s[1..]);
        var k :| 0 <= k < |s[1..]| && s[1..][k] == y;
        assert s[k + 1] == y;
      }
    }
    var t := [s[0]] + rest;
    forall i, j | 0 <= i < j < |t|
      ensures Before(rank, dir, t[i], t[j])
    {
      if i == 0 {
        assert t[j] == rest[j - 1];
        assert t[j] in rest;
      } else {
        assert t[i] == rest[i - 1] && t[j] == rest[j - 1];
      }
    }
  }

  /** The `$sort` stage: a permutation of its input, ordered by rank in direction
      `dir`. Rows of equal rank keep no particular order. */
  function Sort(rank: Project -> int, dir: int, s: seq<Project>): (r: seq<Project>)
    ensures multiset(r) == multiset(s)
    ensures |r| == |s|
    ensures SortedBy(rank, dir, r)
  {
    if s == [] then []
    else
      var r := Insert(rank, dir, s[0], Sort(rank, dir, s[1..]));
      assert s == [s[0]] + s[1..];
      assert multiset(s) == multiset{s[0]} + multiset(s[1..]);
      r
  }

  /** Sorting neither adds nor drops a row. */
  lemma SortKeepsRows(rank: Project -> int, dir: int, s: seq<Project>)
    ensures forall p :: p in Sort(rank, dir, s) <==> p in s
  {
    var r := Sort(rank, dir, s);
    forall p ensures p in r <==> p in s {
      assert p in r <==> p in multiset(r);
      assert p in s <==> p in multiset(s);
    }
  }

  /** `rows` are the rows of `sorted` from position `skip` on, at most `limit` of
      them: none when `skip` is past the end, otherwise min(remaining, limit). */
  ghost predicate IsWindow<T>(rows: seq<T>, sorted: seq<T>, skip: nat, limit: nat) {
    && (skip >= |sorted| ==> rows == [])
    && (skip < |sorted| ==> |rows| == Min(|sorted| - skip, limit))
    && (forall i :: 0 <= i < |rows| ==> skip + i < |sorted| && rows[i] == sorted[skip + i])
  }

  /** `$skip` followed by `$limit`: the rows from position `skip` on, at most
      `limit` of them. */
  function PageSlice<T>(sorted: seq<T>, skip: nat, limit: nat): (r: seq<T>)
    ensures IsWindow(r, sorted, skip, limit)
  {
    if skip >= |sorted| then []
    else
      var rest := sorted[skip..];
      if |rest| <= limit then rest else rest[..limit]
  }

  /** ceil(n / d) on naturals. */
  function CeilDiv(n: nat, d: nat): (r: nat)
    requires d >= 1
    ensures n == 0 <==> r == 0
    ensures n >= 1 ==> (r - 1) * d < n <= r * d
  {
    (n + d - 1) / d
  }

  /** The `metaData` facet: `$count` emits nothing for an empty input, and the
      handler then falls back to zero totals with page and limit echoed back. */
  function FacetMeta(total: nat, page: int, limit: int): (r: PageMeta)
    requires limit >= 1
    ensures r.total == total && r.page == page && r.limit == limit
    ensures total >= 1 ==> (r.totalPages - 1) * limit < total <= r.totalPages * limit
    ensures total == 0 ==> r == PageMeta(0, page, limit, 0)
  {
    if total == 0 then PageMeta(0, page, limit, 0)
    else PageMeta(total, page, limit, CeilDiv(total, limit))
  }

  /** The `$facet` stage over the sorted listing: the window that starts after
      `skip` rows and is at most `limit` long, the listing's metadata, and the
      message for an empty page. */
  function ListingPage(sorted: seq<Project>, skip: nat, page: int, limit: nat): (r: ProjectsPage)
    requires limit >= 1
    ensures r.meta == FacetMeta(|sorted|, page, limit)
    ensures IsWindow(r.projects, sorted, skip, limit)
    ensures r.message == if r.projects == [] then "No projects found" else "Projects fetched successfully"
  {
    var rows := PageSlice(sorted, skip, limit);
    ProjectsPage(rows, FacetMeta(|sorted|, page, limit),
                 if |rows| > 0 then "Projects fetched successfully" else "No projects found")
  }

  /** getProjects: the `$match` stage (Listed), the `$sort` stage in the query's
      direction, then ListingPage with the query's offset, page and limit. The page
      holds only projects the user may see, narrowed by the search when one is
      active, in sort order. The query's `sortField` chooses the field `rank`
      reads; the caller passes the `rank` for that field, so it is not read here. */
  function GetProjects(store: Store, user: UserId, q: ProjectQuery, rank: Project -> int, matches: Project -> bool): (r: ProjectsPage)
    requires WellFormedQuery(q)
    ensures r.meta.total == |Listed(store, user, q.search, matches)|
    ensures r.meta.page == PageNumber(q) && r.meta.limit == LimitNumber(q)
    ensures |r.projects| <= LimitNumber(q)
    ensures SortedBy(rank, SortDirection(q.sortOrder), r.projects)
    ensures forall p :: p in r.projects ==> p in store.projects && CanSee(store, user, p)
    ensures SearchActive(q.search) ==> forall p :: p in r.projects ==> matches(p)
  {
    var listed := Listed(store, user, q.search, matches);
    var sorted := Sort(rank, SortDirection(q.sortOrder), listed);
    PageOfSorted(rank, SortDirection(q.sortOrder), sorted, Skip(q), LimitNumber(q));
    SortKeepsRows(rank, SortDirection(q.sortOrder), listed);
    ListingPage(sorted, Skip(q), PageNumber(q), LimitNumber(q))
  }

  /** The page getProjects returns is the window of the sorted listing after
      Skip(q) rows, min(remaining, limit) long and empty past the end, with the
      metadata of the whole listing and the message for an empty page. */
  lemma GetProjectsIsWindow(store: Store, user: UserId, q: ProjectQuery, rank: Project -> int, matches: Project -> bool)
    requires WellFormedQuery(q)
    ensures var sorted := Sort(rank, SortDirection(q.sortOrder), Listed(store, user, q.search, matches));
            var r := GetProjects(store, user, q, rank, matches);
      && IsWindow(r.projects, sorted, Skip(q), LimitNumber(q))
      && r.meta == FacetMeta(|sorted|, PageNumber(q), LimitNumber(q))
      && r.message == if r.projects == [] then "No projects found" else "Projects fetched successfully"
  {
  }

  /** A search text of white space alone (line separators included, and the
      empty text) adds no search stage: every visible project is listed. */
  lemma BlankSearchListsAll(store: Store, user: UserId, search: string, matches: Project -> bool)
    requires forall i :: 0 <= i < |search| ==> IsSpace(search[i])
    ensures !SearchActive(Some(search))
    ensures Listed(store, user, Some(search), matches) == Visible(store, user)
  {
  }

  /** A page of a sorted listing is sorted and holds only rows of the listing. */
  lemma PageOfSorted(rank: Project -> int, dir: int, sorted: seq<Project>, skip: nat, limit: nat)
    requires SortedBy(rank, dir, sorted)
    ensures SortedBy(rank, dir, PageSlice(sorted, skip, limit))
    ensures forall p :: p in PageSlice(sorted, skip, limit) ==> p in sorted
  {
    var page := PageSlice(sorted, skip, limit);
    forall p | p in page ensures p in sorted {
      var i :| 0 <= i < |page| && page[i] == p;
      assert sorted[skip + i] == p;
    }
    forall i, j | 0 <= i < j < |page| ensures Before(rank, dir, page[i], page[j]) {
      assert page[i] == sorted[skip + i] && page[j] == sorted[skip + j];
    }
  }

  /** The first `n` pages, one after another. */
  function FirstPages<T>(sorted: seq<T>, limit: nat, n: nat): seq<T>
    requires limit >= 1
  {
    if n == 0 then [] else FirstPages(sorted, limit, n - 1) + PageSlice(sorted, (n - 1) * limit, limit)
  }

  function Min(a: nat, b: nat): nat {
    if a <= b then a else b
  }

  /** The rows before position `lo`, followed by the page starting at `lo`, are the
      rows before `lo + limit`. */
  lemma PrefixThenPage<T>(sorted: seq<T>, lo: nat, limit: nat)
    ensures sorted[..Min(lo, |sorted|)] + PageSlice(sorted, lo, limit) == sorted[..Min(lo + limit, |sorted|)]
  {
    var a := Min(lo, |sorted|);
    var b := Min(lo + limit, |sorted|);
    var page := PageSlice(sorted, lo, limit);
    assert |page| == b - a;
    forall i | 0 <= i < b
      ensures (sorted[..a] + page)[i] == sorted[i]
    {
      if i >= a {
        assert page[i - a] == sorted[lo + (i - a)];
      }
    }
  }

  /** The first `n` pages together are the first `n * limit` rows. */
  lemma {:induction false} FirstPagesArePrefix<T>(sorted: seq<T>, limit: nat, n: nat)
    requires limit >= 1
    ensures n * limit >= 0
    ensures FirstPages(sorted, limit, n) == sorted[..Min(n * limit, |sorted|)]
  {
    MulSucc(n, limit);
    if n > 0 {
      FirstPagesArePrefix(sorted, limit, n - 1);
      MulSucc(n - 1, limit);
      PrefixThenPage(sorted, (n - 1) * limit, limit);
    }
  }

  /** Walking pages 1 .. totalPages returns every sorted row exactly once, in order. */
  lemma PagesCoverListing<T>(sorted: seq<T>, limit: nat)
    requires limit >= 1
    ensures FirstPages(sorted, limit, FacetMeta(|sorted|, 1, limit).totalPages) == sorted
  {
    var tp := FacetMeta(|sorted|, 1, limit).totalPages;
    FirstPagesArePrefix(sorted, limit, tp);
    assert sorted[..|sorted|] == sorted;
  }

  /** Any page after the last one is empty. */
  lemma PagesPastEndEmpty<T>(sorted: seq<T>, limit: nat, n: nat)
    requires limit >= 1
    requires n > FacetMeta(|sorted|, 1, limit).totalPages
    ensures (n - 1) * limit >= 0
    ensures PageSlice(sorted, (n - 1) * limit, limit) == []
  {
    var tp := FacetMeta(|sorted|, 1, limit).totalPages;
    MulSucc(n - 1, limit);
    MulMonotone(tp, n - 1, limit);
  }

  lemma MulMonotone(a: nat, b: nat, c: nat)
    requires a <= b
    ensures a * c <= b * c
  {
  }

  /** The default metadata for an empty listing is the same as the general formula
      at total zero. */
  lemma EmptyMetaIsFormula(page: int, limit: int)
    requires limit >= 1
    ensures FacetMeta(0, page, limit) == PageMeta(0, page, limit, CeilDiv(0, limit))
  {
  }

  /** With no parameters, the first ten projects in descending order are returned. */
  lemma DefaultQuery(store: Store, user: UserId, rank: Project -> int, matches: Project -> bool)
    ensures var q := ProjectQuery(None, None, None, None, None);
      && Skip(q) == 0 && SortDirection(q.sortOrder) == -1
      && GetProjects(store, user, q, rank, matches).projects
         == PageSlice(Sort(rank, -1, Visible(store, user)), 0, 10)
  {
  }

  /** A user who sees no project gets an empty page, the default metadata with the
      requested page and limit, and the "No projects found" message. */
  lemma EmptyListing(store: Store, user: UserId, q: ProjectQuery, rank: Project -> int, matches: Project -> bool)
    requires WellFormedQuery(q)
    requires forall p :: p in store.projects ==> !CanSee(store, user, p)
    ensures GetProjects(store, user, q, rank, matches)
      == ProjectsPage([], PageMeta(0, PageNumber(q), LimitNumber(q), 0), "No projects found")
  {
    var v := Listed(store, user, q.search, matches);
    assert forall i :: 0 <= i < |v| ==> v[i] in v;
  }
}
