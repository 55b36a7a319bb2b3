/**
 * The project grid of `DashboardGrid`: the mock projects are filtered by
 * category and by a case-insensitive search on the title, then sorted either
 * by last update (newest first) or by title.
 *
 * `new Date(lastUpdated)` is an integer timestamp here (yyyymmddhhmm, which
 * orders like the dates), `localeCompare` is the lexicographic order on code
 * points, and `Array.prototype.sort` is an insertion sort.
 */
module Dashboard {
  import opened Text

  datatype Project = Project(id: string, title: string, documentCount: nat, lastUpdated: int, kind: string)

  datatype SortKey = Recent | Name

  /** The sort button: 'recent' and 'name' swap. */
  function ToggleSort(key: SortKey): (r: SortKey)
    ensures r != key
  {
    if key == Recent then Name else Recent
  }

  lemma ToggleSortTwice(key: SortKey)
    ensures ToggleSort(ToggleSort(key)) == key
  {
  }

  // ---------------------------------------------------------------------------
  // Filtering
  // ---------------------------------------------------------------------------

  /** The predicate of the `.filter` call. */
  predicate Matches(p: Project, searchTerm: string, activeFilter: string)
  {
    (activeFilter == "all" || p.kind == activeFilter) && Contains(ToLower(p.title), ToLower(searchTerm))
  }

  function FilterProjects(projects: seq<Project>, searchTerm: string, activeFilter: string): (r: seq<Project>)
    ensures |r| <= |projects|
    ensures forall i :: 0 <= i < |r| ==> Matches(r[i], searchTerm, activeFilter)
  {
    if projects == [] then []
    else
      (if Matches(projects[0], searchTerm, activeFilter) then [projects[0]] else [])
      + FilterProjects(projects[1..], searchTerm, activeFilter)
  }

  /**
   * A project is kept exactly when it matches: matching projects keep their
   * number of occurrences, the others are dropped.
   */
  lemma {:induction false} FilterCounts(projects: seq<Project>, searchTerm: string, activeFilter: string)
    ensures var r := FilterProjects(projects, searchTerm, activeFilter);
      forall p :: multiset(r)[p] == if Matches(p, searchTerm, activeFilter) then multiset(projects)[p] else 0
  {
    if projects != [] {
      assert projects == [projects[0]] + projects[1..];
      FilterCounts(projects[1..], searchTerm, activeFilter);
    }
  }

  /** A list whose every project matches passes the filter unchanged. */
  lemma {:induction false} FilterKeepsMatching(projects: seq<Project>, searchTerm: string, activeFilter: string)
    requires forall i :: 0 <= i < |projects| ==> Matches(projects[i], searchTerm, activeFilter)
    ensures FilterProjects(projects, searchTerm, activeFilter) == projects
  {
    if projects != [] {
      assert projects == [projects[0]] + projects[1..];
      assert forall i :: 0 <= i < |projects[1..]| ==> projects[1..][i] == projects[i + 1];
      FilterKeepsMatching(projects[1..], searchTerm, activeFilter);
    }
  }

  /** Filtering an already filtered list with the same term and category changes nothing. */
  lemma FilterIdempotent(projects: seq<Project>, searchTerm: string, activeFilter: string)
    ensures var once := FilterProjects(projects, searchTerm, activeFilter);
      FilterProjects(once, searchTerm, activeFilter) == once
  {
    FilterKeepsMatching(FilterProjects(projects, searchTerm, activeFilter), searchTerm, activeFilter);
  }

  /** An empty search under 'all' matches every project. */
  lemma EmptySearchMatchesAll(p: Project)
    ensures Matches(p, "", "all")
  {
    ContainsEmpty(ToLower(p.title));
  }

  // ---------------------------------------------------------------------------
  // Sorting
  // ---------------------------------------------------------------------------

  /** `a` may come before `b`: newer first for 'recent', alphabetical for 'name'. */
  predicate Before(key: SortKey, a: Project, b: Project)
  {
    match key
    case Recent => a.lastUpdated >= b.lastUpdated
    case Name => LexLe(a.title, b.title)
  }

  lemma BeforeTotal(key: SortKey, a: Project, b: Project)
    ensures Before(key, a, b) || Before(key, b, a)
  {
    if key == Name {
      LexLeTotal(a.title, b.title);
    }
  }

  lemma BeforeTransitive(key: SortKey, a: Project, b: Project, c: Project)
    requires Before(key, a, b) && Before(key, b, c)
    ensures Before(key, a, c)
  {
    if key == Name {
      LexLeTransitive(a.title, b.title, c.title);
    }
  }

  predicate SortedBy(key: SortKey, s: seq<Project>)
  {
    forall i, j :: 0 <= i < j < |s| ==> Before(key, s[i], s[j])
  }

  /** `x` may come before every project of `s`. */
  predicate PrecedesAll(key: SortKey, x: Project, s: seq<Project>)
  {
    forall j :: 0 <= j < |s| ==> Before(key, x, s[j])
  }

  lemma PrecedesPermutation(key: SortKey, x: Project, a: seq<Project>, b: seq<Project>)
    requires multiset(a) == multiset(b) && PrecedesAll(key, x, b)
    ensures PrecedesAll(key, x, a)
  {
    forall j | 0 <= j < |a| ensures Before(key, x, a[j]) {
      assert a[j] in multiset(b);
      var k :| 0 <= k < |b| && b[k] == a[j];
    }
  }

  lemma ConsSorted(key: SortKey, x: Project, s: seq<Project>)
    requires PrecedesAll(key, x, s) && SortedBy(key, s)
    ensures SortedBy(key, [x] + s)
  {
    var r := [x] + s;
    forall i, j | 0 <= i < j < |r| ensures Before(key, r[i], r[j]) {
      if i > 0 {
        assert r[i] == s[i - 1] && r[j] == s[j - 1];
      } else {
        assert r[j] == s[j - 1];
      }
    }
  }

  lemma TailSorted(key: SortKey, s: seq<Project>)
    requires s != [] && SortedBy(key, s)
    ensures SortedBy(key, s[1..]) && PrecedesAll(key, s[0], s[1..])
  {
    forall i, j | 0 <= i < j < |s[1..]| ensures Before(key, s[1..][i], s[1..][j]) {
      assert s[1..][i] == s[i + 1] && s[1..][j] == s[j + 1];
    }
    forall j | 0 <= j < |s[1..]| ensures Before(key, s[0], s[1..][j]) {
      assert s[1..][j] == s[j + 1];
    }
  }

  /** Inserts `p` before the first project it may precede. */
  function Insert(key: SortKey, p: Project, s: seq<Project>): (r: seq<Project>)
    requires SortedBy(key, s)
    ensures SortedBy(key, r)
    ensures multiset(r) == multiset(s) + multiset{p}
  {
    if s == [] then [p]
    else if Before(key, p, s[0]) then
      TailSorted(key, s);
      assert PrecedesAll(key, p, s) by {
        forall j | 0 <= j < |s| ensures Before(key, p, s[j]) {
          if j > 0 { BeforeTransitive(key, p, s[0], s[j]); }
        }
      }
      ConsSorted(key, p, s);
      [p] + s
    else
      TailSorted(key, s);
      BeforeTotal(key, p, s[0]);
      var rest := Insert(key, p, s[1..]);
      assert PrecedesAll(key, s[0], s[1..] + [p]);
      PrecedesPermutation(key, s[0], rest, s[1..] + [p]);
      ConsSorted(key, s[0], rest);
      assert s == [s[0]] + s[1..];
      [s[0]] + rest
  }

  /** The `.sort` call: an insertion sort on the comparator of `sortBy`. */
  function Sort(key: SortKey, s: seq<Project>): (r: seq<Project>)
    ensures SortedBy(key, r)
    ensures multiset(r) == multiset(s)
  {
    if s == [] then []
    else
      assert s == [s[0]] + s[1..];
      Insert(key, s[0], Sort(key, s[1..]))
  }

  /** Sorting a list that is already in order leaves it as it is. */
  lemma {:induction false} SortSorted(key: SortKey, s: seq<Project>)
    requires SortedBy(key, s)
    ensures Sort(key, s) == s
  {
    if s != [] {
      TailSorted(key, s);
      SortSorted(key, s[1..]);
      if |s| > 1 {
        assert Before(key, s[0], s[1..][0]);
      }
      assert s == [s[0]] + s[1..];
    }
  }

  // ---------------------------------------------------------------------------
  // The grid
  // ---------------------------------------------------------------------------

  /** `filteredProjects`: the matching projects, in the order of the sort key. */
  function FilteredProjects(projects: seq<Project>, searchTerm: string, activeFilter: string, sortBy: SortKey): (r: seq<Project>)
    ensures SortedBy(sortBy, r)
    ensures forall p :: multiset(r)[p] == if Matches(p, searchTerm, activeFilter) then multiset(projects)[p] else 0
    ensures forall i :: 0 <= i < |r| ==> Matches(r[i], searchTerm, activeFilter)
  {
    var filtered := FilterProjects(projects, searchTerm, activeFilter);
    FilterCounts(projects, searchTerm, activeFilter);
    var r := Sort(sortBy, filtered);
    assert forall i :: 0 <= i < |r| ==> r[i] in multiset(filtered);
    r
  }

  /** A project is shown iff it is in the list and matches the term and the category. */
  lemma ShownIff(projects: seq<Project>, searchTerm: string, activeFilter: string, sortBy: SortKey, p: Project)
    ensures p in FilteredProjects(projects, searchTerm, activeFilter, sortBy) <==>
      p in projects && Matches(p, searchTerm, activeFilter)
  {
    var r := FilteredProjects(projects, searchTerm, activeFilter, sortBy);
    assert p in r <==> multiset(r)[p] > 0;
    assert p in projects <==> multiset(projects)[p] > 0;
  }

  /** Recomputing the grid from its own output, with the same inputs, gives the same grid. */
  lemma FilteredProjectsIdempotent(projects: seq<Project>, searchTerm: string, activeFilter: string, sortBy: SortKey)
    ensures var once := FilteredProjects(projects, searchTerm, activeFilter, sortBy);
      FilteredProjects(once, searchTerm, activeFilter, sortBy) == once
  {
    var once := FilteredProjects(projects, searchTerm, activeFilter, sortBy);
    FilterKeepsMatching(once, searchTerm, activeFilter);
    SortSorted(sortBy, once);
  }

  /** With no search term and the 'all' filter the grid holds every project. */
  lemma EmptySearchKeepsAll(projects: seq<Project>, sortBy: SortKey)
    ensures multiset(FilteredProjects(projects, "", "all", sortBy)) == multiset(projects)
  {
    forall p | true ensures Matches(p, "", "all") {
      EmptySearchMatchesAll(p);
    }
  }

  /** "No projects found" is shown iff no project matches. */
  function ShowsNoProjectsMessage(projects: seq<Project>, searchTerm: string, activeFilter: string, sortBy: SortKey): (r: bool)
    ensures r <==> forall i :: 0 <= i < |projects| ==> !Matches(projects[i], searchTerm, activeFilter)
  {
    var shown := FilteredProjects(projects, searchTerm, activeFilter, sortBy);
    assert forall i :: 0 <= i < |projects| && Matches(projects[i], searchTerm, activeFilter) ==>
      multiset(shown)[projects[i]] > 0;
    |shown| == 0
  }

  /** The card label `{n} document{n !== 1 && 's'}`. */
  function DocumentCountLabel(n: nat): (caption: string)
    ensures Decimal(n) <= caption
    ensures caption[|caption| - 1] == 's' <==> n != 1
  {
    Decimal(n) + " document" + (if n != 1 then "s" else "")
  }

  // ---------------------------------------------------------------------------
  // The mock data
  // ---------------------------------------------------------------------------

  const MockProjects: seq<Project> := [
    Project("1", "Annual Financial Report", 5, 202304121030, "finance"),
    Project("2", "Legal Contract Review", 3, 202304101420, "legal"),
    Project("3", "HR Employee Handbook", 1, 202304050915, "hr"),
    Project("4", "Marketing Strategy 2023", 7, 202304011145, "marketing"),
    Project("5", "Product Development Plan", 4, 202303281630, "product")
  ]

  /** The initial view (no search, 'all', 'recent') lists the mock projects as declared. */
  lemma InitialView()
    ensures FilteredProjects(MockProjects, "", "all", Recent) == MockProjects
  {
    FilterKeepsMatching(MockProjects, "", "all") by {
      forall i | 0 <= i < |MockProjects| ensures Matches(MockProjects[i], "", "all") {
        EmptySearchMatchesAll(MockProjects[i]);
      }
    }
    SortSorted(Recent, MockProjects);
  }

  /** The search is case-insensitive: "REPORT" finds the annual financial report. */
  lemma SearchIgnoresCase()
    ensures Matches(MockProjects[0], "REPORT", "all")
    ensures !Matches(MockProjects[0], "REPORT", "legal")
  {
    assert ToLower("REPORT") == "report";
    var title := ToLower(MockProjects[0].title);
    assert title[17..] == "report";
    assert "report" <= title[17..];
    ContainsIff(title, "report");
  }
}
