/** The `filteredProjects` rule of the dashboard's project grid
    (app/components/dashboard/ProjectGrid.tsx): a case-insensitive text search over name,
    description and team, combined with exact status and priority filters, where `all` lets
    everything through. */
module ProjectFilter {
  import opened Text

  const AllFilter := "all"

  datatype Status = Active | Planning | Completed | OnHold
  datatype Priority = High | Medium | Low

  /** The string each status is in the source. */
  function StatusText(s: Status): string {
    match s
    case Active => "active"
    case Planning => "planning"
    case Completed => "completed"
    case OnHold => "on-hold"
  }

  function PriorityText(p: Priority): string {
    match p
    case High => "high"
    case Medium => "medium"
    case Low => "low"
  }

  datatype Project = Project(
    id: int,
    name: string,
    description: string,
    status: Status,
    progress: int,
    team: seq<string>,
    dueDate: string,
    priority: Priority)

  /** The three inputs the user controls. */
  datatype Query = Query(searchTerm: string, statusFilter: string, priorityFilter: string)

  const Unfiltered := Query("", AllFilter, AllFilter)

  predicate MemberMatches(member: string, term: string) {
    Contains(ToLower(member), ToLower(term))
  }

  /** The lower-cased term occurs in the lower-cased name, description, or some team member. */
  predicate MatchesSearch(p: Project, term: string) {
    || Contains(ToLower(p.name), ToLower(term))
    || Contains(ToLower(p.description), ToLower(term))
    || exists k :: 0 <= k < |p.team| && MemberMatches(p.team[k], term)
  }

  predicate MatchesStatus(p: Project, statusFilter: string) {
    statusFilter == AllFilter || StatusText(p.status) == statusFilter
  }

  predicate MatchesPriority(p: Project, priorityFilter: string) {
    priorityFilter == AllFilter || PriorityText(p.priority) == priorityFilter
  }

  /** The filter's predicate: all three matches. */
  predicate Keeps(q: Query, p: Project) {
    MatchesSearch(p, q.searchTerm) && MatchesStatus(p, q.statusFilter) && MatchesPriority(p, q.priorityFilter)
  }

  /** `projects.filter(...)`. */
  function FilteredProjects(projects: seq<Project>, q: Query): (r: seq<Project>)
    ensures |r| <= |projects|
  {
    if projects == [] then []
    else FilteredProjects(projects[..|projects| - 1], q)
         + (if Keeps(q, projects[|projects| - 1]) then [projects[|projects| - 1]] else [])
  }

  /** The result keeps the order of `projects`, and holds exactly the projects the predicate
      keeps. */
  lemma {:induction false} FilterShape(projects: seq<Project>, q: Query)
    ensures IsSubseq(FilteredProjects(projects, q), projects)
    ensures forall p :: p in FilteredProjects(projects, q) <==> p in projects && Keeps(q, p)
  {
    if projects != [] {
      var init := projects[..|projects| - 1];
      var last := projects[|projects| - 1];
      FilterShape(init, q);
      assert projects == init + [last];
      var tail := if Keeps(q, last) then [last] else [];
      if Keeps(q, last) {
        SubseqRefl([last]);
      } else {
        SubseqEmpty([last]);
      }
      SubseqConcat(FilteredProjects(init, q), init, tail, [last]);
    }
  }

  /** Lower-casing twice is lower-casing once. */
  lemma LowerIdempotent(s: string)
    ensures ToLower(ToLower(s)) == ToLower(s)
  {
  }

  /** The empty search, with both filters on `all`, keeps every project. */
  lemma {:induction false} UnfilteredKeepsAll(projects: seq<Project>)
    ensures FilteredProjects(projects, Unfiltered) == projects
  {
    if projects != [] {
      UnfilteredKeepsAll(projects[..|projects| - 1]);
      ContainsEmpty(ToLower(projects[|projects| - 1].name));
      assert projects[..|projects| - 1] + [projects[|projects| - 1]] == projects;
    }
  }

  /** With a status filter other than `all`, every result has that status; likewise priority. */
  lemma FiltersHold(projects: seq<Project>, q: Query)
    ensures q.statusFilter != AllFilter ==> forall p :: p in FilteredProjects(projects, q) ==> StatusText(p.status) == q.statusFilter
    ensures q.priorityFilter != AllFilter ==> forall p :: p in FilteredProjects(projects, q) ==> PriorityText(p.priority) == q.priorityFilter
  {
    FilterShape(projects, q);
  }

  /** A project found by some query is found by every query the predicate accepts more of. */
  lemma {:induction false} FilterMonotone(projects: seq<Project>, narrow: Query, wide: Query)
    requires forall p :: Keeps(narrow, p) ==> Keeps(wide, p)
    ensures IsSubseq(FilteredProjects(projects, narrow), FilteredProjects(projects, wide))
  {
    if projects != [] {
      var init := projects[..|projects| - 1];
      var last := projects[|projects| - 1];
      FilterMonotone(init, narrow, wide);
      var n := if Keeps(narrow, last) then [last] else [];
      var w := if Keeps(wide, last) then [last] else [];
      if Keeps(narrow, last) {
        SubseqRefl([last]);
      } else {
        SubseqEmpty(w);
      }
      SubseqConcat(FilteredProjects(init, narrow), FilteredProjects(init, wide), n, w);
    }
  }

  /** Changing a filter from `all` to a value can only shrink the result. */
  lemma Narrowing(projects: seq<Project>, q: Query, status: string, priority: string)
    requires q.statusFilter == AllFilter && q.priorityFilter == AllFilter
    ensures IsSubseq(FilteredProjects(projects, q.(statusFilter := status)), FilteredProjects(projects, q))
    ensures IsSubseq(FilteredProjects(projects, q.(priorityFilter := priority)), FilteredProjects(projects, q))
  {
    FilterMonotone(projects, q.(statusFilter := status), q);
    FilterMonotone(projects, q.(priorityFilter := priority), q);
  }

  /** The search ignores case: a term and its lower-cased form find the same projects. */
  lemma SearchIgnoresCase(projects: seq<Project>, q: Query)
    ensures FilteredProjects(projects, q.(searchTerm := ToLower(q.searchTerm))) == FilteredProjects(projects, q)
  {
    LowerIdempotent(q.searchTerm);
    assert forall p :: Keeps(q.(searchTerm := ToLower(q.searchTerm)), p) == Keeps(q, p);
    SameFilter(projects, q.(searchTerm := ToLower(q.searchTerm)), q);
  }

  /** Two queries that keep the same projects give the same result. */
  lemma {:induction false} SameFilter(projects: seq<Project>, a: Query, b: Query)
    requires forall p :: Keeps(a, p) == Keeps(b, p)
    ensures FilteredProjects(projects, a) == FilteredProjects(projects, b)
  {
    if projects != [] {
      SameFilter(projects[..|projects| - 1], a, b);
    }
  }

  /** A project whose name contains the term, in any case, is found by it when the filters allow. */
  lemma NameSearchFinds(projects: seq<Project>, q: Query, k: nat)
    requires k < |projects|
    requires Contains(ToLower(projects[k].name), ToLower(q.searchTerm))
    requires MatchesStatus(projects[k], q.statusFilter) && MatchesPriority(projects[k], q.priorityFilter)
    ensures projects[k] in FilteredProjects(projects, q)
  {
    FilterShape(projects, q);
  }
}
