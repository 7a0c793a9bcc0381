/** The project gallery: a fixed list of six projects, the category filter
    buttons, and the list of projects shown for the selected filter. */
module Projects {

  /** A project card's data; the description, emoji and link fields are
      display text and are not modelled. */
  datatype Project = Project(id: nat, title: string, category: string, tags: seq<string>)

  /** The `projects` array, in display order. */
  const AllProjects: seq<Project> := [
    Project(1, "Mother Earth AI", "AI Projects", ["React", "Node.js", "AI API", "MongoDB"]),
    Project(2, "HappyEnding", "Full-Stack", ["React", "Node.js", "MongoDB", "Authentication"]),
    Project(3, "E-Commerce Platform", "Web Apps", ["React", "Express", "MongoDB", "Stripe"]),
    Project(4, "Task Management App", "Web Apps", ["React", "Node.js", "WebSocket", "MongoDB"]),
    Project(5, "Social Media Dashboard", "Full-Stack", ["React", "TypeScript", "REST API", "Charts"]),
    Project(6, "Weather Forecast App", "Web Apps", ["React", "Weather API"])
  ]

  const AllFilter := "All"

  /** The filter buttons, in display order. */
  const Filters: seq<string> := [AllFilter, "Web Apps", "AI Projects", "Full-Stack"]

  /** `sub` is `s` with some elements left out and the rest kept in order. */
  ghost predicate IsSubsequence<T>(sub: seq<T>, s: seq<T>)
    decreases |s|
  {
    if sub == [] then true
    else if s == [] then false
    else if sub[0] == s[0] then IsSubsequence(sub[1..], s[1..])
    else IsSubsequence(sub, s[1..])
  }

  /** `ps.filter(p => p.category === c)`. */
  function FilterByCategory(ps: seq<Project>, c: string): (r: seq<Project>)
    ensures |r| <= |ps|
  {
    if ps == [] then []
    else
      assert ps == [ps[0]] + ps[1..];
      var rest := FilterByCategory(ps[1..], c);
      if ps[0].category == c then [ps[0]] + rest else rest
  }

  /** The filter keeps every copy of each project of the category and
      drops every project of another category. */
  lemma {:induction false} FilterCountsExactly(ps: seq<Project>, c: string)
    ensures forall p :: multiset(FilterByCategory(ps, c))[p] == if p.category == c then multiset(ps)[p] else 0
  {
    if ps != [] {
      FilterCountsExactly(ps[1..], c);
      assert ps == [ps[0]] + ps[1..];
    }
  }

  /** The filter keeps the projects' relative order. */
  lemma {:induction false} FilterIsSubsequence(ps: seq<Project>, c: string)
    ensures IsSubsequence(FilterByCategory(ps, c), ps)
  {
    if ps != [] {
      FilterIsSubsequence(ps[1..], c);
      var rest := FilterByCategory(ps[1..], c);
      if ps[0].category != c {
        SkipHead(rest, ps);
      }
    }
  }

  /** Every sequence is a subsequence of itself. */
  lemma {:induction false} SubsequenceReflexive<T>(s: seq<T>)
    ensures IsSubsequence(s, s)
    decreases |s|
  {
    if s != [] {
      SubsequenceReflexive(s[1..]);
    }
  }

  /** A subsequence of `s[1..]` is a subsequence of `s`. */
  lemma {:induction false} SkipHead<T>(sub: seq<T>, s: seq<T>)
    requires s != [] && IsSubsequence(sub, s[1..])
    ensures IsSubsequence(sub, s)
    decreases |s|, |sub|
  {
    if sub != [] && sub[0] == s[0] {
      SubsequenceTail(sub, s[1..]);
    }
  }

  /** Dropping the head of a subsequence leaves a subsequence. */
  lemma {:induction false} SubsequenceTail<T>(sub: seq<T>, s: seq<T>)
    requires sub != [] && IsSubsequence(sub, s)
    ensures IsSubsequence(sub[1..], s)
    decreases |s|, |sub|
  {
    if sub[0] == s[0] {
      SkipHead(sub[1..], s);
    } else {
      SubsequenceTail(sub, s[1..]);
      SkipHead(sub[1..], s);
    }
  }

  /** `filteredProjects` for the selected filter. */
  function FilteredProjects(activeFilter: string): (r: seq<Project>)
    ensures activeFilter == AllFilter ==> r == AllProjects
    ensures activeFilter != AllFilter ==>
      forall p :: p in r <==> p in AllProjects && p.category == activeFilter
    ensures |r| <= |AllProjects|
  {
    if activeFilter == AllFilter then AllProjects
    else
      FilterCountsExactly(AllProjects, activeFilter);
      FilterByCategory(AllProjects, activeFilter)
  }

  /** Whatever the filter, the shown projects keep the gallery's order. */
  lemma FilteredProjectsKeepOrder(activeFilter: string)
    ensures IsSubsequence(FilteredProjects(activeFilter), AllProjects)
  {
    if activeFilter == AllFilter {
      SubsequenceReflexive(AllProjects);
    } else {
      FilterIsSubsequence(AllProjects, activeFilter);
    }
  }

  /** The ids of a list of projects, in order. */
  function Ids(ps: seq<Project>): (ids: seq<nat>)
    ensures |ids| == |ps| && forall i | 0 <= i < |ps| :: ids[i] == ps[i].id
  {
    seq(|ps|, i requires 0 <= i < |ps| => ps[i].id)
  }

  /** One step of the filter: the head is kept iff it is in the category. */
  lemma FilterStep(ps: seq<Project>, c: string)
    requires ps != []
    ensures FilterByCategory(ps, c) == Keep(ps[0], c) + FilterByCategory(ps[1..], c)
  {
  }

  /** The gallery filtered by `c`, unrolled over its six projects. */
  lemma FilterOfGallery(c: string)
    ensures FilterByCategory(AllProjects, c) ==
      Keep(AllProjects[0], c) + Keep(AllProjects[1], c) + Keep(AllProjects[2], c) +
      Keep(AllProjects[3], c) + Keep(AllProjects[4], c) + Keep(AllProjects[5], c)
  {
    var ps := AllProjects;
    assert ps[6..] == [];
    FilterStep(ps[5..], c);
    assert ps[5..][1..] == ps[6..];
    FilterStep(ps[4..], c);
    assert ps[4..][1..] == ps[5..];
    FilterStep(ps[3..], c);
    assert ps[3..][1..] == ps[4..];
    FilterStep(ps[2..], c);
    assert ps[2..][1..] == ps[3..];
    FilterStep(ps[1..], c);
    assert ps[1..][1..] == ps[2..];
    FilterStep(ps, c);
  }

  /** `[p]` if `p` is in category `c`, else nothing. */
  function Keep(p: Project, c: string): seq<Project> {
    if p.category == c then [p] else []
  }

  /** "All" shows the whole gallery, ids 1 to 6. */
  lemma AllFilterResult()
    ensures Ids(FilteredProjects(AllFilter)) == [1, 2, 3, 4, 5, 6]
  {
  }

  /** "Web Apps" shows the third, fourth and sixth projects. */
  lemma WebAppsFilterResult()
    ensures Ids(FilteredProjects("Web Apps")) == [3, 4, 6]
  {
    FilterOfGallery("Web Apps");
  }

  /** "AI Projects" shows the first project only. */
  lemma AiProjectsFilterResult()
    ensures Ids(FilteredProjects("AI Projects")) == [1]
  {
    FilterOfGallery("AI Projects");
  }

  /** "Full-Stack" shows the second and fifth projects. */
  lemma FullStackFilterResult()
    ensures Ids(FilteredProjects("Full-Stack")) == [2, 5]
  {
    FilterOfGallery("Full-Stack");
  }

  /** Every project belongs to one of the three category buttons, so those
      buttons split the gallery: together they show each project exactly once. */
  lemma CategoryButtonsSplitGallery()
    ensures forall i | 0 <= i < |AllProjects| :: AllProjects[i].category in Filters[1..]
    ensures |FilteredProjects("Web Apps")| + |FilteredProjects("AI Projects")| +
      |FilteredProjects("Full-Stack")| == |AllProjects|
  {
    WebAppsFilterResult();
    AiProjectsFilterResult();
    FullStackFilterResult();
  }

  /** The selected filter of the gallery. */
  class ProjectsSection {
    var activeFilter: string

    /** The selected filter is always one of the buttons. */
    ghost predicate Valid()
      reads this
    {
      activeFilter in Filters
    }

    constructor ()
      ensures Valid() && activeFilter == AllFilter
    {
      activeFilter := AllFilter;
    }

    /** A filter button is clicked: `setActiveFilter(filter)`. */
    method SelectFilter(filter: string)
      requires Valid() && filter in Filters
      modifies this
      ensures Valid() && activeFilter == filter
    {
      activeFilter := filter;
    }
  }
}
