/** The search-and-filter panel above the agent list: three filter fields,
    the conjunction of a case-insensitive text match, a status match and a
    creator match, and the sorted list of distinct creators offered in the
    creator drop-down. */
module AgentSearch {
  import opened Types
  import opened Text

  /** The three filter fields; "all" switches a drop-down filter off. */
  datatype Criteria = Criteria(searchText: string, statusFilter: string, creatorFilter: string)

  /** The fields' initial values, which `clearFilters` restores. */
  const Cleared := Criteria("", "all", "all")

  // ---------------------------------------------------------------------
  // The three predicates
  // ---------------------------------------------------------------------

  /** The text part: an empty query, or a case-insensitive `includes` in the
      name or the description. */
  predicate TextMatch(agent: Agent, searchText: string)
    ensures searchText == "" ==> TextMatch(agent, searchText)
    ensures TextMatch(agent, searchText) && searchText != "" ==>
      |searchText| <= |agent.name| || |searchText| <= |agent.description|
  {
    || searchText == ""
    || Contains(Lower(agent.name), Lower(searchText))
    || Contains(Lower(agent.description), Lower(searchText))
  }

  /** The status part: "all", or the agent's status by name. A filter
      naming a status keeps exactly the agents with that status, and any
      other string except "all" keeps none. */
  predicate StatusMatch(agent: Agent, statusFilter: string)
    ensures statusFilter == "all" ==> StatusMatch(agent, statusFilter)
    ensures forall s: AgentStatus :: statusFilter == s.Label() ==> (StatusMatch(agent, statusFilter) <==> agent.status == s)
    ensures statusFilter != "all" && (forall s: AgentStatus :: s.Label() != statusFilter) ==>
      !StatusMatch(agent, statusFilter)
  {
    statusFilter == "all" || agent.status.Label() == statusFilter
  }

  /** The creator part: "all", or exactly the agent's creator. */
  predicate CreatorMatch(agent: Agent, creatorFilter: string)
    ensures creatorFilter == "all" ==> CreatorMatch(agent, creatorFilter)
    ensures creatorFilter != "all" ==> (CreatorMatch(agent, creatorFilter) <==> agent.createdBy == creatorFilter)
  {
    creatorFilter == "all" || agent.createdBy == creatorFilter
  }

  /** The filter's callback: all three parts hold. Every agent passes the
      cleared criteria. */
  predicate Matches(agent: Agent, c: Criteria)
    ensures c == Cleared ==> Matches(agent, c)
    ensures Matches(agent, c) ==> StatusMatch(agent, c.statusFilter) && CreatorMatch(agent, c.creatorFilter)
  {
    TextMatch(agent, c.searchText) && StatusMatch(agent, c.statusFilter) && CreatorMatch(agent, c.creatorFilter)
  }

  /** The text match is a substring test on lower-cased name or description,
      and the empty query matches every agent. */
  lemma TextMatchIff(agent: Agent, searchText: string)
    ensures TextMatch(agent, "")
    ensures TextMatch(agent, searchText) <==>
      (|| searchText == ""
       || (exists i :: OccursAt(Lower(agent.name), Lower(searchText), i))
       || (exists i :: OccursAt(Lower(agent.description), Lower(searchText), i)))
  {
    ContainsIff(Lower(agent.name), Lower(searchText));
    ContainsIff(Lower(agent.description), Lower(searchText));
    assert TextMatch(agent, searchText) <==>
      (searchText == "" || Contains(Lower(agent.name), Lower(searchText))
       || Contains(Lower(agent.description), Lower(searchText)));
  }

  /** Changing the case of the query, of the name or of the description
      does not change whether the text matches. */
  lemma TextMatchIgnoresCase(agent: Agent, searchText: string)
    ensures TextMatch(agent, Lower(searchText)) == TextMatch(agent, searchText)
    ensures TextMatch(agent.(name := Lower(agent.name), description := Lower(agent.description)), searchText)
            == TextMatch(agent, searchText)
  {
    LowerIdempotent(searchText);
    LowerIdempotent(agent.name);
    LowerIdempotent(agent.description);
  }

  // ---------------------------------------------------------------------
  // filteredAgents
  // ---------------------------------------------------------------------

  /** `agents.filter(...)` with the conjunction of the three predicates. */
  function FilterAgents(agents: seq<Agent>, c: Criteria): (r: seq<Agent>)
    ensures |r| <= |agents|
    ensures forall k :: 0 <= k < |r| ==> r[k] in agents && Matches(r[k], c)
    ensures c.statusFilter != "all" ==> forall k :: 0 <= k < |r| ==> r[k].status.Label() == c.statusFilter
    ensures c.creatorFilter != "all" ==> forall k :: 0 <= k < |r| ==> r[k].createdBy == c.creatorFilter
    decreases |agents|
  {
    if agents == [] then []
    else
      var last := agents[|agents| - 1];
      FilterAgents(agents[..|agents| - 1], c) + (if Matches(last, c) then [last] else [])
  }

  /** The positions, in increasing order, of the agents the filter keeps. */
  ghost function KeptIndices(agents: seq<Agent>, c: Criteria): seq<nat>
    decreases |agents|
  {
    if agents == [] then []
    else
      var n := |agents| - 1;
      KeptIndices(agents[..n], c) + (if Matches(agents[n], c) then [n] else [])
  }

  /** The kept positions are in range, strictly increasing, and exactly
      the positions whose agent matches. */
  lemma {:induction false} KeptIndicesExact(agents: seq<Agent>, c: Criteria)
    ensures var idx := KeptIndices(agents, c);
      && (forall k :: 0 <= k < |idx| ==> idx[k] < |agents|)
      && (forall k, l :: 0 <= k < l < |idx| ==> idx[k] < idx[l])
      && (forall i :: 0 <= i < |agents| ==> (i in idx <==> Matches(agents[i], c)))
    decreases |agents|
  {
    if agents != [] {
      var n := |agents| - 1;
      var front := agents[..n];
      KeptIndicesExact(front, c);
      var idx0 := KeptIndices(front, c);
      var idx := KeptIndices(agents, c);
      assert idx == idx0 + (if Matches(agents[n], c) then [n] else []);
      assert forall i :: 0 <= i < n ==> agents[i] == front[i];
      assert n !in idx0;
    }
  }

  /** The k-th agent of the output is the agent at the k-th kept position. */
  lemma {:induction false} FilterAtKept(agents: seq<Agent>, c: Criteria)
    ensures var r, idx := FilterAgents(agents, c), KeptIndices(agents, c);
      && |r| == |idx|
      && (forall k :: 0 <= k < |idx| ==> idx[k] < |agents| && r[k] == agents[idx[k]])
    decreases |agents|
  {
    if agents != [] {
      var n := |agents| - 1;
      var front := agents[..n];
      FilterAtKept(front, c);
      KeptIndicesExact(front, c);
      var r0, idx0 := FilterAgents(front, c), KeptIndices(front, c);
      var r, idx := FilterAgents(agents, c), KeptIndices(agents, c);
      assert r == r0 + (if Matches(agents[n], c) then [agents[n]] else []);
      assert idx == idx0 + (if Matches(agents[n], c) then [n] else []);
      forall k | 0 <= k < |idx| ensures idx[k] < |agents| && r[k] == agents[idx[k]] {
        if k < |idx0| {
          assert r[k] == r0[k] && idx[k] == idx0[k];
          assert front[idx0[k]] == agents[idx0[k]];
        }
      }
    }
  }

  /** The filter's output is the subsequence of the input, in the input's
      order, made of exactly the positions whose agent matches. */
  lemma {:induction false} FilterIsOrderedSelection(agents: seq<Agent>, c: Criteria)
    ensures var r, idx := FilterAgents(agents, c), KeptIndices(agents, c);
      && |r| == |idx|
      && (forall k :: 0 <= k < |idx| ==> idx[k] < |agents| && r[k] == agents[idx[k]])
      && (forall k, l :: 0 <= k < l < |idx| ==> idx[k] < idx[l])
      && (forall i :: 0 <= i < |agents| ==> (i in idx <==> Matches(agents[i], c)))
  {
    KeptIndicesExact(agents, c);
    FilterAtKept(agents, c);
  }

  /** With nothing typed and both drop-downs on "all", every agent is kept. */
  lemma {:induction false} InactiveFiltersKeepAll(agents: seq<Agent>, c: Criteria)
    requires !HasActiveFilters(c)
    ensures FilterAgents(agents, c) == agents
    decreases |agents|
  {
    if agents != [] {
      InactiveFiltersKeepAll(agents[..|agents| - 1], c);
      assert agents == agents[..|agents| - 1] + [agents[|agents| - 1]];
    }
  }

  /** The "Active filters" bar is shown exactly when some field differs from
      its cleared value. */
  predicate HasActiveFilters(c: Criteria)
    ensures HasActiveFilters(c) <==> c != Cleared
  {
    c.searchText != "" || c.statusFilter != "all" || c.creatorFilter != "all"
  }

  // ---------------------------------------------------------------------
  // creators: [...new Set(agents.map(a => a.createdBy))].sort()
  // ---------------------------------------------------------------------

  predicate Distinct(s: seq<string>) {
    forall i, j :: 0 <= i < j < |s| ==> s[i] != s[j]
  }

  predicate Sorted(s: seq<string>) {
    forall i, j :: 0 <= i < j < |s| ==> LexLeq(s[i], s[j])
  }

  predicate StrictlyAscending(s: seq<string>) {
    forall i, j :: 0 <= i < j < |s| ==> LexLess(s[i], s[j])
  }

  /** `agents.map((agent) => agent.createdBy)`. */
  function CreatedBy(agents: seq<Agent>): (r: seq<string>)
    ensures |r| == |agents|
    ensures forall i :: 0 <= i < |agents| ==> r[i] == agents[i].createdBy
  {
    if agents == [] then [] else [agents[0].createdBy] + CreatedBy(agents[1..])
  }

  /** `[...new Set(xs)]`: each value of `xs` once. (The Set keeps first
      occurrences in order, which this definition also does; the order is
      not stated here since the list is sorted next.) */
  function Dedup(xs: seq<string>): (r: seq<string>)
    ensures Distinct(r)
    ensures forall x :: x in r <==> x in xs
    decreases |xs|
  {
    if xs == [] then []
    else
      var d := Dedup(xs[..|xs| - 1]);
      if xs[|xs| - 1] in d then d else d + [xs[|xs| - 1]]
  }

  /** Inserts `x` into a sorted list after the elements that sort before it. */
  function Insert(x: string, s: seq<string>): (r: seq<string>)
    requires Sorted(s)
    ensures Sorted(r)
    ensures multiset(r) == multiset(s) + multiset{x}
    decreases |s|
  {
    if s == [] then [x]
    else if LexLeq(x, s[0]) then
      InsertFront(x, s);
      [x] + s
    else
      var rest := Insert(x, s[1..]);
      assert s == [s[0]] + s[1..];
      LexLessTotal(x, s[0]);
      InsertBehind(s[0], x, s[1..], rest);
      [s[0]] + rest
  }

  lemma InsertFront(x: string, s: seq<string>)
    requires Sorted(s) && s != [] && LexLeq(x, s[0])
    ensures Sorted([x] + s)
  {
    forall j | 0 <= j < |s| ensures LexLeq(x, s[j]) {
      if j > 0 { LexLeqTransitive(x, s[0], s[j]); }
    }
  }

  lemma InsertBehind(y: string, x: string, tail: seq<string>, rest: seq<string>)
    requires Sorted([y] + tail) && Sorted(rest) && LexLeq(y, x)
    requires multiset(rest) == multiset(tail) + multiset{x}
    ensures Sorted([y] + rest)
  {
    forall k | 0 <= k < |rest| ensures LexLeq(y, rest[k]) {
      assert rest[k] in multiset(rest);
      if rest[k] != x {
        assert rest[k] in tail;
        var j :| 0 <= j < |tail| && tail[j] == rest[k];
        assert ([y] + tail)[0] == y && ([y] + tail)[j + 1] == tail[j];
      }
    }
    var s := [y] + rest;
    forall i, j | 0 <= i < j < |s| ensures LexLeq(s[i], s[j]) {
      if i > 0 { assert s[i] == rest[i - 1] && s[j] == rest[j - 1]; }
    }
  }

  /** The default `sort()` of strings: ascending in code point order. */
  function Sort(xs: seq<string>): (r: seq<string>)
    ensures Sorted(r)
    ensures multiset(r) == multiset(xs)
    decreases |xs|
  {
    if xs == [] then []
    else
      assert xs == [xs[0]] + xs[1..];
      Insert(xs[0], Sort(xs[1..]))
  }

  /** A list without repetitions holds every value at most once. */
  lemma {:induction false} DistinctCountsAtMostOne(s: seq<string>)
    requires Distinct(s)
    ensures forall x :: multiset(s)[x] <= 1
    decreases |s|
  {
    if s != [] {
      var n := |s| - 1;
      assert Distinct(s[..n]);
      DistinctCountsAtMostOne(s[..n]);
      assert s == s[..n] + [s[n]];
      assert s[n] !in s[..n];
      assert multiset(s) == multiset(s[..n]) + multiset{s[n]};
    }
  }

  /** A value at two positions is counted at least twice. */
  lemma RepeatCountsTwice(s: seq<string>, i: nat, j: nat)
    requires i < j < |s| && s[i] == s[j]
    ensures multiset(s)[s[i]] >= 2
  {
    assert s == s[..i] + [s[i]] + s[i + 1..j] + [s[j]] + s[j + 1..];
  }

  /** A list holding every value at most once has no repetitions. */
  lemma CountsAtMostOneDistinct(s: seq<string>)
    requires forall x :: multiset(s)[x] <= 1
    ensures Distinct(s)
  {
    forall i, j | 0 <= i < j < |s| ensures s[i] != s[j] {
      if s[i] == s[j] {
        RepeatCountsTwice(s, i, j);
        assert false;
      }
    }
  }

  /** A sorted list without repetitions is strictly ascending. */
  lemma SortedDistinctAscending(s: seq<string>)
    requires Sorted(s) && Distinct(s)
    ensures StrictlyAscending(s)
  {
  }

  /** The creator drop-down: every creator once, in strictly ascending order. */
  function Creators(agents: seq<Agent>): (r: seq<string>)
    ensures StrictlyAscending(r)
    ensures forall x :: x in r <==> exists i :: 0 <= i < |agents| && agents[i].createdBy == x
  {
    var names := CreatedBy(agents);
    var unique := Dedup(names);
    var r := Sort(unique);
    DistinctCountsAtMostOne(unique);
    CountsAtMostOneDistinct(r);
    SortedDistinctAscending(r);
    assert forall x :: x in r <==> x in unique by {
      forall x ensures x in r <==> x in unique {
        assert x in r <==> x in multiset(r);
        assert x in unique <==> x in multiset(unique);
      }
    }
    assert forall x :: x in names <==> exists i :: 0 <= i < |agents| && agents[i].createdBy == x;
    r
  }

  // ---------------------------------------------------------------------
  // The component's filter state
  // ---------------------------------------------------------------------

  /** The three `useState` fields and their change handlers. */
  class Filters {
    var searchText: string
    var statusFilter: string
    var creatorFilter: string

    function Current(): Criteria
      reads this
    {
      Criteria(searchText, statusFilter, creatorFilter)
    }

    constructor ()
      ensures Current() == Cleared
    {
      searchText, statusFilter, creatorFilter := "", "all", "all";
    }

    method HandleSearch(value: string)
      modifies this
      ensures Current() == old(Current()).(searchText := value)
    {
      searchText := value;
    }

    method HandleStatusFilter(value: string)
      modifies this
      ensures Current() == old(Current()).(statusFilter := value)
    {
      statusFilter := value;
    }

    method HandleCreatorFilter(value: string)
      modifies this
      ensures Current() == old(Current()).(creatorFilter := value)
    {
      creatorFilter := value;
    }

    /** Restores the initial fields, after which no filter bar is shown
        and every agent is listed. */
    method ClearFilters()
      modifies this
      ensures Current() == Cleared
      ensures !ShowsActiveFilters()
      ensures forall agents :: FilteredAgents(agents) == agents
    {
      searchText, statusFilter, creatorFilter := "", "all", "all";
    }

    /** The list passed to `onSearchChange`. */
    function FilteredAgents(agents: seq<Agent>): (r: seq<Agent>)
      reads this
      ensures |r| <= |agents|
      ensures forall k :: 0 <= k < |r| ==> r[k] in agents && Matches(r[k], Current())
      ensures !ShowsActiveFilters() ==> r == agents
    {
      var r := FilterAgents(agents, Current());
      assert !ShowsActiveFilters() ==> r == agents by {
        if !ShowsActiveFilters() {
          InactiveFiltersKeepAll(agents, Current());
        }
      }
      r
    }

    /** The active-filter bar is shown. */
    predicate ShowsActiveFilters()
      reads this
      ensures ShowsActiveFilters() <==> Current() != Cleared
      ensures ShowsActiveFilters() <==> searchText != "" || statusFilter != "all" || creatorFilter != "all"
    {
      HasActiveFilters(Current())
    }
  }
}
