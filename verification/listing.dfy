/** The campaign listing page: the search filter and the three sort orders
    of applyFilters. The page state holds the loaded projects and the
    filtered, sorted list the page renders. */
module Listing {
  import opened JsValues
  import opened Format

  /** A project as the listing code reads it: the fields it touches, with
      goal and raised already passed through Number() and createdAt through
      new Date(...).getTime() (None for an invalid date). */
  datatype ListedProject = ListedProject(
    title: string, description: string, ownerName: Option<string>,
    goal: JsNumber, raised: JsNumber, createdAt: Option<int>)

  /** The number of white-space characters at the start of s. */
  function LeadingSpace(s: string): (n: nat)
    ensures n <= |s|
    ensures forall k :: 0 <= k < n ==> IsJsWhitespace(s[k])
    ensures n < |s| ==> !IsJsWhitespace(s[n])
    decreases |s|
  {
    if s != [] && IsJsWhitespace(s[0]) then 1 + LeadingSpace(s[1..]) else 0
  }

  /** The number of white-space characters at the end of s. */
  function TrailingSpace(s: string): (n: nat)
    ensures n <= |s|
    ensures forall k :: |s| - n <= k < |s| ==> IsJsWhitespace(s[k])
    ensures n < |s| ==> !IsJsWhitespace(s[|s| - 1 - n])
    decreases |s|
  {
    if s != [] && IsJsWhitespace(s[|s| - 1]) then 1 + TrailingSpace(s[..|s| - 1]) else 0
  }

  /** String.prototype.trim: the text between the leading and the trailing
      white space. */
  function Trim(s: string): (r: string)
    ensures r == "" <==> forall k :: 0 <= k < |s| ==> IsJsWhitespace(s[k])
    ensures r != "" ==> !IsJsWhitespace(r[0]) && !IsJsWhitespace(r[|r| - 1])
    ensures LeadingSpace(s) + |r| <= |s| && r == s[LeadingSpace(s)..LeadingSpace(s) + |r|]
    ensures forall k :: LeadingSpace(s) + |r| <= k < |s| ==> IsJsWhitespace(s[k])
  {
    var lead := LeadingSpace(s);
    if lead == |s| then ""
    else
      var tail := TrailingSpace(s);
      assert lead < |s| - tail by {
        assert !IsJsWhitespace(s[lead]);
      }
      s[lead..|s| - tail]
  }

  /** Lower-casing changes only letters, never white space. */
  lemma LowerKeepsWhitespace(c: char)
    ensures IsJsWhitespace(LowerChar(c)) <==> IsJsWhitespace(c)
  {
  }

  /** The query applyFilters searches for: empty exactly when the search
      text is blank, with no white space at either end and no upper-case
      ASCII letter; it is the lower-cased stretch of the search text that
      starts after its leading white space and is followed only by white
      space. */
  function Query(searchValue: string): (r: string)
    ensures |r| <= |searchValue|
    ensures r == "" <==> forall k :: 0 <= k < |searchValue| ==> IsJsWhitespace(searchValue[k])
    ensures r != "" ==> !IsJsWhitespace(r[0]) && !IsJsWhitespace(r[|r| - 1])
    ensures forall k :: 0 <= k < |r| ==> !('A' <= r[k] <= 'Z')
    ensures LeadingSpace(searchValue) + |r| <= |searchValue|
    ensures r == Lower(searchValue[LeadingSpace(searchValue)..LeadingSpace(searchValue) + |r|])
    ensures forall k :: LeadingSpace(searchValue) + |r| <= k < |searchValue| ==> IsJsWhitespace(searchValue[k])
  {
    var trimmed := Trim(searchValue);
    if trimmed == "" then Lower(trimmed)
    else
      LowerKeepsWhitespace(trimmed[0]);
      LowerKeepsWhitespace(trimmed[|trimmed| - 1]);
      Lower(trimmed)
  }

  /** `sortSelect.value || 'latest'`: a chosen order is kept, no choice
      means newest first. */
  function SortOf(sortValue: string): (r: string)
    ensures r != ""
    ensures sortValue != "" ==> r == sortValue
    ensures sortValue == "" ==> r == "latest"
  {
    if sortValue == "" then "latest" else sortValue
  }

  /** `part` occurs in `text` starting at index i. */
  predicate OccursAt(text: string, part: string, i: int) {
    0 <= i <= |text| - |part| && text[i..i + |part|] == part
  }

  /** Dropping the first character shifts every occurrence by one. */
  lemma OccursShift(text: string, part: string)
    requires text != [] && !(part <= text)
    ensures forall i :: OccursAt(text, part, i) ==> i >= 1 && OccursAt(text[1..], part, i - 1)
    ensures forall j :: OccursAt(text[1..], part, j) ==> OccursAt(text, part, j + 1)
  {
    assert !OccursAt(text, part, 0) by {
      if |part| <= |text| {
        assert text[0..|part|] == text[..|part|];
      }
    }
    forall j ensures OccursAt(text[1..], part, j) <==> OccursAt(text, part, j + 1) {
      if 0 <= j <= |text| - 1 - |part| {
        var shifted, inTail := text[j + 1..j + 1 + |part|], text[1..][j..j + |part|];
        assert forall k :: 0 <= k < |part| ==> shifted[k] == inTail[k];
        assert shifted == inTail;
      }
    }
  }

  /** String.prototype.includes. */
  function Contains(text: string, part: string): (b: bool)
    ensures b <==> exists i :: OccursAt(text, part, i)
    decreases |text|
  {
    if part <= text then
      assert OccursAt(text, part, 0);
      true
    else if text == [] then false
    else
      OccursShift(text, part);
      Contains(text[1..], part)
  }

  /** The filter callback: an empty query keeps everything; otherwise the
      lower-cased title, description or owner name must contain it. */
  function Matches(p: ListedProject, query: string): (m: bool)
    ensures m <==>
      || query == ""
      || (exists i :: OccursAt(Lower(p.title), query, i))
      || (exists i :: OccursAt(Lower(p.description), query, i))
      || (p.ownerName.Some? && exists i :: OccursAt(Lower(p.ownerName.value), query, i))
  {
    || query == ""
    || Contains(Lower(p.title), query)
    || Contains(Lower(p.description), query)
    || (p.ownerName.Some? && Contains(Lower(p.ownerName.value), query))
  }

  /** `projects.slice().filter(...)`: only matching projects are kept, and
      the empty query keeps the list as it is. */
  function Filter(projects: seq<ListedProject>, query: string): (r: seq<ListedProject>)
    ensures |r| <= |projects|
    ensures forall k :: 0 <= k < |r| ==> Matches(r[k], query)
    ensures query == "" ==> r == projects
    decreases |projects|
  {
    if projects == [] then []
    else (if Matches(projects[0], query) then [projects[0]] else []) + Filter(projects[1..], query)
  }

  /** `a` can be obtained from `b` by deleting elements. */
  predicate Subsequence(a: seq<ListedProject>, b: seq<ListedProject>)
    decreases |b|
  {
    || a == []
    || (b != [] && ((a[0] == b[0] && Subsequence(a[1..], b[1..])) || Subsequence(a, b[1..])))
  }

  /** The filter keeps the projects in their order. */
  lemma {:induction false} FilterIsSubsequence(projects: seq<ListedProject>, query: string)
    ensures Subsequence(Filter(projects, query), projects)
    decreases |projects|
  {
    if projects != [] {
      FilterIsSubsequence(projects[1..], query);
      var r := Filter(projects, query);
      if Matches(projects[0], query) {
        assert r[0] == projects[0] && r[1..] == Filter(projects[1..], query);
      } else {
        assert r == Filter(projects[1..], query);
      }
    }
  }

  /** The filter keeps exactly the matching projects, each as often as it
      occurs. */
  lemma {:induction false} FilterCounts(projects: seq<ListedProject>, query: string, p: ListedProject)
    ensures multiset(Filter(projects, query))[p] == if Matches(p, query) then multiset(projects)[p] else 0
    decreases |projects|
  {
    if projects != [] {
      FilterCounts(projects[1..], query, p);
      var head := if Matches(projects[0], query) then [projects[0]] else [];
      assert Filter(projects, query) == head + Filter(projects[1..], query);
      assert multiset(Filter(projects, query)) == multiset(head) + multiset(Filter(projects[1..], query));
      assert projects == [projects[0]] + projects[1..];
      assert multiset(projects) == multiset{projects[0]} + multiset(projects[1..]);
    }
  }

  /** The key a sort order compares on; None where the comparator computes
      NaN. The goal order always has a key; progress has one whenever the
      raised amount is a number, and it is a percentage; the default order
      has one exactly when the creation date is valid. */
  function SortKey(p: ListedProject, sort: string): (r: Option<real>)
    ensures sort == "goal" ==> r.Some?
    ensures sort == "progress" && p.raised.Finite? ==> r.Some?
    ensures sort == "progress" && r.Some? ==> 0.0 <= r.value <= 100.0
    ensures sort != "progress" && sort != "goal" ==> (r.Some? <==> p.createdAt.Some?)
  {
    if sort == "progress" then
      var pc := Percent(p.raised, p.goal);
      if pc.Finite? then Some(pc.value) else None
    else if sort == "goal" then
      Some(if p.goal.Finite? then p.goal.value else 0.0)
    else if p.createdAt.Some? then Some(p.createdAt.value as real)
    else None
  }

  /** The comparator: key(b) - key(a), with a NaN result read as 0 the way
      Array.prototype.sort reads it. Positive means b goes first. */
  function Compare(a: ListedProject, b: ListedProject, sort: string): (r: real)
    ensures r > 0.0 ==> SortKey(a, sort).Some? && SortKey(b, sort).Some? && SortKey(b, sort).value > SortKey(a, sort).value
    ensures r < 0.0 ==> SortKey(a, sort).Some? && SortKey(b, sort).Some? && SortKey(b, sort).value < SortKey(a, sort).value
  {
    var ka, kb := SortKey(a, sort), SortKey(b, sort);
    if ka.Some? && kb.Some? then kb.value - ka.value else 0.0
  }

  /** No neighbouring pair is out of order for the comparator. */
  predicate AdjacentOrdered(s: seq<ListedProject>, sort: string) {
    forall k :: 0 < k < |s| ==> Compare(s[k - 1], s[k], sort) <= 0.0
  }

  predicate AllKeyed(s: seq<ListedProject>, sort: string) {
    forall k :: 0 <= k < |s| ==> SortKey(s[k], sort).Some?
  }

  predicate NonIncreasing(s: seq<ListedProject>, sort: string)
    requires AllKeyed(s, sort)
  {
    forall i, j :: 0 <= i < j < |s| ==> SortKey(s[i], sort).value >= SortKey(s[j], sort).value
  }

  /** When the comparator never computes NaN, neighbour order is the
      whole order: the keys are non-increasing. */
  lemma {:induction false} AdjacentOrderedIsSorted(s: seq<ListedProject>, sort: string)
    requires AdjacentOrdered(s, sort) && AllKeyed(s, sort)
    ensures NonIncreasing(s, sort)
    decreases |s|
  {
    if |s| > 1 {
      var t := s[..|s| - 1];
      assert forall k :: 0 <= k < |t| ==> t[k] == s[k];
      AdjacentOrderedIsSorted(t, sort);
      forall i, j | 0 <= i < j < |s|
        ensures SortKey(s[i], sort).value >= SortKey(s[j], sort).value
      {
        var last := |s| - 1;
        if j == last && i < last - 1 {
          assert SortKey(s[i], sort).value >= SortKey(s[last - 1], sort).value;
          assert Compare(s[last - 1], s[last], sort) <= 0.0;
        } else if j == last {
          assert Compare(s[last - 1], s[last], sort) <= 0.0;
        }
      }
    }
  }

  /** Every project has a progress key as long as its raised amount is a
      number, and a goal key always. */
  lemma KeysOfNumericProjects(s: seq<ListedProject>)
    ensures AllKeyed(s, "goal")
    ensures (forall k :: 0 <= k < |s| ==> s[k].raised.Finite?) ==> AllKeyed(s, "progress")
    ensures (forall k :: 0 <= k < |s| ==> s[k].createdAt.Some?) ==> AllKeyed(s, "latest")
  {
  }

  /** Rows without a readable creation date give the comparator NaN for
      every pair, so the default order finds any such list in order and
      leaves it as loaded. */
  lemma UndatedListIsInOrder(s: seq<ListedProject>)
    requires forall k :: 0 <= k < |s| ==> s[k].createdAt.None?
    ensures AdjacentOrdered(s, "latest")
  {
  }

  /** The comparator is antisymmetric, so swapping a pair it puts out of
      order puts it in order. */
  lemma CompareFlips(x: ListedProject, y: ListedProject, sort: string)
    ensures Compare(x, y, sort) == -Compare(y, x, sort)
  {
  }

  /** Between two keyed projects the comparator puts the larger key first. */
  lemma CompareByKey(x: ListedProject, y: ListedProject, sort: string)
    requires SortKey(x, sort).Some? && SortKey(y, sort).Some?
    ensures Compare(x, y, sort) > 0.0 <==> SortKey(y, sort).value > SortKey(x, sort).value
  {
  }

  /** Exchanges two neighbouring elements. */
  method SwapDown(a: array<ListedProject>, j: int)
    requires 0 < j < a.Length
    modifies a
    ensures a[j - 1] == old(a[j]) && a[j] == old(a[j - 1])
    ensures forall k :: 0 <= k < a.Length && k != j - 1 && k != j ==> a[k] == old(a[k])
    ensures multiset(a[..]) == old(multiset(a[..]))
  {
    a[j - 1], a[j] := a[j], a[j - 1];
  }

  /** One pass of the insertion sort: moves a[i] down past every element
      the comparator puts after it. */
  method InsertProject(a: array<ListedProject>, sort: string, i: int)
    requires 0 < i < a.Length
    requires forall k :: 0 < k < i ==> Compare(a[k - 1], a[k], sort) <= 0.0
    modifies a
    ensures multiset(a[..]) == old(multiset(a[..]))
    ensures forall k :: 0 < k <= i ==> Compare(a[k - 1], a[k], sort) <= 0.0
    ensures forall k :: i < k < a.Length ==> a[k] == old(a[k])
    ensures Compare(old(a[i - 1]), old(a[i]), sort) <= 0.0 ==> a[..] == old(a[..])
  {
    var j := i;
    while j > 0 && Compare(a[j - 1], a[j], sort) > 0.0
      invariant 0 <= j <= i
      invariant multiset(a[..]) == old(multiset(a[..]))
      invariant forall k :: 0 < k <= i && k != j && k != j + 1 ==> Compare(a[k - 1], a[k], sort) <= 0.0
      invariant 0 < j < i ==> Compare(a[j - 1], a[j + 1], sort) <= 0.0
      invariant j < i ==> Compare(a[j], a[j + 1], sort) <= 0.0
      invariant forall k :: i < k < a.Length ==> a[k] == old(a[k])
      invariant Compare(old(a[i - 1]), old(a[i]), sort) <= 0.0 ==> j == i && a[..] == old(a[..])
    {
      CompareFlips(a[j - 1], a[j], sort);
      SwapDown(a, j);
      j := j - 1;
    }
  }

  /** `list.sort(comparator)` on the copied list, as an insertion sort. It
      is stable in the sense that a list the comparator already finds in
      order is left as it is. */
  method SortProjects(a: array<ListedProject>, sort: string)
    modifies a
    ensures multiset(a[..]) == old(multiset(a[..]))
    ensures AdjacentOrdered(a[..], sort)
    ensures AdjacentOrdered(old(a[..]), sort) ==> a[..] == old(a[..])
  {
    var i := 1;
    while i < a.Length
      invariant a.Length == 0 || 1 <= i <= a.Length
      invariant multiset(a[..]) == old(multiset(a[..]))
      invariant AdjacentOrdered(old(a[..]), sort) ==> a[..] == old(a[..])
      invariant forall k :: 0 < k < i && k < a.Length ==> Compare(a[k - 1], a[k], sort) <= 0.0
    {
      InsertProject(a, sort, i);
      i := i + 1;
    }
  }

  class ProjectsPage {
    var projects: seq<ListedProject>
    var filtered: seq<ListedProject>

    constructor (loaded: seq<ListedProject>)
      ensures projects == loaded && filtered == []
    {
      projects := loaded;
      filtered := [];
    }

    /** applyFilters: keep the projects matching the trimmed, lower-cased
        search text and sort a copy by the selected order, newest first by
        default; the loaded list itself is not reordered. */
    method ApplyFilters(searchValue: string, sortValue: string)
      modifies this`filtered
      ensures projects == old(projects)
      ensures multiset(filtered) == multiset(Filter(projects, Query(searchValue)))
      ensures AdjacentOrdered(filtered, SortOf(sortValue))
      ensures AllKeyed(filtered, SortOf(sortValue)) ==> NonIncreasing(filtered, SortOf(sortValue))
      ensures AdjacentOrdered(Filter(projects, Query(searchValue)), SortOf(sortValue)) ==>
        filtered == Filter(projects, Query(searchValue))
    {
      var query := Query(searchValue);
      var sort := SortOf(sortValue);
      var kept := Filter(projects, query);
      var list := new ListedProject[|kept|](k requires 0 <= k < |kept| => kept[k]);
      assert list[..] == kept;
      SortProjects(list, sort);
      filtered := list[..];
      if AllKeyed(filtered, sort) {
        AdjacentOrderedIsSorted(filtered, sort);
      }
    }
  }
}
