/** The project list: the case-insensitive search over name, description and id, and the
    sort by creation time, update time, deadline or name in either direction, where a
    missing deadline sorts after every date ascending and before every date descending. */
module ProjectList {
  import opened Wrappers
  import opened Types
  import opened Seqs
  import opened Sorting
  import Text

  /** The search term occurs, ignoring case, in the name, the description or the id. */
  predicate Matches(p: Project, term: string)
  {
    var needle := Text.Lower(term);
    Text.Contains(Text.Lower(p.name), needle) || Text.Contains(Text.Lower(p.description), needle)
    || Text.Contains(Text.Lower(p.id), needle)
  }

  /** The projects that match the search term, in list order. */
  function Search(projects: seq<Project>, term: string): seq<Project>
  {
    Filter((p: Project) => Matches(p, term), projects)
  }

  /** The search keeps, in order, exactly the projects that match, each as often as the
      list has it, and the case of the term does not matter. */
  lemma SearchSpec(projects: seq<Project>, term: string)
    ensures IsSubsequence(Search(projects, term), projects)
    ensures forall p :: p in Search(projects, term) <==> p in projects && Matches(p, term)
    ensures forall p :: multiset(Search(projects, term))[p] == if Matches(p, term) then multiset(projects)[p] else 0
    ensures Search(projects, Text.Lower(term)) == Search(projects, term)
  {
    FilterSpec((p: Project) => Matches(p, term), projects);
    FilterMultiset((p: Project) => Matches(p, term), projects);
    Text.LowerIdempotent(term);
    FilterCongruent((p: Project) => Matches(p, Text.Lower(term)), (p: Project) => Matches(p, term), projects);
  }

  /** The sort keys the list offers. */
  datatype SortKey = CreatedAt | UpdatedAt | Deadline | Name

  /** The direction: `asc`, or any other order, which sorts descending. */
  datatype Order = Asc | Desc

  datatype SortBy = SortBy(key: SortKey, order: Order)

  /** The seven selections the list offers; the first is the initial one. */
  const SortOptions: seq<SortBy> := [SortBy(CreatedAt, Desc), SortBy(CreatedAt, Asc),
    SortBy(Name, Asc), SortBy(Name, Desc), SortBy(Deadline, Asc), SortBy(Deadline, Desc),
    SortBy(UpdatedAt, Desc)]

  /** The time a date key reads; only a deadline can be missing. */
  function DateValue(p: Project, key: SortKey): Option<int>
    requires key != Name
  {
    match key
    case CreatedAt => Some(p.createdAt)
    case UpdatedAt => Some(p.updatedAt)
    case Deadline => p.deadline
  }

  /** Compares two dates; a missing one sorts last ascending and first descending, and two
      missing ones are equal. */
  function CompareDates(x: Option<int>, y: Option<int>, order: Order): (r: int)
    ensures x.None? && y.None? ==> r == 0
    ensures x.None? && y.Some? ==> (r > 0 <==> order == Asc) && r != 0
    ensures x.Some? && y.None? ==> (r < 0 <==> order == Asc) && r != 0
    ensures x.Some? && y.Some? ==> (
      && (r == 0 <==> x.value == y.value)
      && (order == Asc ==> (r < 0 <==> x.value < y.value))
      && (order == Desc ==> (r < 0 <==> x.value > y.value)))
  {
    if x.None? && y.None? then 0
    else if x.None? then (if order == Asc then 1 else -1)
    else if y.None? then (if order == Asc then -1 else 1)
    else if x.value < y.value then (if order == Asc then -1 else 1)
    else if x.value > y.value then (if order == Asc then 1 else -1)
    else 0
  }

  /** Compares two lower-cased names by the string order. */
  function CompareNames(x: string, y: string, order: Order): (r: int)
    ensures r == 0 <==> Text.Lower(x) == Text.Lower(y)
    ensures order == Asc ==> (r < 0 <==> Text.LexLess(Text.Lower(x), Text.Lower(y)))
    ensures order == Desc ==> (r < 0 <==> Text.LexLess(Text.Lower(y), Text.Lower(x)))
  {
    var valA := Text.Lower(x);
    var valB := Text.Lower(y);
    Text.LexLessTrichotomy(valA, valB);
    Text.LexLessIrreflexive(valA);
    if Text.LexLess(valA, valB) then (if order == Asc then -1 else 1)
    else if Text.LexLess(valB, valA) then (if order == Asc then 1 else -1)
    else 0
  }

  /** The comparator of the list. */
  function Compare(sortBy: SortBy, a: Project, b: Project): int
  {
    if sortBy.key == Name then CompareNames(a.name, b.name, sortBy.order)
    else CompareDates(DateValue(a, sortBy.key), DateValue(b, sortBy.key), sortBy.order)
  }

  /** Descending compares as the negation of ascending, missing dates included. */
  lemma CompareDescNegatesAsc(key: SortKey, a: Project, b: Project)
    ensures Compare(SortBy(key, Desc), a, b) == -Compare(SortBy(key, Asc), a, b)
  {
    if key == Name {
      Text.LexLessTrichotomy(Text.Lower(a.name), Text.Lower(b.name));
    }
  }

  /** Names that differ only in case compare equal to everything alike. */
  lemma CompareNamesIgnoresCase(order: Order, a: Project, b: Project)
    ensures Compare(SortBy(Name, order), a, b) == Compare(SortBy(Name, order), a.(name := Text.Lower(a.name)), b)
  {
    Text.LowerIdempotent(a.name);
  }

  function Comparator(sortBy: SortBy): (Project, Project) -> int
  {
    (a, b) => Compare(sortBy, a, b)
  }

  /** The comparator is consistent, as the sort expects. */
  lemma ComparatorIsPreorder(sortBy: SortBy)
    ensures TotalPreorder(Comparator(sortBy))
  {
    var cmp := Comparator(sortBy);
    if sortBy.key == Name {
      forall a, b ensures cmp(a, b) <= 0 || cmp(b, a) <= 0 {
        Text.LexLessTrichotomy(Text.Lower(a.name), Text.Lower(b.name));
      }
      forall a, b, c | cmp(a, b) <= 0 && cmp(b, c) <= 0 ensures cmp(a, c) <= 0 {
        var x, y, z := Text.Lower(a.name), Text.Lower(b.name), Text.Lower(c.name);
        Text.LexLessTrichotomy(x, z);
        if sortBy.order == Asc {
          if Text.LexLess(z, x) {
            Text.LexLessTrichotomy(x, y);
            Text.LexLessTrichotomy(y, z);
            if Text.LexLess(x, y) { Text.LexLessTransitive(z, x, y); }
            if Text.LexLess(y, z) { Text.LexLessTransitive(y, z, x); }
          }
        } else {
          if Text.LexLess(x, z) {
            Text.LexLessTrichotomy(x, y);
            Text.LexLessTrichotomy(y, z);
            if Text.LexLess(y, x) { Text.LexLessTransitive(y, x, z); }
            if Text.LexLess(z, y) { Text.LexLessTransitive(x, z, y); }
          }
        }
      }
    }
  }

  /** A list sorted by a date key: missing dates come after all present ones ascending and
      before them descending, and the present dates are in order. */
  lemma SortedByDate(s: seq<Project>, sortBy: SortBy)
    requires sortBy.key != Name && SortedBy(s, Comparator(sortBy))
    ensures forall i, j :: 0 <= i < j < |s| && DateValue(s[i], sortBy.key).None? && sortBy.order == Asc ==>
      DateValue(s[j], sortBy.key).None?
    ensures forall i, j :: 0 <= i < j < |s| && DateValue(s[j], sortBy.key).None? && sortBy.order == Desc ==>
      DateValue(s[i], sortBy.key).None?
    ensures forall i, j :: 0 <= i < j < |s| && DateValue(s[i], sortBy.key).Some? && DateValue(s[j], sortBy.key).Some? ==>
      if sortBy.order == Asc then DateValue(s[i], sortBy.key).value <= DateValue(s[j], sortBy.key).value
      else DateValue(s[i], sortBy.key).value >= DateValue(s[j], sortBy.key).value
  {
    forall i, j | 0 <= i < j < |s| ensures Compare(sortBy, s[i], s[j]) <= 0 {
      assert Comparator(sortBy)(s[i], s[j]) <= 0;
    }
  }

  /** A list sorted by name: no later name is below an earlier one, ignoring case. */
  lemma SortedByName(s: seq<Project>, order: Order)
    requires SortedBy(s, Comparator(SortBy(Name, order)))
    ensures forall i, j :: 0 <= i < j < |s| ==>
      if order == Asc then !Text.LexLess(Text.Lower(s[j].name), Text.Lower(s[i].name))
      else !Text.LexLess(Text.Lower(s[i].name), Text.Lower(s[j].name))
  {
    forall i, j | 0 <= i < j < |s| ensures Compare(SortBy(Name, order), s[i], s[j]) <= 0 {
      assert Comparator(SortBy(Name, order))(s[i], s[j]) <= 0;
    }
    forall i, j | 0 <= i < j < |s|
      ensures if order == Asc then !Text.LexLess(Text.Lower(s[j].name), Text.Lower(s[i].name))
        else !Text.LexLess(Text.Lower(s[i].name), Text.Lower(s[j].name))
    {
      Text.LexLessTrichotomy(Text.Lower(s[i].name), Text.Lower(s[j].name));
    }
  }

  /** `filteredAndSortedProjects`: the matching projects, copied into an array and sorted in
      place by the selection's comparator; the result holds exactly the matching projects. */
  method FilteredAndSortedProjects(projects: seq<Project>, searchTerm: string, sortBy: SortBy) returns (r: seq<Project>)
    ensures multiset(r) == multiset(Search(projects, searchTerm))
    ensures forall p :: p in r <==> p in projects && Matches(p, searchTerm)
    ensures SortedBy(r, Comparator(sortBy))
  {
    var filtered := Search(projects, searchTerm);
    ComparatorIsPreorder(sortBy);
    r := SortedCopy(filtered, Comparator(sortBy));
    SearchSpec(projects, searchTerm);
    assert forall p :: p in r <==> p in multiset(r);
  }
}
