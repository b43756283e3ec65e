/** The ticket list: the case-insensitive search over title, customer name and id, and the
    sort by creation time, update time or priority in either direction. */
module TicketList {
  import opened Types
  import opened Seqs
  import opened Sorting
  import Text

  /** The search term occurs, ignoring case, in the title, the customer name or the id. */
  predicate Matches(t: Ticket, term: string)
  {
    var needle := Text.Lower(term);
    Text.Contains(Text.Lower(t.title), needle) || Text.Contains(Text.Lower(t.customerName), needle)
    || Text.Contains(Text.Lower(t.id), needle)
  }

  /** The tickets that match the search term, in list order. */
  function Search(tickets: seq<Ticket>, term: string): seq<Ticket>
  {
    Filter((t: Ticket) => Matches(t, term), tickets)
  }

  /** The search keeps, in order, exactly the tickets that match, each as often as the
      list has it. */
  lemma SearchSpec(tickets: seq<Ticket>, term: string)
    ensures IsSubsequence(Search(tickets, term), tickets)
    ensures forall t :: t in Search(tickets, term) <==> t in tickets && Matches(t, term)
    ensures forall t :: multiset(Search(tickets, term))[t] == if Matches(t, term) then multiset(tickets)[t] else 0
  {
    FilterSpec((t: Ticket) => Matches(t, term), tickets);
    FilterMultiset((t: Ticket) => Matches(t, term), tickets);
  }

  /** An empty term keeps every ticket. */
  lemma SearchEmptyTerm(tickets: seq<Ticket>)
    ensures Search(tickets, "") == tickets
  {
    forall i | 0 <= i < |tickets| ensures Matches(tickets[i], "") {
      Text.ContainsEmpty(Text.Lower(tickets[i].title));
    }
    FilterAll((t: Ticket) => Matches(t, ""), tickets);
  }

  /** The case of the term does not matter. */
  lemma SearchIgnoresCase(tickets: seq<Ticket>, term: string)
    ensures Search(tickets, Text.Lower(term)) == Search(tickets, term)
  {
    Text.LowerIdempotent(term);
    FilterCongruent((t: Ticket) => Matches(t, Text.Lower(term)), (t: Ticket) => Matches(t, term), tickets);
  }

  /** The sort keys the list offers. */
  datatype SortKey = CreatedAt | UpdatedAt | PriorityKey

  /** The direction: `asc`, or any other order, which sorts descending. */
  datatype Order = Asc | Desc

  /** A sort selection: `createdAt_desc` is `SortBy(CreatedAt, Desc)`. */
  datatype SortBy = SortBy(key: SortKey, order: Order)

  /** The five selections the list offers; the first is the initial one. */
  const SortOptions: seq<SortBy> := [SortBy(CreatedAt, Desc), SortBy(CreatedAt, Asc),
    SortBy(PriorityKey, Desc), SortBy(PriorityKey, Asc), SortBy(UpdatedAt, Desc)]

  /** The rank of a priority: low 0, medium 1, high 2, urgent 3. */
  function PriorityRank(p: Priority): (r: nat)
    ensures r < 4
    ensures p == Low <==> r == 0
    ensures p == Urgent <==> r == 3
  {
    match p
    case Low => 0
    case Medium => 1
    case High => 2
    case Urgent => 3
  }

  /** The ranks order the priorities low < medium < high < urgent, one rank per priority. */
  lemma PriorityRankOrder()
    ensures PriorityRank(Low) < PriorityRank(Medium) < PriorityRank(High) < PriorityRank(Urgent)
    ensures forall p, q :: PriorityRank(p) == PriorityRank(q) ==> p == q
  {
  }

  /** The value a ticket is compared by. */
  function KeyValue(t: Ticket, key: SortKey): int
  {
    match key
    case CreatedAt => t.createdAt
    case UpdatedAt => t.updatedAt
    case PriorityKey => PriorityRank(t.priority)
  }

  /** The comparator: -1, 1 or 0 by the two key values, the signs swapped for descending. */
  function Compare(sortBy: SortBy, a: Ticket, b: Ticket): (r: int)
    ensures r == 0 <==> KeyValue(a, sortBy.key) == KeyValue(b, sortBy.key)
    ensures sortBy.order == Asc ==> (r < 0 <==> KeyValue(a, sortBy.key) < KeyValue(b, sortBy.key))
    ensures sortBy.order == Desc ==> (r < 0 <==> KeyValue(a, sortBy.key) > KeyValue(b, sortBy.key))
  {
    var valA := KeyValue(a, sortBy.key);
    var valB := KeyValue(b, sortBy.key);
    if valA < valB then (if sortBy.order == Asc then -1 else 1)
    else if valA > valB then (if sortBy.order == Asc then 1 else -1)
    else 0
  }

  /** Descending compares as the negation of ascending. */
  lemma CompareDescNegatesAsc(key: SortKey, a: Ticket, b: Ticket)
    ensures Compare(SortBy(key, Desc), a, b) == -Compare(SortBy(key, Asc), a, b)
  {
  }

  function Comparator(sortBy: SortBy): (Ticket, Ticket) -> int
  {
    (a, b) => Compare(sortBy, a, b)
  }

  /** The comparator is consistent, as the sort expects. */
  lemma ComparatorIsPreorder(sortBy: SortBy)
    ensures TotalPreorder(Comparator(sortBy))
  {
  }

  /** A list sorted by the comparator has non-decreasing key values ascending and
      non-increasing ones descending. */
  lemma SortedByKey(s: seq<Ticket>, sortBy: SortBy)
    requires SortedBy(s, Comparator(sortBy))
    ensures sortBy.order == Asc ==> forall i, j :: 0 <= i < j < |s| ==> KeyValue(s[i], sortBy.key) <= KeyValue(s[j], sortBy.key)
    ensures sortBy.order == Desc ==> forall i, j :: 0 <= i < j < |s| ==> KeyValue(s[i], sortBy.key) >= KeyValue(s[j], sortBy.key)
  {
    forall i, j | 0 <= i < j < |s| ensures Compare(sortBy, s[i], s[j]) <= 0 {
      assert Comparator(sortBy)(s[i], s[j]) <= 0;
    }
  }

  /** `filteredAndSortedTickets`: the matching tickets, copied into an array and sorted in
      place; the result holds exactly the matching tickets, ordered by the selection. */
  method FilteredAndSortedTickets(tickets: seq<Ticket>, searchTerm: string, sortBy: SortBy) returns (r: seq<Ticket>)
    ensures multiset(r) == multiset(Search(tickets, searchTerm))
    ensures forall t :: t in r <==> t in tickets && Matches(t, searchTerm)
    ensures sortBy.order == Asc ==> forall i, j :: 0 <= i < j < |r| ==> KeyValue(r[i], sortBy.key) <= KeyValue(r[j], sortBy.key)
    ensures sortBy.order == Desc ==> forall i, j :: 0 <= i < j < |r| ==> KeyValue(r[i], sortBy.key) >= KeyValue(r[j], sortBy.key)
  {
    var filtered := Search(tickets, searchTerm);
    ComparatorIsPreorder(sortBy);
    r := SortedCopy(filtered, Comparator(sortBy));
    SortedByKey(r, sortBy);
    SearchSpec(tickets, searchTerm);
    assert forall t :: t in r <==> t in multiset(r);
  }
}
