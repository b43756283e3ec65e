/** The recent-tickets table of the dashboard: the five newest tickets, found by sorting a
    copy of the ticket list newest first and keeping its first five. */
module RecentTickets {
  import opened Types
  import opened Sorting
  import RelativeDate
  import Data

  /** The table shows at most this many tickets. */
  const Shown: nat := 5

  /** `b.createdAt - a.createdAt`: the newer ticket sorts first. */
  function NewestFirst(): (Ticket, Ticket) -> int
  {
    (a: Ticket, b: Ticket) => b.createdAt - a.createdAt
  }

  lemma NewestFirstIsPreorder()
    ensures TotalPreorder(NewestFirst())
  {
  }

  /** `key` does not increase along `s`. */
  ghost predicate NonIncreasing<T>(s: seq<T>, key: T -> int)
  {
    forall i, j :: 0 <= i < j < |s| ==> key(s[i]) >= key(s[j])
  }

  function CreatedAt(t: Ticket): int
  {
    t.createdAt
  }

  lemma NewestFirstOrder(s: seq<Ticket>)
    requires SortedBy(s, NewestFirst())
    ensures NonIncreasing(s, CreatedAt)
  {
    forall i, j | 0 <= i < j < |s| ensures CreatedAt(s[i]) >= CreatedAt(s[j]) {
      assert NewestFirst()(s[i], s[j]) <= 0;
    }
  }

  /** The first `k` elements of a list with a non-increasing key: in order, drawn from the
      list, all of it when `k` is its length, and no later element has a greater key than
      the last of them. */
  lemma SortedPrefix<T>(all: seq<T>, s: seq<T>, k: nat, key: T -> int)
    requires NonIncreasing(s, key) && multiset(s) == multiset(all) && k <= |s|
    ensures NonIncreasing(s[..k], key)
    ensures multiset(s[..k]) <= multiset(all)
    ensures k == |s| ==> multiset(s[..k]) == multiset(all)
    ensures 0 < k ==> forall t :: t in multiset(all) - multiset(s[..k]) ==> key(t) <= key(s[k - 1])
  {
    var r := s[..k];
    assert s == r + s[k..];
    assert multiset(s) == multiset(r) + multiset(s[k..]);
    if 0 < k {
      forall t | t in multiset(all) - multiset(r) ensures key(t) <= key(s[k - 1]) {
        assert t in multiset(s[k..]);
        var m :| 0 <= m < |s[k..]| && s[k..][m] == t;
        assert s[k + m] == t;
      }
    }
  }

  /** The first `k` tickets of a list sorted newest first: newest first, drawn from the
      list, all of it when `k` is its length, and no ticket after them is newer than the
      last of them. */
  lemma NewestPrefix(all: seq<Ticket>, s: seq<Ticket>, k: nat)
    requires SortedBy(s, NewestFirst()) && multiset(s) == multiset(all) && k <= |s|
    ensures forall i, j :: 0 <= i < j < k ==> s[..k][i].createdAt >= s[..k][j].createdAt
    ensures multiset(s[..k]) <= multiset(all)
    ensures k == |s| ==> multiset(s[..k]) == multiset(all)
    ensures 0 < k ==> forall t :: t in multiset(all) - multiset(s[..k]) ==> t.createdAt <= s[..k][k - 1].createdAt
  {
    NewestFirstOrder(s);
    SortedPrefix(all, s, k, CreatedAt);
    assert forall i :: 0 <= i < k ==> s[..k][i] == s[i];
  }

  /** The selection: a copy of the list sorted newest first, cut to its first five. The
      result is as long as the list up to five, newest first, drawn from the list, all of the
      list when it is short, and no ticket left out is newer than the last one shown. */
  method SelectRecent(allTickets: seq<Ticket>) returns (r: seq<Ticket>)
    ensures |r| == if |allTickets| < Shown then |allTickets| else Shown
    ensures forall i, j :: 0 <= i < j < |r| ==> r[i].createdAt >= r[j].createdAt
    ensures multiset(r) <= multiset(allTickets)
    ensures |allTickets| <= Shown ==> multiset(r) == multiset(allTickets)
    ensures r != [] ==> forall t :: t in multiset(allTickets) - multiset(r) ==> t.createdAt <= r[|r| - 1].createdAt
  {
    NewestFirstIsPreorder();
    var s := SortedCopy(allTickets, NewestFirst());
    var k: nat := if |s| < Shown then |s| else Shown;
    NewestPrefix(allTickets, s, k);
    r := s[..k];
  }

  /** A row of the table: the ticket and its creation time as relative text. */
  datatype Row = Row(ticket: Ticket, created: string)

  /** The rows for the tickets, in order. */
  function Rows(tickets: seq<Ticket>, now: int): (r: seq<Row>)
    ensures |r| == |tickets|
    ensures forall i :: 0 <= i < |tickets| ==>
      r[i].ticket == tickets[i] && r[i].created == RelativeDate.FormatRelativeDate(tickets[i].createdAt, now)
  {
    seq(|tickets|, i requires 0 <= i < |tickets| => Row(tickets[i], RelativeDate.FormatRelativeDate(tickets[i].createdAt, now)))
  }

  /** `RecentTicketsTable`: the rows for the newest tickets of the "all" query, which the
      data layer answers with no tickets, so the table is always empty. */
  method RecentTicketsTable(now: int) returns (rows: seq<Row>)
    ensures rows == []
  {
    var allTickets := Data.GetTicketsByStatus(AllTickets);
    var recent := SelectRecent(allTickets);
    rows := Rows(recent, now);
  }
}
