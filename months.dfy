/** What the two monthly charts share: the calendar month a ticket was created in, the
    `reduce` that groups tickets into one record per month in a dictionary, and the
    chronological sort of the records. The calendar is a parameter: `monthOf` maps a time
    in milliseconds to its year and 0-based month. */
module Months {
  import opened Types
  import opened Seqs
  import opened Sorting
  import opened StatusTally

  /** A calendar month: the year and the month from 0 (January) to 11. */
  datatype YearMonth = YearMonth(year: int, month: int)

  /** The month a ticket was created in. */
  function TicketMonth(monthOf: int -> YearMonth): Ticket -> YearMonth
  {
    (t: Ticket) => monthOf(t.createdAt)
  }

  /** The number of tickets created in a month. */
  function MonthTickets(tickets: seq<Ticket>, monthOf: int -> YearMonth, ym: YearMonth): nat
  {
    StatusCount(tickets, TicketMonth(monthOf), ym)
  }

  /** The record of month `ym` after the `reduce` over `tickets`: it starts as `init(ym)` and
      each ticket of that month is applied with `step`, in list order. */
  function Fold<R>(tickets: seq<Ticket>, monthOf: int -> YearMonth, init: YearMonth -> R, step: (R, Ticket) -> R, ym: YearMonth): R
    decreases |tickets|
  {
    if tickets == [] then init(ym)
    else
      var prev := Fold(tickets[..|tickets| - 1], monthOf, init, step, ym);
      var t := tickets[|tickets| - 1];
      if monthOf(t.createdAt) == ym then step(prev, t) else prev
  }

  /** A month without tickets keeps its initial record. */
  lemma {:induction false} FoldUntouched<R>(tickets: seq<Ticket>, monthOf: int -> YearMonth, init: YearMonth -> R, step: (R, Ticket) -> R, ym: YearMonth)
    requires MonthTickets(tickets, monthOf, ym) == 0
    ensures Fold(tickets, monthOf, init, step, ym) == init(ym)
    decreases |tickets|
  {
    if tickets != [] {
      FoldUntouched(tickets[..|tickets| - 1], monthOf, init, step, ym);
    }
  }

  /** The records carry their month: `init` puts it there and `step` keeps it. */
  ghost predicate KeepsMonth<R(!new)>(init: YearMonth -> R, step: (R, Ticket) -> R, rowMonth: R -> YearMonth)
  {
    && (forall ym :: rowMonth(init(ym)) == ym)
    && (forall r, t :: rowMonth(step(r, t)) == rowMonth(r))
  }

  lemma {:induction false} FoldMonth<R(!new)>(tickets: seq<Ticket>, monthOf: int -> YearMonth, init: YearMonth -> R,
    step: (R, Ticket) -> R, rowMonth: R -> YearMonth, ym: YearMonth)
    requires KeepsMonth(init, step, rowMonth)
    ensures rowMonth(Fold(tickets, monthOf, init, step, ym)) == ym
    decreases |tickets|
  {
    if tickets != [] {
      FoldMonth(tickets[..|tickets| - 1], monthOf, init, step, rowMonth, ym);
    }
  }

  /** The `reduce` into a dictionary keyed by month: a month's record starts when its first
      ticket comes, and `keys` lists the months in that order (the order `Object.values`
      returns them in). Exactly the months with tickets have a record, each the fold of its
      tickets. */
  method GroupByMonth<R>(tickets: seq<Ticket>, monthOf: int -> YearMonth, init: YearMonth -> R, step: (R, Ticket) -> R)
    returns (keys: seq<YearMonth>, acc: map<YearMonth, R>)
    ensures Distinct(keys)
    ensures forall ym :: ym in acc <==> ym in keys
    ensures forall ym :: ym in acc <==> MonthTickets(tickets, monthOf, ym) > 0
    ensures forall ym :: ym in acc ==> acc[ym] == Fold(tickets, monthOf, init, step, ym)
  {
    keys := [];
    acc := map[];
    var i := 0;
    while i < |tickets|
      invariant 0 <= i <= |tickets|
      invariant Distinct(keys)
      invariant forall ym :: ym in acc <==> ym in keys
      invariant forall ym :: ym in acc <==> MonthTickets(tickets[..i], monthOf, ym) > 0
      invariant forall ym :: ym in acc ==> acc[ym] == Fold(tickets[..i], monthOf, init, step, ym)
    {
      var t := tickets[i];
      var key := monthOf(t.createdAt);
      if key !in acc {
        FoldUntouched(tickets[..i], monthOf, init, step, key);
        acc := acc[key := init(key)];
        keys := keys + [key];
      }
      acc := acc[key := step(acc[key], t)];
      assert tickets[..i + 1][..i] == tickets[..i];
      i := i + 1;
    }
    assert tickets[..i] == tickets;
  }

  /** Some record of `rows` is the one of month `ym`. */
  predicate HasRow<R>(rows: seq<R>, rowMonth: R -> YearMonth, ym: YearMonth)
  {
    exists i :: 0 <= i < |rows| && rowMonth(rows[i]) == ym
  }

  /** `a` comes before `b`: an earlier year, or the same year and an earlier month. */
  predicate Before(a: YearMonth, b: YearMonth)
  {
    a.year < b.year || (a.year == b.year && a.month < b.month)
  }

  /** The comparator of the charts: the difference of the years, or of the months when the
      years are equal. */
  function ChronoCompare(a: YearMonth, b: YearMonth): (r: int)
    ensures r < 0 <==> Before(a, b)
    ensures r == 0 <==> a == b
  {
    if a.year != b.year then a.year - b.year else a.month - b.month
  }

  /** The comparator on records, by their month. */
  function RowCompare<R>(rowMonth: R -> YearMonth): (R, R) -> int
  {
    (a: R, b: R) => ChronoCompare(rowMonth(a), rowMonth(b))
  }

  lemma RowCompareIsPreorder<R(!new)>(rowMonth: R -> YearMonth)
    ensures TotalPreorder(RowCompare(rowMonth))
  {
  }

  /** `Object.values(acc).sort(...)`: the records of the months with tickets, strictly in
      chronological order; each is the fold of its month's tickets, and every ticket's month
      has one. */
  method MonthlyRows<R(!new)>(tickets: seq<Ticket>, monthOf: int -> YearMonth, init: YearMonth -> R,
    step: (R, Ticket) -> R, rowMonth: R -> YearMonth)
    returns (rows: seq<R>)
    requires KeepsMonth(init, step, rowMonth)
    ensures forall i :: 0 <= i < |rows| ==> rows[i] == Fold(tickets, monthOf, init, step, rowMonth(rows[i]))
    ensures forall i :: 0 <= i < |rows| ==> MonthTickets(tickets, monthOf, rowMonth(rows[i])) > 0
    ensures forall j :: 0 <= j < |tickets| ==> HasRow(rows, rowMonth, monthOf(tickets[j].createdAt))
    ensures forall i, j :: 0 <= i < j < |rows| ==> Before(rowMonth(rows[i]), rowMonth(rows[j]))
  {
    var keys, acc := GroupByMonth(tickets, monthOf, init, step);
    var values := seq(|keys|, i requires 0 <= i < |keys| => acc[keys[i]]);
    forall i | 0 <= i < |keys| ensures rowMonth(values[i]) == keys[i] {
      FoldMonth(tickets, monthOf, init, step, rowMonth, keys[i]);
    }
    assert Distinct(values);
    RowCompareIsPreorder(rowMonth);
    rows := SortedCopy(values, RowCompare(rowMonth));
    RowsFacts(tickets, monthOf, init, step, rowMonth, keys, acc, values, rows);
  }

  /** The facts `MonthlyRows` states, from the grouping and the sort. */
  lemma RowsFacts<R(!new)>(tickets: seq<Ticket>, monthOf: int -> YearMonth, init: YearMonth -> R,
    step: (R, Ticket) -> R, rowMonth: R -> YearMonth,
    keys: seq<YearMonth>, acc: map<YearMonth, R>, values: seq<R>, rows: seq<R>)
    requires forall ym :: ym in acc <==> ym in keys
    requires forall ym :: ym in acc <==> MonthTickets(tickets, monthOf, ym) > 0
    requires forall ym :: ym in acc ==> acc[ym] == Fold(tickets, monthOf, init, step, ym)
    requires |values| == |keys| && forall i :: 0 <= i < |keys| ==> values[i] == acc[keys[i]] && rowMonth(values[i]) == keys[i]
    requires Distinct(values)
    requires multiset(rows) == multiset(values)
    requires SortedBy(rows, RowCompare(rowMonth))
    ensures forall i :: 0 <= i < |rows| ==> rows[i] == Fold(tickets, monthOf, init, step, rowMonth(rows[i]))
    ensures forall i :: 0 <= i < |rows| ==> MonthTickets(tickets, monthOf, rowMonth(rows[i])) > 0
    ensures forall j :: 0 <= j < |tickets| ==> HasRow(rows, rowMonth, monthOf(tickets[j].createdAt))
    ensures forall i, j :: 0 <= i < j < |rows| ==> Before(rowMonth(rows[i]), rowMonth(rows[j]))
  {
    forall i | 0 <= i < |rows|
      ensures rows[i] == Fold(tickets, monthOf, init, step, rowMonth(rows[i]))
      ensures MonthTickets(tickets, monthOf, rowMonth(rows[i])) > 0
    {
      assert rows[i] in multiset(values);
      var k :| 0 <= k < |values| && values[k] == rows[i];
    }
    forall j | 0 <= j < |tickets|
      ensures HasRow(rows, rowMonth, monthOf(tickets[j].createdAt))
    {
      var ym := monthOf(tickets[j].createdAt);
      MonthTicketsPositive(tickets, monthOf, j);
      var k :| 0 <= k < |keys| && keys[k] == ym;
      assert values[k] in multiset(rows);
      var i :| 0 <= i < |rows| && rows[i] == values[k];
    }
    DistinctPermutation(values, rows);
    forall i, j | 0 <= i < j < |rows| ensures Before(rowMonth(rows[i]), rowMonth(rows[j])) {
      assert RowCompare(rowMonth)(rows[i], rows[j]) <= 0;
    }
  }

  /** The month of a ticket of the list has tickets. */
  lemma {:induction false} MonthTicketsPositive(tickets: seq<Ticket>, monthOf: int -> YearMonth, j: int)
    requires 0 <= j < |tickets|
    ensures MonthTickets(tickets, monthOf, monthOf(tickets[j].createdAt)) > 0
    decreases |tickets|
  {
    if j < |tickets| - 1 {
      MonthTicketsPositive(tickets[..|tickets| - 1], monthOf, j);
    }
  }

  /** Over records in distinct months that cover every ticket's month, the tickets per month
      add up to the number of tickets. */
  lemma MonthTicketsSum<R>(tickets: seq<Ticket>, monthOf: int -> YearMonth, rows: seq<R>, rowMonth: R -> YearMonth, size: R -> nat)
    requires forall i, j :: 0 <= i < j < |rows| ==> Before(rowMonth(rows[i]), rowMonth(rows[j]))
    requires forall j :: 0 <= j < |tickets| ==> HasRow(rows, rowMonth, monthOf(tickets[j].createdAt))
    requires forall i :: 0 <= i < |rows| ==> size(rows[i]) == MonthTickets(tickets, monthOf, rowMonth(rows[i]))
    ensures SumOf(size, rows) == |tickets|
  {
    var months := seq(|rows|, i requires 0 <= i < |rows| => rowMonth(rows[i]));
    assert Distinct(months) by {
      forall i, j | 0 <= i < j < |months| ensures months[i] != months[j] {
        assert Before(months[i], months[j]);
      }
    }
    forall j | 0 <= j < |tickets| ensures TicketMonth(monthOf)(tickets[j]) in months {
      var i :| 0 <= i < |rows| && rowMonth(rows[i]) == monthOf(tickets[j].createdAt);
      assert months[i] == TicketMonth(monthOf)(tickets[j]);
    }
    SumCountsIsLength(months, tickets, TicketMonth(monthOf));
    SumOfIsSumCounts(tickets, monthOf, rows, rowMonth, size, months);
  }

  lemma {:induction false} SumOfIsSumCounts<R>(tickets: seq<Ticket>, monthOf: int -> YearMonth, rows: seq<R>,
    rowMonth: R -> YearMonth, size: R -> nat, months: seq<YearMonth>)
    requires |months| == |rows| && forall i :: 0 <= i < |rows| ==> months[i] == rowMonth(rows[i])
    requires forall i :: 0 <= i < |rows| ==> size(rows[i]) == MonthTickets(tickets, monthOf, rowMonth(rows[i]))
    ensures SumOf(size, rows) == SumCounts(months, tickets, TicketMonth(monthOf))
    decreases |rows|
  {
    if rows != [] {
      SumOfIsSumCounts(tickets, monthOf, rows[1..], rowMonth, size, months[1..]);
      SumAppend(size, [rows[0]], rows[1..]);
      assert [rows[0]] + rows[1..] == rows;
      assert SumOf(size, [rows[0]]) == size(rows[0]) by {
        assert [rows[0]][..0] == [];
      }
    }
  }
}
