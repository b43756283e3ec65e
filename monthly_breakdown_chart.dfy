/** The monthly status-breakdown chart: the tickets it is given grouped by the month they
    were created in, one record per month with the month's total and its count per status,
    in chronological order, and the chart configuration with the total series and one
    series per status. */
module MonthlyBreakdownChart {
  import opened Wrappers
  import opened Types
  import opened Seqs
  import opened StatusTally
  import opened Months
  import Text

  /** The counts of one month per status; each starts at 0. */
  datatype StatusCounts = StatusCounts(newTickets: nat, pending: nat, active: nat, onHold: nat, closed: nat, terminated: nat)
  {
    function Get(s: TicketStatus): nat
    {
      match s
      case New => newTickets
      case Pending => pending
      case Active => active
      case OnHold => onHold
      case Closed => closed
      case Terminated => terminated
    }

    /** `acc[key][status] = (acc[key][status] || 0) + 1`: one more for `s`, the others as they were. */
    function Add(s: TicketStatus): (r: StatusCounts)
      ensures r.Get(s) == Get(s) + 1
      ensures forall u :: u != s ==> r.Get(u) == Get(u)
      ensures r.Sum() == Sum() + 1
    {
      match s
      case New => this.(newTickets := newTickets + 1)
      case Pending => this.(pending := pending + 1)
      case Active => this.(active := active + 1)
      case OnHold => this.(onHold := onHold + 1)
      case Closed => this.(closed := closed + 1)
      case Terminated => this.(terminated := terminated + 1)
    }

    function Sum(): nat
    {
      newTickets + pending + active + onHold + closed + terminated
    }
  }

  const NoCounts: StatusCounts := StatusCounts(0, 0, 0, 0, 0, 0)

  /** The record of one month. */
  datatype MonthlyRow = MonthlyRow(month: YearMonth, totalTickets: nat, counts: StatusCounts)

  /** The record a month starts with: a total of 0 and 0 for every status. */
  function Start(ym: YearMonth): MonthlyRow
  {
    MonthlyRow(ym, 0, NoCounts)
  }

  /** One ticket of the month: the total and its status's count go up by one. */
  function AddTicket(r: MonthlyRow, t: Ticket): MonthlyRow
  {
    r.(totalTickets := r.totalTickets + 1, counts := r.counts.Add(t.status))
  }

  function RowMonth(r: MonthlyRow): YearMonth
  {
    r.month
  }

  function TotalOf(r: MonthlyRow): nat
  {
    r.totalTickets
  }

  /** The test "created in month `ym` with status `s`". */
  function InMonthWith(monthOf: int -> YearMonth, ym: YearMonth, s: TicketStatus): Ticket -> bool
  {
    (t: Ticket) => monthOf(t.createdAt) == ym && t.status == s
  }

  /** The number of tickets created in month `ym` with status `s`. */
  function MonthStatusCount(tickets: seq<Ticket>, monthOf: int -> YearMonth, ym: YearMonth, s: TicketStatus): nat
  {
    Count(InMonthWith(monthOf, ym, s), tickets)
  }

  /** The record of a month after the `reduce`: its total is the number of tickets of the
      month, its count for each status the number of those with that status, and the counts
      add up to the total. */
  lemma {:induction false} BreakdownFold(tickets: seq<Ticket>, monthOf: int -> YearMonth, ym: YearMonth)
    ensures Fold(tickets, monthOf, Start, AddTicket, ym).month == ym
    ensures Fold(tickets, monthOf, Start, AddTicket, ym).totalTickets == MonthTickets(tickets, monthOf, ym)
    ensures forall s :: Fold(tickets, monthOf, Start, AddTicket, ym).counts.Get(s) == MonthStatusCount(tickets, monthOf, ym, s)
    ensures Fold(tickets, monthOf, Start, AddTicket, ym).counts.Sum() == Fold(tickets, monthOf, Start, AddTicket, ym).totalTickets
    decreases |tickets|
  {
    if tickets != [] {
      BreakdownFold(tickets[..|tickets| - 1], monthOf, ym);
    }
  }

  /** The records of the chart for `tickets`: strictly in chronological order, one per month
      that has tickets and none for any other; each carries its month's number of tickets and
      the number per status, which add up to the total; the totals add up to the number of
      tickets, and there are no records exactly when there are no tickets. */
  method MonthlyBreakdown(tickets: seq<Ticket>, monthOf: int -> YearMonth) returns (data: seq<MonthlyRow>)
    ensures forall i :: 0 <= i < |data| ==> data[i].totalTickets == MonthTickets(tickets, monthOf, data[i].month) > 0
    ensures forall i, s :: 0 <= i < |data| ==> data[i].counts.Get(s) == MonthStatusCount(tickets, monthOf, data[i].month, s)
    ensures forall i :: 0 <= i < |data| ==> data[i].counts.Sum() == data[i].totalTickets
    ensures forall j :: 0 <= j < |tickets| ==> HasRow(data, RowMonth, monthOf(tickets[j].createdAt))
    ensures forall i, j :: 0 <= i < j < |data| ==> Before(data[i].month, data[j].month)
    ensures SumOf(TotalOf, data) == |tickets|
    ensures data == [] <==> tickets == []
  {
    assert KeepsMonth(Start, AddTicket, RowMonth);
    data := MonthlyRows(tickets, monthOf, Start, AddTicket, RowMonth);
    forall i | 0 <= i < |data|
      ensures data[i].totalTickets == MonthTickets(tickets, monthOf, data[i].month)
      ensures forall s :: data[i].counts.Get(s) == MonthStatusCount(tickets, monthOf, data[i].month, s)
      ensures data[i].counts.Sum() == data[i].totalTickets
    {
      BreakdownFold(tickets, monthOf, data[i].month);
    }
    MonthTicketsSum(tickets, monthOf, data, RowMonth, TotalOf);
    if tickets != [] {
      assert HasRow(data, RowMonth, monthOf(tickets[0].createdAt));
    }
  }

  /** The order of the colour table: new, pending, active, on-hold, closed, terminated. */
  const ConfigOrder: seq<TicketStatus> := [TicketStatus.New, Pending, TicketStatus.Active, TicketStatus.OnHold, Closed, Terminated]

  /** The colour table. */
  function StatusColor(s: TicketStatus): string
  {
    match s
    case New => "hsl(var(--chart-1))"
    case Pending => "hsl(var(--chart-2))"
    case Active => "hsl(var(--chart-3))"
    case OnHold => "hsl(var(--chart-4))"
    case Closed => "hsl(var(--chart-5))"
    case Terminated => "hsl(var(--destructive))"
  }

  function StatusLabel(s: TicketStatus): string
  {
    Text.Label(s.Name())
  }

  function StatusKey(s: TicketStatus): string
  {
    s.Name()
  }

  /** The series of the monthly totals. */
  const TotalSeries: ConfigEntry := ConfigEntry("Total Tickets", Some("hsl(var(--muted-foreground))"))

  /** The position of a status in the order. */
  function StatusIndex(s: TicketStatus): (i: nat)
    ensures i < |ConfigOrder| && ConfigOrder[i] == s
  {
    match s
    case New => 0
    case Pending => 1
    case Active => 2
    case OnHold => 3
    case Closed => 4
    case Terminated => 5
  }

  /** The order lists every status, under keys that differ from each other and from "totalTickets". */
  lemma ConfigOrderComplete()
    ensures forall s: TicketStatus :: s in ConfigOrder
    ensures forall i, j :: 0 <= i < j < |ConfigOrder| ==> StatusKey(ConfigOrder[i]) != StatusKey(ConfigOrder[j])
    ensures forall s: TicketStatus :: StatusKey(s) != "totalTickets"
  {
    forall s: TicketStatus ensures s in ConfigOrder && StatusKey(s) != [] {
      assert ConfigOrder[StatusIndex(s)] == s;
    }
    assert forall s, t: TicketStatus :: s != t ==> StatusKey(s)[0] != StatusKey(t)[0];
  }

  /** The `chartConfig` memo: the total series, then each status of the colour table under its
      key with its label and colour, and no other key. */
  method BreakdownConfig() returns (config: map<string, ConfigEntry>)
    ensures config.Keys == {"totalTickets"} + OrderKeys(ConfigOrder, StatusKey)
    ensures config["totalTickets"] == TotalSeries
    ensures forall s: TicketStatus :: StatusKey(s) in config && config[StatusKey(s)] == ConfigEntry(StatusLabel(s), Some(StatusColor(s)))
  {
    ConfigOrderComplete();
    config := OrderConfig(map["totalTickets" := TotalSeries], ConfigOrder, StatusKey, StatusLabel, StatusColor);
    forall s: TicketStatus
      ensures StatusKey(s) in config && config[StatusKey(s)] == ConfigEntry(StatusLabel(s), Some(StatusColor(s)))
    {
      assert ConfigOrder[StatusIndex(s)] == s;
    }
  }
}
