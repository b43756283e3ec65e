/** The monthly ticket-volume chart: the tickets of the "all" query grouped by the month they
    were created in, one bar per month with its number of tickets, in chronological order. */
module MonthlyVolumeChart {
  import opened Wrappers
  import opened Types
  import opened Seqs
  import opened StatusTally
  import opened Months
  import Data

  /** The chart's one series. */
  const TicketsSeries: ConfigEntry := ConfigEntry("Tickets", Some("hsl(var(--chart-1))"))

  /** One bar: a month and its number of tickets. */
  datatype VolumeRow = VolumeRow(month: YearMonth, tickets: nat)

  /** The record a month starts with. */
  function Start(ym: YearMonth): VolumeRow
  {
    VolumeRow(ym, 0)
  }

  /** `acc[monthYearKey].tickets += 1`. */
  function AddTicket(r: VolumeRow, t: Ticket): VolumeRow
  {
    r.(tickets := r.tickets + 1)
  }

  function RowMonth(r: VolumeRow): YearMonth
  {
    r.month
  }

  function Size(r: VolumeRow): nat
  {
    r.tickets
  }

  /** The record of a month after the `reduce` counts that month's tickets. */
  lemma {:induction false} VolumeFold(tickets: seq<Ticket>, monthOf: int -> YearMonth, ym: YearMonth)
    ensures Fold(tickets, monthOf, Start, AddTicket, ym) == VolumeRow(ym, MonthTickets(tickets, monthOf, ym))
    decreases |tickets|
  {
    if tickets != [] {
      VolumeFold(tickets[..|tickets| - 1], monthOf, ym);
    }
  }

  /** The bars of the chart for `tickets`: strictly in chronological order, one per month
      that has tickets and none for any other, each with the number of tickets of its month;
      the bars add up to the number of tickets, and there are none exactly when there are no
      tickets. */
  method MonthlyVolume(tickets: seq<Ticket>, monthOf: int -> YearMonth) returns (data: seq<VolumeRow>)
    ensures forall i :: 0 <= i < |data| ==> data[i].tickets == MonthTickets(tickets, monthOf, data[i].month) > 0
    ensures forall j :: 0 <= j < |tickets| ==> HasRow(data, RowMonth, monthOf(tickets[j].createdAt))
    ensures forall i, j :: 0 <= i < j < |data| ==> Before(data[i].month, data[j].month)
    ensures SumOf(Size, data) == |tickets|
    ensures data == [] <==> tickets == []
  {
    assert KeepsMonth(Start, AddTicket, RowMonth);
    data := MonthlyRows(tickets, monthOf, Start, AddTicket, RowMonth);
    forall i | 0 <= i < |data| ensures data[i].tickets == MonthTickets(tickets, monthOf, data[i].month) {
      VolumeFold(tickets, monthOf, data[i].month);
    }
    MonthTicketsSum(tickets, monthOf, data, RowMonth, Size);
    if tickets != [] {
      assert HasRow(data, RowMonth, monthOf(tickets[0].createdAt));
    }
  }

  /** `MonthlyTicketVolumeReportChart`: the chart of the "all" query, which the data layer
      answers with no tickets, so the chart shows "no data". */
  method MonthlyVolumeReport(monthOf: int -> YearMonth) returns (data: seq<VolumeRow>)
    ensures data == []
  {
    data := MonthlyVolume(Data.GetTicketsByStatus(AllTickets), monthOf);
  }
}
