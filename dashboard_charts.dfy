/** The ticket-status chart of the dashboard: the tickets of the "all" query counted per
    status, one entry per status in the order of the colour table, and the chart
    configuration built from the entries. */
module DashboardCharts {
  import opened Wrappers
  import opened Types
  import opened Seqs
  import opened StatusTally
  import Text
  import Data

  /** The order of the colour table: new, pending, on-hold, active, closed, terminated. */
  const StatusOrder: seq<TicketStatus> := [TicketStatus.New, Pending, TicketStatus.OnHold, TicketStatus.Active, Closed, Terminated]

  /** The colour table. */
  function StatusColor(s: TicketStatus): string
  {
    match s
    case New => "hsl(var(--chart-1))"
    case Pending => "hsl(var(--chart-2))"
    case OnHold => "hsl(var(--chart-3))"
    case Active => "hsl(var(--chart-4))"
    case Closed => "hsl(var(--chart-5))"
    case Terminated => "hsl(var(--destructive))"
  }

  /** The label of a status: "on-hold" is shown "On hold". */
  function StatusLabel(s: TicketStatus): string
  {
    Text.Label(s.Name())
  }

  function StatusKey(s: TicketStatus): string
  {
    s.Name()
  }

  function StatusOf(t: Ticket): TicketStatus
  {
    t.status
  }

  /** The position of a status in the order. */
  function StatusIndex(s: TicketStatus): (i: nat)
    ensures i < |StatusOrder| && StatusOrder[i] == s
  {
    match s
    case New => 0
    case Pending => 1
    case OnHold => 2
    case Active => 3
    case Closed => 4
    case Terminated => 5
  }

  /** The order lists every status exactly once, and the statuses have different keys, none
      of them "count" or "line"; no colour of the table is empty. */
  lemma StatusOrderComplete()
    ensures Distinct(StatusOrder)
    ensures forall s: TicketStatus :: s in StatusOrder
    ensures forall i, j :: 0 <= i < j < |StatusOrder| ==> StatusKey(StatusOrder[i]) != StatusKey(StatusOrder[j])
    ensures forall s: TicketStatus :: StatusKey(s) != "count" && StatusKey(s) != "line"
    ensures forall s: TicketStatus :: Fill(StatusColor(s)) == StatusColor(s)
  {
    forall s: TicketStatus ensures s in StatusOrder && StatusKey(s) != [] {
      assert StatusOrder[StatusIndex(s)] == s;
    }
    assert forall s, t: TicketStatus :: s != t ==> StatusKey(s)[0] != StatusKey(t)[0];
  }

  /** The entry of the count series. */
  const CountSeries: ConfigEntry := ConfigEntry("Tickets", None)

  /** The configuration the dashboard starts `dynamicConfig` from. */
  function BaseConfig(): map<string, ConfigEntry>
  {
    map["count" := CountSeries]
  }

  /** `dataForChart` and the `forEach` over it once the tickets are at hand: the entries, and
      the base configuration with one key per status carrying that entry's label and colour. */
  method StatusData(allTickets: seq<Ticket>, base: map<string, ConfigEntry>)
    returns (data: seq<Entry<TicketStatus>>, config: map<string, ConfigEntry>)
    requires base.Keys !! OrderKeys(StatusOrder, StatusKey)
    ensures |data| == |StatusOrder|
    ensures forall i :: 0 <= i < |StatusOrder| ==> (
      && data[i].status == StatusOrder[i] && data[i].name == StatusLabel(StatusOrder[i])
      && data[i].count == StatusCount(allTickets, StatusOf, StatusOrder[i])
      && data[i].fill == StatusColor(StatusOrder[i]))
    ensures Total(data) == |allTickets|
    ensures NoData(data) <==> allTickets == []
    ensures ConfigFor(config, base, StatusOrder, StatusKey, StatusLabel, StatusColor)
  {
    StatusOrderComplete();
    data, config := StatusChartAndConfig(allTickets, StatusOf, StatusOrder, StatusKey, StatusLabel, StatusColor, base);
  }

  /** `DashboardCharts`: the chart of the "all" query, which the data layer answers with no
      tickets, so the chart shows "no data". */
  method DashboardChartsData() returns (data: seq<Entry<TicketStatus>>, config: map<string, ConfigEntry>)
    ensures NoData(data) && |data| == |StatusOrder|
    ensures ConfigFor(config, BaseConfig(), StatusOrder, StatusKey, StatusLabel, StatusColor)
  {
    data, config := StatusData(Data.GetTicketsByStatus(AllTickets), BaseConfig());
  }
}
