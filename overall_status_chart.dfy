/** The overall tickets-by-status report chart: the tickets it is given counted per status
    in the order of the colour table, and a configuration with the count series, the line
    series and one key per status. */
module OverallStatusChart {
  import opened Wrappers
  import opened Types
  import opened StatusTally
  import opened DashboardCharts

  /** The entry of the line series. */
  const LineSeries: ConfigEntry := ConfigEntry("Tickets", Some("hsl(var(--primary))"))

  /** The configuration the chart starts `dynamicConfig` from. */
  function LineBaseConfig(): map<string, ConfigEntry>
  {
    map["count" := CountSeries, "line" := LineSeries]
  }

  /** The effect of `OverallTicketsByStatusChart`: the entries for the tickets, which add up
      to their number, "no data" exactly when there are none, and the configuration with
      "count", "line" and one key per status. */
  method ProcessTickets(tickets: seq<Ticket>) returns (data: seq<Entry<TicketStatus>>, config: map<string, ConfigEntry>)
    ensures |data| == |StatusOrder|
    ensures forall i :: 0 <= i < |StatusOrder| ==> (
      && data[i].status == StatusOrder[i] && data[i].name == StatusLabel(StatusOrder[i])
      && data[i].count == StatusCount(tickets, StatusOf, StatusOrder[i])
      && data[i].fill == StatusColor(StatusOrder[i]))
    ensures Total(data) == |tickets|
    ensures NoData(data) <==> tickets == []
    ensures ConfigFor(config, LineBaseConfig(), StatusOrder, StatusKey, StatusLabel, StatusColor)
    ensures "count" in config && "line" in config
  {
    data, config := StatusData(tickets, LineBaseConfig());
  }
}
