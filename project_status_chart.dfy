/** The projects-by-status report chart: the projects counted per status, one entry per
    project status in the order new, active, on-hold, completed, whose count the chart
    calls its value, and the configuration with the count series and one key per status. */
module ProjectStatusChart {
  import opened Wrappers
  import opened Types
  import opened Seqs
  import opened StatusTally
  import Text

  const StatusOrder: seq<ProjectStatus> := [ProjectStatus.New, ProjectStatus.Active, ProjectStatus.OnHold, Completed]

  /** The colour table. */
  function StatusColor(s: ProjectStatus): string
  {
    match s
    case New => "hsl(var(--chart-1))"
    case Active => "hsl(var(--chart-2))"
    case OnHold => "hsl(var(--chart-3))"
    case Completed => "hsl(var(--chart-4))"
  }

  function StatusLabel(s: ProjectStatus): string
  {
    Text.Label(s.Name())
  }

  function StatusKey(s: ProjectStatus): string
  {
    s.Name()
  }

  function StatusOf(p: Project): ProjectStatus
  {
    p.status
  }

  /** The position of a status in the order. */
  function StatusIndex(s: ProjectStatus): (i: nat)
    ensures i < |StatusOrder| && StatusOrder[i] == s
  {
    match s
    case New => 0
    case Active => 1
    case OnHold => 2
    case Completed => 3
  }

  /** The order lists every status exactly once, with different keys, none of them "count",
      and no colour of the table is empty. */
  lemma StatusOrderComplete()
    ensures Distinct(StatusOrder)
    ensures forall s: ProjectStatus :: s in StatusOrder
    ensures forall i, j :: 0 <= i < j < |StatusOrder| ==> StatusKey(StatusOrder[i]) != StatusKey(StatusOrder[j])
    ensures forall s: ProjectStatus :: StatusKey(s) != "count"
    ensures forall s: ProjectStatus :: Fill(StatusColor(s)) == StatusColor(s)
  {
    forall s: ProjectStatus ensures s in StatusOrder && StatusKey(s) != [] {
      assert StatusOrder[StatusIndex(s)] == s;
    }
    assert forall s, t: ProjectStatus :: s != t ==> StatusKey(s)[0] != StatusKey(t)[0];
  }

  const CountSeries: ConfigEntry := ConfigEntry("Projects", None)

  function BaseConfig(): map<string, ConfigEntry>
  {
    map["count" := CountSeries]
  }

  /** The effect of `ProjectStatusReportChart`: four entries, in order, each with the number
      of projects of its status as its value; the values add up to the number of projects,
      "no data" holds exactly when there are none, and the configuration has "count" and one
      key per status. */
  method ProcessProjects(projects: seq<Project>) returns (data: seq<Entry<ProjectStatus>>, config: map<string, ConfigEntry>)
    ensures |data| == 4
    ensures forall i :: 0 <= i < |StatusOrder| ==> (
      && data[i].status == StatusOrder[i] && data[i].name == StatusLabel(StatusOrder[i])
      && data[i].count == StatusCount(projects, StatusOf, StatusOrder[i])
      && data[i].fill == StatusColor(StatusOrder[i]))
    ensures Total(data) == |projects|
    ensures NoData(data) <==> projects == []
    ensures ConfigFor(config, BaseConfig(), StatusOrder, StatusKey, StatusLabel, StatusColor)
  {
    StatusOrderComplete();
    data, config := StatusChartAndConfig(projects, StatusOf, StatusOrder, StatusKey, StatusLabel, StatusColor, BaseConfig());
  }
}
