/** The abstract output of an audit pass or a view: the chart requests it
    issues, the checks it adds and their verdicts. How a chart merges the
    requests that share its title and group is rendering, not modelled here. */
module Reports {
  import opened Samples

  /** The status a check or a table cell carries; `NotSet` is a check whose
      status the pass never set. */
  datatype Status = NotSet | OK | Warning

  datatype CheckId = ContainerCpu | NodeCpu

  datatype Check = Check(id: CheckId, status: Status, message: string)

  /** What a chart request feeds into the chart. */
  datatype Feed =
    | Named(name: string)                      // AddSeries(name, <series>)
    | Quotient(name: string, numerators: seq<Series>, denominators: seq<Series>)
                                               // AddSeries(name, Div(NanSum(numerators), NanSum(denominators)))
    | ByMode(node: string)                     // the per-mode series of a node, built elsewhere
    | TopConsumers(node: string, n: nat)       // Top(cpu consumers of the node, NanSum, n)
    | Top(ranked: map<string, Series>, n: nat) // Top(ranked, NanSum, n)

  /** The chart titles the audit pass and the Redis view use. */
  datatype Title =
    | ContainerUsage | ContainerDelay | ContainerThrottled | NodeUsage | NodeConsumers
    | RedisLatency | RedisQueries

  /** The title text each chart is created with. */
  function TitleText(t: Title): string
  {
    match t
    case ContainerUsage => "CPU usage of container <selector>, cores"
    case ContainerDelay => "CPU delay of container <selector>, seconds/second"
    case ContainerThrottled => "Throttled time of container <selector>, seconds/second"
    case NodeUsage => "Node CPU usage <selector>, %"
    case NodeConsumers => "CPU consumers on <selector>, cores"
    case RedisLatency => "Redis latency, seconds"
    case RedisQueries => "Redis queries on <selector>, per seconds"
  }

  /** One GetOrCreateChart(InGroup) call and what is then added to that chart;
      `threshold` names the threshold overlay it sets, if any. */
  datatype ChartRequest = ChartRequest(title: Title, group: Option<string>, feed: Feed, threshold: Option<string>)
}
