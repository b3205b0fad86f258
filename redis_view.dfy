/** The Redis view of an application (api/views/application/redis.go): one
    table row per instance with a Redis bundle, a latency series computed from
    the commands timed and counted, and a top-5 chart of the query rates. */
module RedisView {
  import opened Samples
  import opened Reports

  /** The Redis bundle of an instance. `up` is `None` when the series is nil;
      `role` and `version` are the label values the source reads. */
  datatype Redis = Redis(up: Option<Series>, role: string, version: string,
                         calls: map<string, Series>, callsTime: map<string, Series>)

  datatype Instance = Instance(name: string, redis: Option<Redis>)

  /** The roles the view tells apart; any other role text is kept as is. */
  datatype Role = Master | Slave | OtherRole(text: string)

  function ParseRole(s: string): Role
  {
    if s == "master" then Master else if s == "slave" then Slave else OtherRole(s)
  }

  function RoleText(r: Role): string
  {
    match r
    case Master => "master"
    case Slave => "slave"
    case OtherRole(text) => text
  }

  datatype Icon = Icon(name: string, color: string)

  const MasterIcon := Icon("mdi-database-edit-outline", "rgba(0,0,0,0.87)")
  const SlaveIcon := Icon("mdi-database-import-outline", "grey")

  function RoleIcon(r: Role): Option<Icon>
  {
    match r
    case Master => Some(MasterIcon)
    case Slave => Some(SlaveIcon)
    case OtherRole(_) => None
  }

  /** One row of the "Instance" / "Role" / "Status" table: the instance name
      tagged with its version, the role with its icon, the liveness status. */
  datatype Row = Row(name: string, tag: string, role: string, icon: Option<Icon>, status: Status, message: string)

  const Header := ["Instance", "Role", "Status"]

  datatype Table = Table(header: seq<string>, rows: seq<Row>)

  /** The dashboard; it has a table only once some row has been added to it. */
  datatype Dashboard = Dashboard(title: string, table: Option<Table>, charts: seq<ChartRequest>)

  /** The top chart shows this many commands. */
  const TopCommands := 5

  /** An instance is up when its `up` series exists and its last sample is positive. */
  predicate IsUp(r: Redis)
  {
    r.up.Some? && Greater(r.up.value.last, 0.0)
  }

  /** The liveness cell: "up" when the instance is up, otherwise a warning. */
  function Liveness(r: Redis): (cell: (Status, string))
    ensures cell.0 == OK <==> IsUp(r)
    ensures cell.0 == OK <==> cell.1 == "up"
    ensures cell.0 != OK ==> cell == (Warning, "down (no metrics)")
  {
    if IsUp(r) then (OK, "up") else (Warning, "down (no metrics)")
  }

  function RowOf(name: string, r: Redis): Row
  {
    var (status, message) := Liveness(r);
    var role := ParseRole(r.role);
    Row(name, "version: " + r.version, RoleText(role), RoleIcon(role), status, message)
  }

  /** The instances that have a Redis bundle, in instance order. */
  function RedisInstances(insts: seq<Instance>): seq<(string, Redis)>
    decreases |insts|
  {
    if insts == [] then []
    else
      var i := insts[|insts| - 1];
      RedisInstances(insts[..|insts| - 1]) + (if i.redis.Some? then [(i.name, i.redis.value)] else [])
  }

  /** The table rows, one per instance with a Redis bundle. */
  function Rows(insts: seq<Instance>): seq<Row>
    decreases |insts|
  {
    if insts == [] then []
    else
      var i := insts[|insts| - 1];
      Rows(insts[..|insts| - 1]) + (if i.redis.Some? then [RowOf(i.name, i.redis.value)] else [])
  }

  /** `order` lists, once each, exactly the commands that are both timed and
      counted, and the two aggregators received their series in that order. */
  ghost predicate FedInOrder(order: seq<string>, total: seq<Series>, counted: seq<Series>,
                             callsTime: map<string, Series>, calls: map<string, Series>)
  {
    && |total| == |order| && |counted| == |order|
    && (forall k :: 0 <= k < |order| ==>
          order[k] in callsTime && order[k] in calls &&
          total[k] == callsTime[order[k]] && counted[k] == calls[order[k]])
    && (forall k, l :: 0 <= k < l < |order| ==> order[k] != order[l])
    && (forall cmd :: cmd in callsTime && cmd in calls ==> cmd in order)
  }

  /** The charts of one Redis instance: its series on the shared latency chart,
      fed by the paired commands, and its top-5 queries chart over all of `calls`. */
  ghost predicate InstanceCharts(name: string, r: Redis, order: seq<string>, latency: ChartRequest, queries: ChartRequest)
  {
    && latency.title == RedisLatency && latency.group == None && latency.threshold == None
    && latency.feed.Quotient? && latency.feed.name == name
    && FedInOrder(order, latency.feed.numerators, latency.feed.denominators, r.callsTime, r.calls)
    && queries == ChartRequest(RedisQueries, Some(name), Top(r.calls, TopCommands), None)
  }

  /** The charts follow the selected instances two by two, each pair fed by
      the matching command order. */
  ghost predicate ChartsFollow(sel: seq<(string, Redis)>, orders: seq<seq<string>>, charts: seq<ChartRequest>)
  {
    && |orders| == |sel| && |charts| == 2 * |orders|
    && forall k :: 0 <= k < |orders| ==> InstanceCharts(sel[k].0, sel[k].1, orders[k], charts[2 * k], charts[2 * k + 1])
  }

  /** The loop over `CallsTime`: every command that `Calls` also has feeds its
      time series to `total` and its count series to `calls`. The map is visited
      in an unspecified order, as Go's `range` visits it. */
  method PairCommands(callsTime: map<string, Series>, calls: map<string, Series>)
    returns (total: seq<Series>, counted: seq<Series>, ghost order: seq<string>)
    ensures FedInOrder(order, total, counted, callsTime, calls)
    ensures |total| == |counted| == |callsTime.Keys * calls.Keys|
  {
    total, counted, order := [], [], [];
    var remaining := callsTime.Keys;
    while remaining != {}
      invariant remaining <= callsTime.Keys
      invariant |total| == |order| && |counted| == |order|
      invariant forall k :: 0 <= k < |order| ==>
                  order[k] in callsTime && order[k] in calls && order[k] !in remaining &&
                  total[k] == callsTime[order[k]] && counted[k] == calls[order[k]]
      invariant forall k, l :: 0 <= k < l < |order| ==> order[k] != order[l]
      invariant forall cmd :: cmd in callsTime && cmd in calls && cmd !in remaining ==> cmd in order
      decreases remaining
    {
      var cmd :| cmd in remaining;
      remaining := remaining - {cmd};
      if cmd in calls {
        total := total + [callsTime[cmd]];
        counted := counted + [calls[cmd]];
        order := order + [cmd];
      }
    }
    AggregatorsBalanced(order, total, counted, callsTime, calls);
  }

  /** The Redis dashboard: skips instances without a bundle, builds a row and
      two chart requests for each of the others, in instance order. */
  method Build(instances: seq<Instance>) returns (dash: Dashboard, ghost orders: seq<seq<string>>)
    ensures dash.title == "Redis"
    ensures dash.table.None? <==> forall k :: 0 <= k < |instances| ==> instances[k].redis.None?
    ensures dash.table.Some? ==> dash.table.value == Table(Header, Rows(instances))
    ensures |orders| == |RedisInstances(instances)| && |dash.charts| == 2 * |orders|
    ensures forall k :: 0 <= k < |orders| ==>
              InstanceCharts(RedisInstances(instances)[k].0, RedisInstances(instances)[k].1, orders[k],
                             dash.charts[2 * k], dash.charts[2 * k + 1])
  {
    var table: Option<Table> := None;
    var charts: seq<ChartRequest> := [];
    orders := [];
    for n := 0 to |instances|
      invariant table.None? <==> RedisInstances(instances[..n]) == []
      invariant table.Some? ==> table.value == Table(Header, Rows(instances[..n]))
      invariant ChartsFollow(RedisInstances(instances[..n]), orders, charts)
    {
      var i := instances[n];
      PrefixStep(instances, n);
      if i.redis.None? {
        continue;
      }
      var r := i.redis.value;
      var status, message := OK, "up";
      if !(r.up.Some? && Greater(r.up.value.last, 0.0)) {
        status, message := Warning, "down (no metrics)";
      }
      var icon: Option<Icon> := None;
      if r.role == "master" {
        icon := Some(MasterIcon);
      } else if r.role == "slave" {
        icon := Some(SlaveIcon);
      }
      var row := Row(i.name, "version: " + r.version, r.role, icon, status, message);
      RoleRoundTrip(r.role);
      assert row == RowOf(i.name, r);
      if table.None? {
        RowsFollowRedisInstances(instances[..n]);
        table := Some(Table(Header, []));
      }
      table := Some(table.value.(rows := table.value.rows + [row]));

      var total, counted, order := PairCommands(r.callsTime, r.calls);
      var latency := ChartRequest(RedisLatency, None, Quotient(i.name, total, counted), None);
      var queries := ChartRequest(RedisQueries, Some(i.name), Top(r.calls, TopCommands), None);
      ChartsFollowSnoc(RedisInstances(instances[..n]), orders, charts, i.name, r, order, latency, queries);
      charts := charts + [latency, queries];
      orders := orders + [order];
    }
    assert instances[..|instances|] == instances;
    RedisInstancesEmpty(instances);
    dash := Dashboard("Redis", table, charts);
  }

  // ---------------------------------------------------------------------------
  // Lemmas

  /** One more instance extends the selection and the rows by its own, if any. */
  lemma PrefixStep(insts: seq<Instance>, n: nat)
    requires n < |insts|
    ensures var i := insts[n];
      && RedisInstances(insts[..n + 1]) == RedisInstances(insts[..n]) + (if i.redis.Some? then [(i.name, i.redis.value)] else [])
      && Rows(insts[..n + 1]) == Rows(insts[..n]) + (if i.redis.Some? then [RowOf(i.name, i.redis.value)] else [])
  {
    assert insts[..n + 1][..n] == insts[..n];
  }

  /** The Redis instances of two runs of instances, back to back, are those of
      each run in order. */
  lemma {:induction false} RedisInstancesAppend(a: seq<Instance>, b: seq<Instance>)
    ensures RedisInstances(a + b) == RedisInstances(a) + RedisInstances(b)
    decreases |b|
  {
    if b == [] {
      assert a + b == a;
    } else {
      var init, i := b[..|b| - 1], b[|b| - 1];
      assert (a + b)[..|a + b| - 1] == a + init;
      RedisInstancesAppend(a, init);
    }
  }

  /** Rows follow the Redis instances one for one, in the same order. */
  lemma {:induction false} RowsFollowRedisInstances(insts: seq<Instance>)
    ensures |Rows(insts)| == |RedisInstances(insts)|
    ensures forall k :: 0 <= k < |Rows(insts)| ==>
              Rows(insts)[k] == RowOf(RedisInstances(insts)[k].0, RedisInstances(insts)[k].1)
    decreases |insts|
  {
    if insts != [] {
      RowsFollowRedisInstances(insts[..|insts| - 1]);
    }
  }

  /** An instance without a Redis bundle adds no row and no chart: removing it
      leaves the Redis instances, and so the whole dashboard, unchanged. */
  lemma NoBundleNoOutput(a: seq<Instance>, x: Instance, b: seq<Instance>)
    requires x.redis.None?
    ensures RedisInstances(a + [x] + b) == RedisInstances(a + b)
    ensures Rows(a + [x] + b) == Rows(a + b)
  {
    RedisInstancesAppend(a + [x], b);
    RedisInstancesAppend(a, [x]);
    RedisInstancesAppend(a, b);
    assert [x][..0] == [];
    RowsFollowRedisInstances(a + [x] + b);
    RowsFollowRedisInstances(a + b);
  }

  /** The Redis instances are exactly the named bundles of the instances. */
  lemma {:induction false} RedisInstancesAreTheBundles(insts: seq<Instance>, e: (string, Redis))
    ensures e in RedisInstances(insts) <==>
              exists k :: 0 <= k < |insts| && insts[k].redis == Some(e.1) && insts[k].name == e.0
    decreases |insts|
  {
    if insts != [] {
      var pre, i := insts[..|insts| - 1], insts[|insts| - 1];
      RedisInstancesAreTheBundles(pre, e);
      if e in RedisInstances(pre) {
        var k :| 0 <= k < |pre| && pre[k].redis == Some(e.1) && pre[k].name == e.0;
        assert insts[k] == pre[k];
      }
      if exists k :: 0 <= k < |insts| && insts[k].redis == Some(e.1) && insts[k].name == e.0 {
        var k :| 0 <= k < |insts| && insts[k].redis == Some(e.1) && insts[k].name == e.0;
        if k < |pre| { assert pre[k] == insts[k]; }
      }
    }
  }

  /** No instance is visited exactly when no instance has a Redis bundle. */
  lemma RedisInstancesEmpty(insts: seq<Instance>)
    ensures RedisInstances(insts) == [] <==> forall k :: 0 <= k < |insts| ==> insts[k].redis.None?
  {
    if RedisInstances(insts) != [] {
      RedisInstancesAreTheBundles(insts, RedisInstances(insts)[0]);
    }
    if exists k :: 0 <= k < |insts| && insts[k].redis.Some? {
      var k :| 0 <= k < |insts| && insts[k].redis.Some?;
      RedisInstancesAreTheBundles(insts, (insts[k].name, insts[k].redis.value));
    }
  }

  lemma ChartsFollowSnoc(sel: seq<(string, Redis)>, orders: seq<seq<string>>, charts: seq<ChartRequest>,
                         name: string, r: Redis, order: seq<string>, latency: ChartRequest, queries: ChartRequest)
    requires ChartsFollow(sel, orders, charts)
    requires InstanceCharts(name, r, order, latency, queries)
    ensures ChartsFollow(sel + [(name, r)], orders + [order], charts + [latency, queries])
  {
    var charts' := charts + [latency, queries];
    forall k | 0 <= k < |orders|
      ensures charts'[2 * k] == charts[2 * k] && charts'[2 * k + 1] == charts[2 * k + 1]
    {
    }
  }

  /** A sequence without repetitions has as many elements as its set. */
  lemma {:induction false} DistinctLength(s: seq<string>)
    requires forall k, l :: 0 <= k < l < |s| ==> s[k] != s[l]
    ensures |set x | x in s| == |s|
    decreases |s|
  {
    if s != [] {
      var init := s[..|s| - 1];
      DistinctLength(init);
      assert (set x | x in s) == (set x | x in init) + {s[|s| - 1]};
      assert s[|s| - 1] !in (set x | x in init);
    }
  }

  /** Both aggregators receive one input per command present in both maps, so
      they receive the same number of inputs; a command in one map only is skipped. */
  lemma AggregatorsBalanced(order: seq<string>, total: seq<Series>, counted: seq<Series>,
                            callsTime: map<string, Series>, calls: map<string, Series>)
    requires FedInOrder(order, total, counted, callsTime, calls)
    ensures |total| == |counted| == |callsTime.Keys * calls.Keys|
    ensures forall cmd :: cmd in order <==> cmd in callsTime && cmd in calls
  {
    DistinctLength(order);
    assert (set x | x in order) == callsTime.Keys * calls.Keys;
  }

  /** The status cell is OK "up" exactly for an instance whose `up` series exists
      with a positive last sample, and a "down (no metrics)" warning otherwise. */
  lemma RowStatus(name: string, r: Redis)
    ensures RowOf(name, r).status == OK <==> r.up.Some? && Greater(r.up.value.last, 0.0)
    ensures RowOf(name, r).status != OK ==> RowOf(name, r).status == Warning && RowOf(name, r).message == "down (no metrics)"
    ensures RowOf(name, r).status == OK ==> RowOf(name, r).message == "up"
  {
  }

  /** The role cell always shows the role text; only "master" and "slave" get an icon. */
  lemma RoleCell(name: string, r: Redis)
    ensures RowOf(name, r).role == r.role
    ensures RowOf(name, r).icon.Some? <==> r.role == "master" || r.role == "slave"
    ensures r.role == "master" ==> RowOf(name, r).icon == Some(Icon("mdi-database-edit-outline", "rgba(0,0,0,0.87)"))
    ensures r.role == "slave" ==> RowOf(name, r).icon == Some(Icon("mdi-database-import-outline", "grey"))
  {
    RoleRoundTrip(r.role);
  }

  /** Parsing a role keeps its text. */
  lemma RoleRoundTrip(s: string)
    ensures RoleText(ParseRole(s)) == s
  {
  }
}
