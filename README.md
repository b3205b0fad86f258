# CPU audit pass and Redis view, modelled in Dafny

This project models two sequential routines of an application-health auditor:

- **The CPU audit pass** (`appAuditor.cpu`). It walks the instances of an application and, for each instance, its containers. Every container requests three charts. A container is overloaded when it has both a usage and a limit series and `usage.Last() / limit.Last()` is greater than the container threshold. Overloaded containers are collected in a string set under `"container@instance"`. For each instance that has a node, the node is deduplicated by name through the `relevantNodes` map. Only its first sighting requests the three node charts and tests `CpuUsagePercent.Last()` against the node threshold. The pass ends by adding the container CPU check and then the node CPU check. Each check becomes a WARNING with a pluralised count when its set is non-empty.
- **The Redis view** (`redis`). It skips each instance without a Redis bundle. For every other instance it adds one table row: the name tagged with the version, the role with its icon, and the liveness status. It pairs the commands present in both `CallsTime` and `Calls` into the `total` and `calls` aggregators. It then adds one series to the shared latency chart and one top-5 queries chart over all of `Calls`.

Both routines are imperative in the source, so each one is a Dafny method with loops: `CpuAudit.Audit` and `RedisView.Build`, plus `RedisView.PairCommands` for the map loop. Each method is proved against specification functions (`CpuAudit.CpuReport`/`PassOver`, `RedisView.Rows`/`RedisInstances`). Lemmas then characterise those functions independently of the fold: set comprehensions for the violator sets, a first-sighting predicate for node deduplication, the chart list and its length, and check verdicts.

Modules:

- `Samples` (samples.dfy): `Option`, a `Float` sample (`NaN`, `PosInf`, `NegInf`, `Finite(real)`), and Go's `>` on it. A present time series is represented by its last sample.
- `Reports` (reports.dfy): check statuses and ids, chart titles with their exact texts, and chart requests as `(title, group, feed, threshold overlay)`.
- `English` (english.dfy): decimal formatting of a count and `english.Plural`.
- `CpuAudit` (cpu_audit.dfy): the CPU audit pass.
- `RedisView` (redis_view.dfy): the Redis view.

The container check reads like a percentage threshold, but auditor/cpu.go:26-27 compares the raw ratio `usage.Last() / limit.Last()` with the configured value, 80 by default, with no scaling by 100. The model follows the code: `CpuAudit.DefaultThresholdIsNotAPercentage` states that a ratio of 0.9 is not overloaded under the default. auditor/cpu.go:25 tests only that both series are non-nil, not that the limit is non-zero, and the model adds no zero check either.

## Model

| member | source | states |
|---|---|---|
| `CpuAudit.Audit` | auditor/cpu.go:10-76 | The pass with its in-place sets and node map yields exactly `CpuReport`: the chart requests in visiting order and the two checks. |
| `CpuAudit.ContainerCharts` | auditor/cpu.go:19-23 | Every container requests exactly three charts, each grouped by the container name and carrying one series named after the instance. |
| `CpuAudit.NodeCharts` | auditor/cpu.go:36-53 | A node's first sighting requests three charts, the first being the node's series on the "overview" usage chart. |
| `CpuAudit.ContainersStepEffect` | auditor/cpu.go:18-31 | Visiting an instance's containers adds three charts per container and exactly the keys of its overloaded containers, and leaves the node map and node set unchanged. |
| `CpuAudit.OverloadedContainersExactly` | auditor/cpu.go:25-30 | The container violator set equals the set of `name@instance` keys over all containers that have both series and a ratio strictly greater than the threshold. A key reached twice is stored once. |
| `CpuAudit.MissingSeriesNeverFlags` | auditor/cpu.go:25-30 | A container missing its usage or limit series puts its key in the set only if some other overloaded container shares that key. |
| `CpuAudit.DefaultThresholdIsNotAPercentage` | auditor/cpu.go:26-27 | The ratio is compared with the threshold as is: under the default 80, a ratio of 0.9 is not overloaded. |
| `CpuAudit.ContainerKeyDeterminesContainer` | auditor/cpu.go:28 | On one instance, the key determines the container name, so keys collide only across instances. |
| `CpuAudit.KeysCanCollide` | auditor/cpu.go:28 | Container "a@b" on instance "c" and container "a" on instance "b@c" produce the same key. |
| `CpuAudit.CollidingKeysCountOnce` | auditor/cpu.go:28-63 | Two overloaded containers with colliding keys are reported as "high CPU usage of 1 container". |
| `CpuAudit.RelevantNodeNames` | auditor/cpu.go:32-35 | The node map's keys are exactly the node names the instances refer to. |
| `CpuAudit.RelevantNodesAreFirstSightings` | auditor/cpu.go:32-35 | Each node name maps to the node of the first instance that refers to it; later instances replace nothing. |
| `CpuAudit.NodeStepEffect` | auditor/cpu.go:32-54 | An instance whose node name is not yet in the map appends exactly that node's three charts after the earlier ones; any other instance leaves the chart list unchanged. |
| `CpuAudit.OverloadedNodesExactly` | auditor/cpu.go:40-42 | A node is in the node violator set exactly when its first sighting's `CpuUsagePercent.Last()` is strictly greater than the node threshold; later sightings are not tested. |
| `CpuAudit.ChartCount` | auditor/cpu.go:17-56 | The pass requests exactly 3 charts per container plus 3 per distinct node name. |
| `CpuAudit.ContainersStepCharts` | auditor/cpu.go:18-23 | Visiting an instance's containers appends, container by container, each container's three charts after the charts requested before. |
| `CpuAudit.PassCharts` | auditor/cpu.go:17-56 | The chart list is, instance by instance, the charts of every container, overloaded or not, followed by the node's charts exactly when the instance is the first to refer to that node name; a later instance on the same node adds no node chart. |
| `CpuAudit.ContainerCheck` | auditor/cpu.go:58-65 | The container check is WARNING exactly when its count is positive, with message "high CPU usage of N container", plural "containers" unless N = 1; otherwise its status is left unset. |
| `CpuAudit.NodeCheck` | auditor/cpu.go:67-74 | The node check is WARNING exactly when its count is positive, with message "high CPU utilization of N node", plural "nodes" unless N = 1; otherwise its status is left unset. |
| `CpuAudit.CpuReportChecks` | auditor/cpu.go:58-74 | The report is titled "CPU" and always ends with the container check, then the node check, counting the distinct violators. The container check is a warning iff some container is overloaded. |
| `CpuAudit.TwoOverloadedContainers` | auditor/cpu.go:18-63 | Two overloaded, differently named containers on one instance give "high CPU usage of 2 containers". |
| `English.NatToString` | auditor/cpu.go:63 | A count prints as a non-empty string of decimal digits without a leading zero. |
| `English.NatToStringRoundTrip` | auditor/cpu.go:63 | Reading the printed digits back gives the count, so the message states N. |
| `English.PluralIsSingularExactlyForOne` | auditor/cpu.go:63 | The pluralised count uses the singular noun exactly when N = 1. |
| `RedisView.Build` | api/views/application/redis.go:9-53 | The dashboard is titled "Redis". It has no table exactly when no instance has a Redis bundle; otherwise it has the "Instance"/"Role"/"Status" table with `Rows(instances)`. Each instance with a bundle adds, in instance order, a latency series fed by the paired commands and a top-5 queries chart over all of `Calls`. |
| `RedisView.PairCommands` | api/views/application/redis.go:34-41 | In any visiting order, the two aggregators receive, once each, the series of exactly the commands present in both maps, pairwise aligned, so both receive as many inputs as the maps share keys. |
| `RedisView.AggregatorsBalanced` | api/views/application/redis.go:34-41 | Both aggregators receive as many inputs as there are commands in both maps; a command in one map only is skipped. |
| `RedisView.Liveness` | api/views/application/redis.go:16-19 | The status is OK "up" exactly when the `Up` series exists and its last sample is > 0; otherwise it is WARNING "down (no metrics)". |
| `RedisView.RowStatus` | api/views/application/redis.go:16-19 | A row's status and message follow the liveness rule, including a nil `Up` and a non-positive last sample. |
| `RedisView.RoleCell` | api/views/application/redis.go:20-26 | The role cell always shows the role text. "master" gets the edit icon in rgba(0,0,0,0.87), "slave" the import icon in grey, and any other role no icon. |
| `RedisView.RoleRoundTrip` | api/views/application/redis.go:20-21 | Classifying a role and printing it back gives the label value, so the row's role cell, built from the classified role, shows `Role.Value()` unchanged. |
| `RedisView.RowsFollowRedisInstances` | api/views/application/redis.go:28-32 | There is exactly one row per instance with a bundle, in instance order. |
| `RedisView.RedisInstancesAppend` | api/views/application/redis.go:12-15 | The instances with a bundle of two consecutive runs are those of each run, in order. |
| `RedisView.NoBundleNoOutput` | api/views/application/redis.go:13-15 | An instance without a Redis bundle adds no row and no chart: removing it changes neither. |
| `RedisView.RedisInstancesEmpty` | api/views/application/redis.go:12-28 | No instance is visited, and so no table is created, exactly when every instance lacks a Redis bundle. |
| `RedisView.RedisInstancesAreTheBundles` | api/views/application/redis.go:12-15 | The visited Redis instances are exactly the (name, bundle) pairs of the instances that have a bundle. |

## Left out

- Time-series internals (`Aggregate`, `NanSum`, `Div`, `Max`, `Any`, `Top`, `Last`) are not modelled. A series is represented by its last sample. The latency series and the Top-N charts are recorded by their inputs (`Quotient`, `Top`, `TopConsumers`), not by their values.
- Floating-point arithmetic is not modelled. The container ratio `usage.Last() / limit.Last()` is a parameter `div` of the pass, so the model says nothing about a zero or NaN limit. Only Go's `>` on a float64 (NaN false, +Inf true) is modelled.
- What `Last()` returns for a nil node `CpuUsagePercent` series belongs to the time-series library. The node carries that value directly.
- `cpuByModeSeries`, `cpuConsumers`, `getSimpleConfig` and `addReport` are defined outside the core. The thresholds are parameters (default 80, in `DefaultThresholds`). The per-mode and top-consumer series are recorded as `ByMode(node)` and `TopConsumers(node, 5)`.
- Chart, table and widget construction is rendering and is recorded only as requests. This covers merging requests that share a title and group, `Feature`, `Stacked`, `Sorted` and the series values passed to `AddSeries`. The container's `CpuDelay` and `ThrottledTime` series are only charted and are not carried.
- The Redis latency chart's series value depends on Go's random map order through the order of the aggregator inputs. `RedisView.Build` returns that order as a ghost witness per instance and states only order-independent facts.
- `utils.StringSet` is not part of this model. The model reads `overloadedContainers.Add("%s@%s", c.Name, i.Name)` (auditor/cpu.go:28) as adding the formatted key, and `overloadedNodes.Add(name)` (auditor/cpu.go:41) as adding the name as is; `Len()` is the number of distinct strings added.
- `english.Plural` is modelled only as "N noun", singular exactly for N = 1.
