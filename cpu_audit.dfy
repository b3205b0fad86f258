/** The CPU audit pass over one application (auditor/cpu.go): per-container
    charts and overload test, per-node charts and overload test on the first
    instance that names the node, then the container and node CPU checks. */
module CpuAudit {
  import opened Samples
  import opened Reports
  import opened English

  /** A container of an instance; a series is `None` when the source's series is nil.
      CpuDelay and ThrottledTime are only charted, so they are not carried here. */
  datatype Container = Container(name: string, cpuUsage: Option<Series>, cpuLimit: Option<Series>)

  /** A node; `cpuUsagePercentLast` is what `CpuUsagePercent.Last()` returns,
      which the source reads without a nil check. */
  datatype Node = Node(name: string, cpuUsagePercentLast: Float)

  datatype Instance = Instance(name: string, containers: seq<Container>, node: Option<Node>)

  /** The configured thresholds of the container and node CPU checks. */
  datatype Thresholds = Thresholds(container: real, node: real)

  /** Both checks default to a threshold of 80 when nothing is configured. */
  const DefaultThresholds := Thresholds(80.0, 80.0)

  /** float64 division of two last samples, left to the time-series library. */
  type Division = (Float, Float) -> Float

  datatype Report = Report(title: string, charts: seq<ChartRequest>, checks: seq<Check>)

  /** The set key of an overloaded container: "container@instance". */
  function ContainerKey(container: string, instance: string): string
  {
    container + "@" + instance
  }

  /** The three charts every container requests, grouped by the container
      and carrying one series named after the instance. */
  function ContainerCharts(instance: string, container: string): (r: seq<ChartRequest>)
    ensures |r| == 3
    ensures forall q :: q in r ==> q.group == Some(container) && q.feed == Named(instance)
  {
    [ ChartRequest(ContainerUsage, Some(container), Named(instance), Some("limit")),
      ChartRequest(ContainerDelay, Some(container), Named(instance), None),
      ChartRequest(ContainerThrottled, Some(container), Named(instance), None) ]
  }

  /** The three charts a node requests when it is first seen. */
  function NodeCharts(node: string): (r: seq<ChartRequest>)
    ensures |r| == 3
    ensures r[0] == ChartRequest(NodeUsage, Some("overview"), Named(node), None)
  {
    [ ChartRequest(NodeUsage, Some("overview"), Named(node), None),
      ChartRequest(NodeUsage, Some(node), ByMode(node), None),
      ChartRequest(NodeConsumers, Some(node), TopConsumers(node, 5), Some("total")) ]
  }

  /** A container is overloaded when both its usage and limit series exist and
      usage.Last()/limit.Last() is greater than the threshold, as is. */
  predicate Overloaded(c: Container, threshold: real, div: Division)
  {
    c.cpuLimit.Some? && c.cpuUsage.Some? &&
    Greater(div(c.cpuUsage.value.last, c.cpuLimit.value.last), threshold)
  }

  /** The state of a pass: the charts requested so far, the two violator sets
      and the node map used to deduplicate nodes by name. */
  datatype Pass = Pass(charts: seq<ChartRequest>, overloadedContainers: set<string>,
                       overloadedNodes: set<string>, relevantNodes: map<string, Node>)

  const Start := Pass([], {}, {}, map[])

  function ContainerStep(p: Pass, instance: string, c: Container, t: Thresholds, div: Division): Pass
  {
    p.(charts := p.charts + ContainerCharts(instance, c.name),
       overloadedContainers :=
         if Overloaded(c, t.container, div) then p.overloadedContainers + {ContainerKey(c.name, instance)}
         else p.overloadedContainers)
  }

  function ContainersStep(p: Pass, instance: string, cs: seq<Container>, t: Thresholds, div: Division): Pass
    decreases |cs|
  {
    if cs == [] then p
    else ContainerStep(ContainersStep(p, instance, cs[..|cs| - 1], t, div), instance, cs[|cs| - 1], t, div)
  }

  function NodeStep(p: Pass, node: Option<Node>, t: Thresholds): Pass
  {
    if node.None? || node.value.name in p.relevantNodes then p
    else
      var n := node.value;
      p.(charts := p.charts + NodeCharts(n.name),
         relevantNodes := p.relevantNodes[n.name := n],
         overloadedNodes :=
           if Greater(n.cpuUsagePercentLast, t.node) then p.overloadedNodes + {n.name}
           else p.overloadedNodes)
  }

  /** The state after the pass has visited every instance of `insts`, in order. */
  function PassOver(insts: seq<Instance>, t: Thresholds, div: Division): Pass
    decreases |insts|
  {
    if insts == [] then Start
    else
      var i := insts[|insts| - 1];
      NodeStep(ContainersStep(PassOver(insts[..|insts| - 1], t, div), i.name, i.containers, t, div), i.node, t)
  }

  /** The container CPU check for `n` overloaded containers. */
  function ContainerCheck(n: nat): (c: Check)
    ensures c.id == ContainerCpu
    ensures c.status == Warning <==> n > 0
    ensures c.status != Warning ==> c.status == NotSet
    ensures n > 0 ==> c.message == "high CPU usage of " + NatToString(n) + (if n == 1 then " container" else " containers")
  {
    if n > 0 then Check(ContainerCpu, Warning, "high CPU usage of " + Plural(n, "container", "containers"))
    else Check(ContainerCpu, NotSet, "")
  }

  /** The node CPU check for `n` overloaded nodes. */
  function NodeCheck(n: nat): (c: Check)
    ensures c.id == NodeCpu
    ensures c.status == Warning <==> n > 0
    ensures c.status != Warning ==> c.status == NotSet
    ensures n > 0 ==> c.message == "high CPU utilization of " + NatToString(n) + (if n == 1 then " node" else " nodes")
  {
    if n > 0 then Check(NodeCpu, Warning, "high CPU utilization of " + Plural(n, "node", "nodes"))
    else Check(NodeCpu, NotSet, "")
  }

  /** The report one pass produces. */
  function CpuReport(insts: seq<Instance>, t: Thresholds, div: Division): Report
  {
    var p := PassOver(insts, t, div);
    Report("CPU", p.charts, [ContainerCheck(|p.overloadedContainers|), NodeCheck(|p.overloadedNodes|)])
  }

  /** appAuditor.cpu: one audit pass, with the local sets and the node map
      updated in place as the loops visit instances and containers. */
  method Audit(instances: seq<Instance>, t: Thresholds, div: Division) returns (report: Report)
    ensures report == CpuReport(instances, t, div)
  {
    var charts: seq<ChartRequest> := [];
    var relevantNodes: map<string, Node> := map[];
    var overloadedNodes: set<string> := {};
    var overloadedContainers: set<string> := {};

    for k := 0 to |instances|
      invariant Pass(charts, overloadedContainers, overloadedNodes, relevantNodes) == PassOver(instances[..k], t, div)
    {
      var i := instances[k];
      assert instances[..k + 1][..k] == instances[..k];
      ghost var before := Pass(charts, overloadedContainers, overloadedNodes, relevantNodes);
      for j := 0 to |i.containers|
        invariant Pass(charts, overloadedContainers, overloadedNodes, relevantNodes)
               == ContainersStep(before, i.name, i.containers[..j], t, div)
      {
        var c := i.containers[j];
        assert i.containers[..j + 1][..j] == i.containers[..j];
        charts := charts + ContainerCharts(i.name, c.name);
        if c.cpuLimit.Some? && c.cpuUsage.Some? {
          var usage := div(c.cpuUsage.value.last, c.cpuLimit.value.last);
          if Greater(usage, t.container) {
            overloadedContainers := overloadedContainers + {ContainerKey(c.name, i.name)};
          }
        }
      }
      assert i.containers[..|i.containers|] == i.containers;
      if i.node.Some? {
        var node := i.node.value;
        if node.name !in relevantNodes {
          relevantNodes := relevantNodes[node.name := node];
          charts := charts + NodeCharts(node.name);
          if Greater(node.cpuUsagePercentLast, t.node) {
            overloadedNodes := overloadedNodes + {node.name};
          }
        }
      }
    }
    assert instances[..|instances|] == instances;

    var containerCpu := Check(ContainerCpu, NotSet, "");
    if |overloadedContainers| > 0 {
      containerCpu := containerCpu.(status := Warning,
                                    message := "high CPU usage of " + Plural(|overloadedContainers|, "container", "containers"));
    }
    var nodeCpu := Check(NodeCpu, NotSet, "");
    if |overloadedNodes| > 0 {
      nodeCpu := nodeCpu.(status := Warning,
                          message := "high CPU utilization of " + Plural(|overloadedNodes|, "node", "nodes"));
    }
    report := Report("CPU", charts, [containerCpu, nodeCpu]);
  }

  // ---------------------------------------------------------------------------
  // Reference definitions, independent of the order of the fold

  /** Every key of an overloaded container anywhere in the application. */
  function OverloadedKeys(insts: seq<Instance>, t: Thresholds, div: Division): set<string>
  {
    set k, j | 0 <= k < |insts| && 0 <= j < |insts[k].containers| && Overloaded(insts[k].containers[j], t.container, div)
      :: ContainerKey(insts[k].containers[j].name, insts[k].name)
  }

  /** The keys of the overloaded containers of one instance. */
  function InstanceKeys(instance: string, cs: seq<Container>, t: Thresholds, div: Division): set<string>
  {
    set j | 0 <= j < |cs| && Overloaded(cs[j], t.container, div) :: ContainerKey(cs[j].name, instance)
  }

  /** The names of all nodes the instances refer to. */
  function NodeNames(insts: seq<Instance>): set<string>
  {
    set k | 0 <= k < |insts| && insts[k].node.Some? :: insts[k].node.value.name
  }

  /** Instance `k` is the first one that refers to its node. */
  predicate FirstSighting(insts: seq<Instance>, k: nat)
    requires k < |insts|
  {
    insts[k].node.Some? && insts[k].node.value.name !in NodeNames(insts[..k])
  }

  /** The nodes whose first sighting reports usage above the node threshold. */
  function OverloadedNodeNames(insts: seq<Instance>, t: Thresholds): set<string>
  {
    set k | 0 <= k < |insts| && FirstSighting(insts, k) && Greater(insts[k].node.value.cpuUsagePercentLast, t.node)
      :: insts[k].node.value.name
  }

  /** The number of containers over all instances. */
  function ContainerCount(insts: seq<Instance>): nat
    decreases |insts|
  {
    if insts == [] then 0 else ContainerCount(insts[..|insts| - 1]) + |insts[|insts| - 1].containers|
  }

  /** The charts the containers of one instance request, container by container. */
  function ContainerChartsOf(instance: string, cs: seq<Container>): (r: seq<ChartRequest>)
    ensures |r| == 3 * |cs|
    decreases |cs|
  {
    if cs == [] then [] else ContainerChartsOf(instance, cs[..|cs| - 1]) + ContainerCharts(instance, cs[|cs| - 1].name)
  }

  /** The charts instance `k` requests: those of its containers, then those of
      its node when it is the first instance that refers to that node. */
  function InstanceChartsOf(insts: seq<Instance>, k: nat): seq<ChartRequest>
    requires k < |insts|
  {
    ContainerChartsOf(insts[k].name, insts[k].containers)
      + (if FirstSighting(insts, k) then NodeCharts(insts[k].node.value.name) else [])
  }

  /** The charts of all instances, in instance order. */
  function ChartsOf(insts: seq<Instance>): seq<ChartRequest>
    decreases |insts|
  {
    if insts == [] then [] else ChartsOf(insts[..|insts| - 1]) + InstanceChartsOf(insts, |insts| - 1)
  }

  // ---------------------------------------------------------------------------
  // Lemmas

  lemma InstanceKeysSnoc(instance: string, init: seq<Container>, c: Container, t: Thresholds, div: Division)
    ensures InstanceKeys(instance, init + [c], t, div)
         == InstanceKeys(instance, init, t, div) + (if Overloaded(c, t.container, div) then {ContainerKey(c.name, instance)} else {})
  {
    var cs := init + [c];
    forall x | x in InstanceKeys(instance, cs, t, div)
      ensures x in InstanceKeys(instance, init, t, div) + (if Overloaded(c, t.container, div) then {ContainerKey(c.name, instance)} else {})
    {
      var j :| 0 <= j < |cs| && Overloaded(cs[j], t.container, div) && x == ContainerKey(cs[j].name, instance);
      if j < |init| { assert init[j] == cs[j]; }
    }
    forall x | x in InstanceKeys(instance, init, t, div)
      ensures x in InstanceKeys(instance, cs, t, div)
    {
      var j :| 0 <= j < |init| && Overloaded(init[j], t.container, div) && x == ContainerKey(init[j].name, instance);
      assert cs[j] == init[j];
    }
    assert cs[|init|] == c;
  }

  /** Visiting the containers of an instance adds their keys and three charts
      each, and leaves the node state alone. */
  lemma {:induction false} ContainersStepEffect(p: Pass, instance: string, cs: seq<Container>, t: Thresholds, div: Division)
    ensures ContainersStep(p, instance, cs, t, div).relevantNodes == p.relevantNodes
    ensures ContainersStep(p, instance, cs, t, div).overloadedNodes == p.overloadedNodes
    ensures ContainersStep(p, instance, cs, t, div).overloadedContainers == p.overloadedContainers + InstanceKeys(instance, cs, t, div)
    ensures |ContainersStep(p, instance, cs, t, div).charts| == |p.charts| + 3 * |cs|
    decreases |cs|
  {
    if cs != [] {
      var init := cs[..|cs| - 1];
      ContainersStepEffect(p, instance, init, t, div);
      assert cs == init + [cs[|cs| - 1]];
      InstanceKeysSnoc(instance, init, cs[|cs| - 1], t, div);
    }
  }

  lemma OverloadedKeysSnoc(pre: seq<Instance>, i: Instance, t: Thresholds, div: Division)
    ensures OverloadedKeys(pre + [i], t, div) == OverloadedKeys(pre, t, div) + InstanceKeys(i.name, i.containers, t, div)
  {
    var all := pre + [i];
    forall x | x in OverloadedKeys(all, t, div)
      ensures x in OverloadedKeys(pre, t, div) + InstanceKeys(i.name, i.containers, t, div)
    {
      var k, j :| 0 <= k < |all| && 0 <= j < |all[k].containers| && Overloaded(all[k].containers[j], t.container, div)
        && x == ContainerKey(all[k].containers[j].name, all[k].name);
      if k < |pre| { assert all[k] == pre[k]; } else { assert all[k] == i; }
    }
    forall x | x in OverloadedKeys(pre, t, div)
      ensures x in OverloadedKeys(all, t, div)
    {
      var k, j :| 0 <= k < |pre| && 0 <= j < |pre[k].containers| && Overloaded(pre[k].containers[j], t.container, div)
        && x == ContainerKey(pre[k].containers[j].name, pre[k].name);
      assert all[k] == pre[k];
    }
    forall x | x in InstanceKeys(i.name, i.containers, t, div)
      ensures x in OverloadedKeys(all, t, div)
    {
      var j :| 0 <= j < |i.containers| && Overloaded(i.containers[j], t.container, div)
        && x == ContainerKey(i.containers[j].name, i.name);
      assert all[|pre|] == i;
    }
  }

  lemma NodeNamesSnoc(pre: seq<Instance>, i: Instance)
    ensures NodeNames(pre + [i]) == NodeNames(pre) + (if i.node.Some? then {i.node.value.name} else {})
  {
    var all := pre + [i];
    forall x | x in NodeNames(all)
      ensures x in NodeNames(pre) + (if i.node.Some? then {i.node.value.name} else {})
    {
      var k :| 0 <= k < |all| && all[k].node.Some? && x == all[k].node.value.name;
      if k < |pre| { assert all[k] == pre[k]; }
    }
    forall x | x in NodeNames(pre)
      ensures x in NodeNames(all)
    {
      var k :| 0 <= k < |pre| && pre[k].node.Some? && x == pre[k].node.value.name;
      assert all[k] == pre[k];
    }
    if i.node.Some? { assert all[|pre|] == i; }
  }

  /** Whether instance `k` is a first sighting does not depend on later instances. */
  lemma FirstSightingOfPrefix(insts: seq<Instance>, n: nat, k: nat)
    requires k < n <= |insts|
    ensures FirstSighting(insts[..n], k) <==> FirstSighting(insts, k)
  {
    assert insts[..n][..k] == insts[..k];
  }

  /** The overloaded containers are exactly the keys of the containers, on any
      instance, that have both a usage and a limit series and whose ratio is
      greater than the threshold; a key reached twice is stored once. */
  lemma {:induction false} OverloadedContainersExactly(insts: seq<Instance>, t: Thresholds, div: Division)
    ensures PassOver(insts, t, div).overloadedContainers == OverloadedKeys(insts, t, div)
    decreases |insts|
  {
    if insts != [] {
      var pre, i := insts[..|insts| - 1], insts[|insts| - 1];
      assert insts == pre + [i];
      OverloadedContainersExactly(pre, t, div);
      ContainersStepEffect(PassOver(pre, t, div), i.name, i.containers, t, div);
      OverloadedKeysSnoc(pre, i, t, div);
    }
  }

  /** The node map is keyed by exactly the node names the instances refer to. */
  lemma {:induction false} RelevantNodeNames(insts: seq<Instance>, t: Thresholds, div: Division)
    ensures PassOver(insts, t, div).relevantNodes.Keys == NodeNames(insts)
    decreases |insts|
  {
    if insts != [] {
      var pre, i := insts[..|insts| - 1], insts[|insts| - 1];
      assert insts == pre + [i];
      RelevantNodeNames(pre, t, div);
      ContainersStepEffect(PassOver(pre, t, div), i.name, i.containers, t, div);
      NodeNamesSnoc(pre, i);
    }
  }

  /** A container without a usage or a limit series only requests charts: its
      key is in the violator set only if some other overloaded container has
      the same key. */
  lemma MissingSeriesNeverFlags(insts: seq<Instance>, t: Thresholds, div: Division, k: nat, j: nat)
    requires k < |insts| && j < |insts[k].containers|
    requires insts[k].containers[j].cpuUsage.None? || insts[k].containers[j].cpuLimit.None?
    ensures var key := ContainerKey(insts[k].containers[j].name, insts[k].name);
      key in PassOver(insts, t, div).overloadedContainers ==>
        exists k', j' :: 0 <= k' < |insts| && 0 <= j' < |insts[k'].containers| && (k', j') != (k, j) &&
          Overloaded(insts[k'].containers[j'], t.container, div) &&
          ContainerKey(insts[k'].containers[j'].name, insts[k'].name) == key
  {
    OverloadedContainersExactly(insts, t, div);
  }

  /** The threshold is compared with the ratio as is: under the default
      threshold of 80, a container using 90% of its limit is not overloaded. */
  lemma DefaultThresholdIsNotAPercentage(c: Container, div: Division)
    requires c.cpuUsage.Some? && c.cpuLimit.Some?
    requires div(c.cpuUsage.value.last, c.cpuLimit.value.last) == Finite(0.9)
    ensures !Overloaded(c, DefaultThresholds.container, div)
  {
  }

  /** Each node name is mapped to the node of the first instance that refers to
      it; a later instance on the same node replaces nothing. */
  lemma {:induction false} RelevantNodesAreFirstSightings(insts: seq<Instance>, t: Thresholds, div: Division)
    ensures forall k :: 0 <= k < |insts| && FirstSighting(insts, k) ==>
              insts[k].node.value.name in PassOver(insts, t, div).relevantNodes &&
              PassOver(insts, t, div).relevantNodes[insts[k].node.value.name] == insts[k].node.value
    decreases |insts|
  {
    if insts != [] {
      var pre, i := insts[..|insts| - 1], insts[|insts| - 1];
      assert insts == pre + [i];
      RelevantNodesAreFirstSightings(pre, t, div);
      RelevantNodeNames(pre, t, div);
      var p := PassOver(pre, t, div);
      ContainersStepEffect(p, i.name, i.containers, t, div);
      forall k | 0 <= k < |insts| && FirstSighting(insts, k)
        ensures insts[k].node.value.name in PassOver(insts, t, div).relevantNodes
        ensures PassOver(insts, t, div).relevantNodes[insts[k].node.value.name] == insts[k].node.value
      {
        if k < |pre| {
          FirstSightingOfPrefix(insts, |pre|, k);
          assert insts[k] == pre[k];
          assert pre[k].node.value.name in NodeNames(pre);
        } else {
          assert insts[..k] == pre;
        }
      }
    }
  }

  /** A node is overloaded exactly when the first instance referring to it
      reports usage above the node threshold; later instances on the same node
      are not tested again. */
  lemma {:induction false} OverloadedNodesExactly(insts: seq<Instance>, t: Thresholds, div: Division)
    ensures PassOver(insts, t, div).overloadedNodes == OverloadedNodeNames(insts, t)
    decreases |insts|
  {
    if insts != [] {
      var pre, i := insts[..|insts| - 1], insts[|insts| - 1];
      assert insts == pre + [i];
      OverloadedNodesExactly(pre, t, div);
      RelevantNodeNames(pre, t, div);
      var p := PassOver(pre, t, div);
      ContainersStepEffect(p, i.name, i.containers, t, div);
      var last := |pre|;
      assert insts[..last] == pre;
      var added := if FirstSighting(insts, last) && Greater(i.node.value.cpuUsagePercentLast, t.node)
                   then {i.node.value.name} else {};
      assert OverloadedNodeNames(insts, t) == OverloadedNodeNames(pre, t) + added by {
        forall x | x in OverloadedNodeNames(insts, t)
          ensures x in OverloadedNodeNames(pre, t) + added
        {
          var k :| 0 <= k < |insts| && FirstSighting(insts, k)
                   && Greater(insts[k].node.value.cpuUsagePercentLast, t.node) && x == insts[k].node.value.name;
          if k < last {
            FirstSightingOfPrefix(insts, last, k);
            assert insts[k] == pre[k];
          }
        }
        forall x | x in OverloadedNodeNames(pre, t)
          ensures x in OverloadedNodeNames(insts, t)
        {
          var k :| 0 <= k < |pre| && FirstSighting(pre, k)
                   && Greater(pre[k].node.value.cpuUsagePercentLast, t.node) && x == pre[k].node.value.name;
          FirstSightingOfPrefix(insts, last, k);
          assert insts[k] == pre[k];
        }
      }
    }
  }

  /** A node whose name is not yet in the map appends its three charts after
      the earlier ones; any other instance leaves the charts as they are. */
  lemma NodeStepEffect(p: Pass, node: Option<Node>, t: Thresholds)
    ensures var isNew := node.Some? && node.value.name !in p.relevantNodes;
      && NodeStep(p, node, t).charts == p.charts + (if isNew then NodeCharts(node.value.name) else [])
      && |NodeStep(p, node, t).charts| == |p.charts| + (if isNew then 3 else 0)
  {
  }

  /** Each container adds exactly three chart requests and each distinct node
      name exactly three, whatever the number of instances sharing it. */
  lemma {:induction false} ChartCount(insts: seq<Instance>, t: Thresholds, div: Division)
    ensures |PassOver(insts, t, div).charts| == 3 * ContainerCount(insts) + 3 * |NodeNames(insts)|
    decreases |insts|
  {
    if insts != [] {
      var pre, i := insts[..|insts| - 1], insts[|insts| - 1];
      assert insts == pre + [i];
      ChartCount(pre, t, div);
      RelevantNodeNames(pre, t, div);
      var q := ContainersStep(PassOver(pre, t, div), i.name, i.containers, t, div);
      assert PassOver(insts, t, div) == NodeStep(q, i.node, t);
      assert ContainerCount(insts) == ContainerCount(pre) + |i.containers|;
      ContainersStepEffect(PassOver(pre, t, div), i.name, i.containers, t, div);
      NodeStepEffect(q, i.node, t);
      NodeNamesGrowth(pre, i);
    }
  }

  lemma NodeNamesGrowth(pre: seq<Instance>, i: Instance)
    ensures |NodeNames(pre + [i])| == |NodeNames(pre)| + (if i.node.Some? && i.node.value.name !in NodeNames(pre) then 1 else 0)
  {
    NodeNamesSnoc(pre, i);
  }

  /** Visiting the containers of an instance appends their charts, in order,
      to those requested before. */
  lemma {:induction false} ContainersStepCharts(p: Pass, instance: string, cs: seq<Container>, t: Thresholds, div: Division)
    ensures ContainersStep(p, instance, cs, t, div).charts == p.charts + ContainerChartsOf(instance, cs)
    decreases |cs|
  {
    if cs != [] {
      ContainersStepCharts(p, instance, cs[..|cs| - 1], t, div);
    }
  }

  /** The pass requests, instance by instance, the charts of every container,
      overloaded or not, followed by the node charts exactly at the first
      instance that refers to the node, never at a later one. */
  lemma {:induction false} PassCharts(insts: seq<Instance>, t: Thresholds, div: Division)
    ensures PassOver(insts, t, div).charts == ChartsOf(insts)
    decreases |insts|
  {
    if insts != [] {
      var pre, i := insts[..|insts| - 1], insts[|insts| - 1];
      PassCharts(pre, t, div);
      RelevantNodeNames(pre, t, div);
      ContainersStepCharts(PassOver(pre, t, div), i.name, i.containers, t, div);
      ContainersStepEffect(PassOver(pre, t, div), i.name, i.containers, t, div);
      assert insts[..|pre|] == pre;
    }
  }

  /** The report always ends with the container check and then the node check,
      each a warning exactly when it has violators, with a message that counts
      the distinct violators. */
  lemma CpuReportChecks(insts: seq<Instance>, t: Thresholds, div: Division)
    ensures var r := CpuReport(insts, t, div);
      && r.title == "CPU"
      && r.checks == [ContainerCheck(|OverloadedKeys(insts, t, div)|), NodeCheck(|OverloadedNodeNames(insts, t)|)]
      && (r.checks[0].status == Warning <==> exists k, j :: 0 <= k < |insts| && 0 <= j < |insts[k].containers|
                                                   && Overloaded(insts[k].containers[j], t.container, div))
  {
    OverloadedContainersExactly(insts, t, div);
    OverloadedNodesExactly(insts, t, div);
    var keys := OverloadedKeys(insts, t, div);
    if exists k, j :: 0 <= k < |insts| && 0 <= j < |insts[k].containers| && Overloaded(insts[k].containers[j], t.container, div) {
      var k, j :| 0 <= k < |insts| && 0 <= j < |insts[k].containers| && Overloaded(insts[k].containers[j], t.container, div);
      assert ContainerKey(insts[k].containers[j].name, insts[k].name) in keys;
    }
  }

  /** On one instance the key determines the container name: keys collide
      only across instances. */
  lemma ContainerKeyDeterminesContainer(container: string, instance: string)
    ensures var key := ContainerKey(container, instance);
      |key| > |instance| && key[..|key| - |instance| - 1] == container
  {
  }

  /** Two overloaded containers on one instance give a warning in the plural. */
  lemma TwoOverloadedContainers(i: Instance, t: Thresholds, div: Division)
    requires |i.containers| == 2 && i.containers[0].name != i.containers[1].name
    requires Overloaded(i.containers[0], t.container, div) && Overloaded(i.containers[1], t.container, div)
    ensures CpuReport([i], t, div).checks[0] == Check(ContainerCpu, Warning, "high CPU usage of 2 containers")
  {
    assert |OverloadedKeys([i], t, div)| == 2 by {
      OverloadedKeysSnoc([], i, t, div);
      assert [] + [i] == [i];
      InstanceKeysSnoc(i.name, [], i.containers[0], t, div);
      InstanceKeysSnoc(i.name, [i.containers[0]], i.containers[1], t, div);
      assert [] + [i.containers[0]] == [i.containers[0]];
      assert [i.containers[0]] + [i.containers[1]] == i.containers;
      ContainerKeyDeterminesContainer(i.containers[0].name, i.name);
      ContainerKeyDeterminesContainer(i.containers[1].name, i.name);
    }
    OverloadedContainersExactly([i], t, div);
    PluralOfTwoContainers();
  }

  lemma PluralOfTwoContainers()
    ensures ContainerCheck(2) == Check(ContainerCpu, Warning, "high CPU usage of 2 containers")
  {
  }

  /** Keys are plain concatenations: container "a@b" on instance "c" and
      container "a" on instance "b@c" share the key "a@b@c". */
  lemma KeysCanCollide()
    ensures ContainerKey("a@b", "c") == ContainerKey("a", "b@c")
  {
  }

  /** Two overloaded containers whose keys collide are counted as one. */
  lemma CollidingKeysCountOnce(i1: Instance, i2: Instance, t: Thresholds, div: Division)
    requires |i1.containers| == 1 && |i2.containers| == 1
    requires ContainerKey(i1.containers[0].name, i1.name) == ContainerKey(i2.containers[0].name, i2.name)
    requires Overloaded(i1.containers[0], t.container, div) && Overloaded(i2.containers[0], t.container, div)
    ensures CpuReport([i1, i2], t, div).checks[0] == Check(ContainerCpu, Warning, "high CPU usage of 1 container")
  {
    var insts := [i1, i2];
    OverloadedContainersExactly(insts, t, div);
    var key := ContainerKey(i1.containers[0].name, i1.name);
    assert OverloadedKeys(insts, t, div) == {key} by {
      assert ContainerKey(insts[0].containers[0].name, insts[0].name) in OverloadedKeys(insts, t, div);
    }
    PluralOfOneContainer();
  }

  lemma PluralOfOneContainer()
    ensures ContainerCheck(1) == Check(ContainerCpu, Warning, "high CPU usage of 1 container")
  {
  }
}
