/** The summary branch: fetch the metrics map for the task list, then build
    one summary subtree per KEY of that map (not per entry of the task
    list), with no agent-name context, and rank them.

    The map's keys are visited in the map's own iteration order, which is
    fixed for a given map but not specified; the model picks it by choice. */
module SummaryAssembly {
  import opened Wrappers
  import opened TreeModel
  import opened RulePipeline
  import opened Collaborators

  /** The id from which a task's summary tree is grown. */
  function SummaryRootId(svc: Service, t: TaskData): string
  {
    svc.tokens.summaryPrefix + svc.hashText(t)
  }

  /** The info leaves of a test: always none. */
  function TestInfoNamesList(t: TaskData): seq<TestInfoLeaf>
  {
    []
  }

  /** The info leaves of the sessions: always none. */
  function SessionInfoLeafList(sessionIds: set<string>): seq<SessionInfoLeaf>
  {
    []
  }

  /** One summary subtree: the pipeline's group node for the task's leaves,
      wrapped with the task and a test-info node whose id is the test-info
      token followed by the test node's id. */
  function SummaryTestNode(svc: Service, t: TaskData, leaves: seq<MetricNode>): (r: Result<TestNode, Error>)
    ensures r.Success? ==>
              && r.value.task == t
              && r.value.testInfo.id == svc.tokens.testInfo + r.value.Id()
              && r.value.testInfo.displayName == svc.tokens.testInfo
              && r.value.testInfo.infoList == []
    ensures var b := BuildTreeAccordingToRules(svc.summaryRules, SummaryRootId(svc, t), None, leaves);
            && (r.Success? <==> b.Success?)
            && (r.Success? ==> r.value.base == b.value.group)
            && (b.Failure? ==> r == Failure(b.error))
  {
    var built :- BuildTreeAccordingToRules(svc.summaryRules, SummaryRootId(svc, t), None, leaves);
    var node := TestNode(built.group, t, TestInfoNode(svc.tokens.testInfo, svc.tokens.testInfo, []));
    Success(node.(testInfo := TestInfoNode(svc.tokens.testInfo + node.Id(), svc.tokens.testInfo, TestInfoNamesList(t))))
  }

  /** The order in which a map's key set is iterated: every key exactly
      once, in an order that is fixed for the set but otherwise unspecified. */
  ghost function IterationOrder(keys: set<TaskData>): (order: seq<TaskData>)
    ensures |order| == |keys|
    ensures forall x :: x in order <==> x in keys
    ensures Distinct(order)
    decreases keys
  {
    if keys == {} then []
    else
      var t :| t in keys;
      [t] + IterationOrder(keys - {t})
  }

  /** The loop over the keys of the metrics map, in iteration order `order`;
      the first failure aborts it. */
  function SummaryNodes(svc: Service, metrics: map<TaskData, seq<MetricNode>>, order: seq<TaskData>): (r: Result<seq<TestNode>, Error>)
    requires forall t :: t in order ==> t in metrics
    // One node per visited key, in visiting order, each the subtree of that key's leaves.
    ensures r.Success? ==> |r.value| == |order|
    ensures r.Success? ==> forall i :: 0 <= i < |order| ==>
              r.value[i].task == order[i] && SummaryTestNode(svc, order[i], metrics[order[i]]) == Success(r.value[i])
    // It fails exactly when some key's subtree fails, with the first such failure.
    ensures r.Failure? <==> exists i :: 0 <= i < |order| && SummaryTestNode(svc, order[i], metrics[order[i]]).Failure?
    ensures r.Failure? ==>
              exists i :: 0 <= i < |order| && SummaryTestNode(svc, order[i], metrics[order[i]]) == Failure(r.error)
                          && forall j :: 0 <= j < i ==> SummaryTestNode(svc, order[j], metrics[order[j]]).Success?
    decreases |order|
  {
    if order == [] then Success([])
    else
      var node :- SummaryTestNode(svc, order[0], metrics[order[0]]);
      var rest :- SummaryNodes(svc, metrics, order[1..]);
      Success([node] + rest)
  }

  /** Nodes that follow a duplicate-free visiting order of a key set, one
      per visited key, hold each key exactly once. */
  lemma FollowingOrderOnePerKey(nodes: seq<TestNode>, order: seq<TaskData>, keys: set<TaskData>)
    requires |nodes| == |order| == |keys|
    requires forall i :: 0 <= i < |order| ==> nodes[i].task == order[i]
    requires Distinct(order)
    requires forall x :: x in order <==> x in keys
    ensures forall i, j :: 0 <= i < j < |nodes| ==> nodes[i].task != nodes[j].task
    ensures forall t :: t in keys <==> exists i :: 0 <= i < |nodes| && nodes[i].task == t
  {
    forall i, j | 0 <= i < j < |nodes| ensures nodes[i].task != nodes[j].task {
      assert order[i] != order[j];
    }
    forall t | t in keys ensures exists i :: 0 <= i < |nodes| && nodes[i].task == t {
      var i :| 0 <= i < |order| && order[i] == t;
      assert nodes[i].task == t;
    }
    forall t | exists i :: 0 <= i < |nodes| && nodes[i].task == t ensures t in keys {
      var i :| 0 <= i < |nodes| && nodes[i].task == t;
      assert order[i] in order;
    }
  }

  /** Over the whole key set, exactly one node per key: no key twice, every
      key present, and each node is the subtree of its own key's leaves. */
  lemma OnePerKey(svc: Service, metrics: map<TaskData, seq<MetricNode>>)
    requires SummaryNodes(svc, metrics, IterationOrder(metrics.Keys)).Success?
    ensures var nodes := SummaryNodes(svc, metrics, IterationOrder(metrics.Keys)).value;
            && |nodes| == |metrics|
            && (forall i, j :: 0 <= i < j < |nodes| ==> nodes[i].task != nodes[j].task)
            && (forall t :: t in metrics <==> exists i :: 0 <= i < |nodes| && nodes[i].task == t)
            && (forall i :: 0 <= i < |nodes| ==>
                  && nodes[i].task in metrics
                  && SummaryTestNode(svc, nodes[i].task, metrics[nodes[i].task]) == Success(nodes[i]))
  {
    var order := IterationOrder(metrics.Keys);
    var nodes := SummaryNodes(svc, metrics, order).value;
    assert |order| == |metrics.Keys| == |metrics|;
    FollowingOrderOnePerKey(nodes, order, metrics.Keys);
    forall i | 0 <= i < |nodes|
      ensures nodes[i].task in metrics && SummaryTestNode(svc, nodes[i].task, metrics[nodes[i].task]) == Success(nodes[i])
    {
      assert nodes[i].task == order[i] && order[i] in order;
    }
  }

  /** The per-task list of the summary branch: fetch the metrics map for the
      task list, build one subtree per key, then rank. */
  ghost function SummaryTaskNodeList(svc: Service, tasks: seq<TaskData>): (r: Result<seq<TestNode>, Error>)
    ensures svc.fetcher.testMetricsMap(tasks).Failure? ==> r == Failure(svc.fetcher.testMetricsMap(tasks).error)
    ensures r.Success? ==>
              && svc.fetcher.testMetricsMap(tasks).Success?
              && var metrics := svc.fetcher.testMetricsMap(tasks).value;
                 var nodes := SummaryNodes(svc, metrics, IterationOrder(metrics.Keys));
                 nodes.Success? && r.value == svc.sortTests(nodes.value)
    // Conversely, once the fetch succeeds the list succeeds exactly when the
    // per-key loop does, and fails with the loop's error otherwise.
    ensures svc.fetcher.testMetricsMap(tasks).Success? ==>
              var metrics := svc.fetcher.testMetricsMap(tasks).value;
              var nodes := SummaryNodes(svc, metrics, IterationOrder(metrics.Keys));
              && (nodes.Success? ==> r.Success?)
              && (nodes.Failure? ==> r == Failure(nodes.error))
  {
    var metrics :- svc.fetcher.testMetricsMap(tasks);
    var nodes :- SummaryNodes(svc, metrics, IterationOrder(metrics.Keys));
    Success(svc.sortTests(nodes))
  }

  /** A reordering keeps the length and exactly the same nodes. */
  lemma ReorderKeepsNodes(nodes: seq<TestNode>, ranked: seq<TestNode>)
    requires multiset(ranked) == multiset(nodes)
    ensures |ranked| == |nodes|
    ensures forall n :: n in ranked <==> n in nodes
  {
    assert |ranked| == |multiset(ranked)| == |multiset(nodes)| == |nodes|;
    forall n ensures n in ranked <==> n in nodes {
      assert n in ranked <==> n in multiset(ranked);
      assert n in nodes <==> n in multiset(nodes);
    }
  }

  /** Any reordering of a list holding one node per key of `metrics`, and
      covering every key, has one node per key and covers exactly the keys. */
  lemma ReorderCoversKeys(nodes: seq<TestNode>, ranked: seq<TestNode>, metrics: map<TaskData, seq<MetricNode>>)
    requires multiset(ranked) == multiset(nodes)
    requires |nodes| == |metrics|
    requires forall i :: 0 <= i < |nodes| ==> nodes[i].task in metrics
    requires forall t :: t in metrics ==> exists i :: 0 <= i < |nodes| && nodes[i].task == t
    ensures |ranked| == |metrics|
    ensures forall n :: n in ranked ==> n.task in metrics
    ensures forall t :: t in metrics ==> exists n :: n in ranked && n.task == t
  {
    ReorderKeepsNodes(nodes, ranked);
    forall n | n in ranked ensures n.task in metrics {
      var i :| 0 <= i < |nodes| && nodes[i] == n;
    }
    forall t | t in metrics ensures exists n :: n in ranked && n.task == t {
      var i :| 0 <= i < |nodes| && nodes[i].task == t;
      assert nodes[i] in ranked;
    }
  }

  /** With a ranking step that only reorders, the ranked summary list has
      one node per key of the fetched metrics map and covers exactly those keys. */
  lemma SummaryCoversKeys(svc: Service, tasks: seq<TaskData>)
    requires RankingPermutes(svc)
    requires SummaryTaskNodeList(svc, tasks).Success?
    ensures var ranked := SummaryTaskNodeList(svc, tasks).value;
            var metrics := svc.fetcher.testMetricsMap(tasks).value;
            && |ranked| == |metrics|
            && (forall n :: n in ranked ==> n.task in metrics)
            && (forall t :: t in metrics ==> exists n :: n in ranked && n.task == t)
  {
    var ranked := SummaryTaskNodeList(svc, tasks).value;
    var metrics := svc.fetcher.testMetricsMap(tasks).value;
    var nodes := SummaryNodes(svc, metrics, IterationOrder(metrics.Keys)).value;
    assert ranked == svc.sortTests(nodes);
    OnePerKey(svc, metrics);
    ReorderCoversKeys(nodes, ranked, metrics);
  }

  /** The summary branch: a session-info node with no leaves, and the tests
      only when the task list is non-empty; otherwise nothing is fetched. */
  ghost function SummaryBranch(svc: Service, sessionIds: set<string>, taskList: seq<TaskData>): (r: Result<SummaryNode, Error>)
    ensures taskList == [] ==>
              r == Success(SummaryNode(svc.tokens.controlSummaryTrends, svc.tokens.controlSummaryTrends,
                                       SessionInfoNode(svc.tokens.sessionInfo, svc.tokens.sessionInfo, []), None))
    ensures r.Success? ==>
              && r.value.id == svc.tokens.controlSummaryTrends
              && r.value.displayName == svc.tokens.controlSummaryTrends
              && r.value.sessionInfo == SessionInfoNode(svc.tokens.sessionInfo, svc.tokens.sessionInfo, [])
              && (r.value.tests.Some? <==> taskList != [])
    // Otherwise the tests are exactly the per-task list, and its failure is the branch's.
    ensures taskList != [] ==>
              && (r.Success? <==> SummaryTaskNodeList(svc, taskList).Success?)
              && (r.Success? ==> r.value.tests == Some(SummaryTaskNodeList(svc, taskList).value))
              && (r.Failure? ==> r.error == SummaryTaskNodeList(svc, taskList).error)
  {
    var sessionInfo := SessionInfoNode(svc.tokens.sessionInfo, svc.tokens.sessionInfo, SessionInfoLeafList(sessionIds));
    var tests :- if taskList == [] then Success(None)
                 else var nodes :- SummaryTaskNodeList(svc, taskList); Success(Some(nodes));
    Success(SummaryNode(svc.tokens.controlSummaryTrends, svc.tokens.controlSummaryTrends, sessionInfo, tests))
  }
}
