/** The entities of the control tree: the task descriptor, the metric and plot
    leaves, the group node built by the shape rule, and the per-task, branch
    and root containers. Every entity is an immutable value. */
module TreeModel {
  import opened Wrappers

  /** One executed test of a session. Only its identity matters to the
      aggregation: it keys the fetched maps and seeds the root ids. */
  datatype TaskData = TaskData(id: int, taskName: string)

  /** A metric identifier; a monitoring metric encodes "parameter" and
      "agent" in it, recovered by the split collaborator. */
  datatype MetricNameDto = MetricNameDto(metricName: string)

  /** A leaf of the summary tree. */
  datatype MetricNode = MetricNode(id: string, displayName: string, metricNames: seq<MetricNameDto>)

  /** A leaf of the details tree: one chart over several metric names. */
  datatype PlotNode = PlotNode(id: string, displayName: string, metricNames: seq<MetricNameDto>)

  /** The tree the shape rule returns: named groups over leaves of type `M`. */
  datatype MetricGroupNode<M> = MetricGroupNode(
    id: string,
    displayName: string,
    groups: seq<MetricGroupNode<M>>,
    leaves: seq<M>)

  datatype TestInfoLeaf = TestInfoLeaf(name: string)

  datatype TestInfoNode = TestInfoNode(id: string, displayName: string, infoList: seq<TestInfoLeaf>)

  datatype SessionInfoLeaf = SessionInfoLeaf(name: string)

  datatype SessionInfoNode = SessionInfoNode(id: string, displayName: string, infoList: seq<SessionInfoLeaf>)

  /** A summary subtree for one task. Its id is the id of its group node. */
  datatype TestNode = TestNode(base: MetricGroupNode<MetricNode>, task: TaskData, testInfo: TestInfoNode)
  {
    function Id(): string { base.id }
  }

  /** A details subtree for one task. */
  datatype TestDetailsNode = TestDetailsNode(base: MetricGroupNode<PlotNode>, task: TaskData)

  /** `tests == None` means the test list was never set. */
  datatype SummaryNode = SummaryNode(
    id: string,
    displayName: string,
    sessionInfo: SessionInfoNode,
    tests: Option<seq<TestNode>>)

  datatype DetailsNode = DetailsNode(id: string, displayName: string, tests: Option<seq<TestDetailsNode>>)

  datatype RootNode = RootNode(summary: SummaryNode, details: DetailsNode)

  /** Why building the control tree failed. Every failure aborts the whole request. */
  datatype Error =
    | FetchFailed(what: string)              // a data-store call threw
    | RuleFailed(what: string)               // a merge or shape rule threw
    | MissingPlotList(task: TaskData)        // the plots map has no list for a task
    | MissingMonitoringList(task: TaskData)  // the non-empty monitoring map has no list for a task

  /** No element occurs twice. */
  predicate Distinct<T(==)>(s: seq<T>)
  {
    forall i, j :: 0 <= i < j < |s| ==> s[i] != s[j]
  }

  /** Agent-name map: monitoring group key to the agents seen producing it. */
  type AgentMap = map<string, set<string>>
}
