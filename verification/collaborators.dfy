/** Everything the control-tree service is wired with, reduced to values:
    the data store, the rule providers, the configured monitoring table, the
    metric-id splitter, the ranking sort, the task hash and the id tokens.
    None of these has its own logic modelled here. */
module Collaborators {
  import opened Wrappers
  import opened TreeModel
  import opened RulePipeline

  /** The id and display-name constants the service uses for its fixed nodes
      and for the prefixes of per-task root ids. Their values are not part of
      this model. */
  datatype NameTokens = NameTokens(
    controlSummaryTrends: string,
    sessionInfo: string,
    controlMetrics: string,
    testInfo: string,
    summaryPrefix: string,
    metricsPrefix: string)

  /** The data-store calls, each of which may fail. */
  datatype DataFetcher = DataFetcher(
    taskDataForSessions: set<string> -> Result<seq<TaskData>, Error>,
    testPlotsMap: (set<string>, seq<TaskData>) -> Result<map<TaskData, seq<PlotNode>>, Error>,
    monitoringPlotNodes: (set<string>, seq<TaskData>) -> Result<map<TaskData, seq<PlotNode>>, Error>,
    testMetricsMap: seq<TaskData> -> Result<map<TaskData, seq<MetricNode>>, Error>)

  /** A wired service. `monitoringParams` is the configured table of monitoring
      groups (group key to recognised parameter names); `split` cuts a
      monitoring metric id into its parts; `hashText` is the decimal text of a
      task's hash code; the two sorts are the external ranking step. The rule
      providers serve both leaf types; here they appear once per leaf type. */
  datatype Service = Service(
    fetcher: DataFetcher,
    tokens: NameTokens,
    monitoringParams: map<string, set<string>>,
    split: string -> seq<string>,
    hashText: TaskData -> string,
    summaryRules: Rules<MetricNode>,
    detailsRules: Rules<PlotNode>,
    sortTests: seq<TestNode> -> seq<TestNode>,
    sortTestDetails: seq<TestDetailsNode> -> seq<TestDetailsNode>)

  /** The ranking step only reorders: whatever it is given, it returns the
      same nodes, each as often. An in-place sort of a list has this property. */
  ghost predicate RankingPermutes(svc: Service)
  {
    && (forall s: seq<TestNode> :: multiset(svc.sortTests(s)) == multiset(s))
    && (forall s: seq<TestDetailsNode> :: multiset(svc.sortTestDetails(s)) == multiset(s))
  }
}
