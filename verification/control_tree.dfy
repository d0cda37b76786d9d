/** The entry points of the control-tree service: fetch the task list once,
    run the summary and details branches on it, and assemble the root. The
    two branches run concurrently in the service; they share nothing but
    their inputs, so they are modelled as two pure calls, the summary branch
    awaited first. Any failure fails the whole request: no partial tree. */
module ControlTree {
  import opened Wrappers
  import opened TreeModel
  import opened AgentNames
  import opened RulePipeline
  import opened Collaborators
  import opened SummaryAssembly
  import opened DetailsAssembly

  /** The root built for sessions that have no tasks. */
  function EmptyRoot(tokens: NameTokens): RootNode
  {
    RootNode(
      SummaryNode(tokens.controlSummaryTrends, tokens.controlSummaryTrends,
                  SessionInfoNode(tokens.sessionInfo, tokens.sessionInfo, []), None),
      DetailsNode(tokens.controlMetrics, tokens.controlMetrics, None))
  }

  /** The control tree for a set of sessions. */
  ghost function ControlTreeForSessions(svc: Service, sessionIds: set<string>): (r: Result<RootNode, Error>)
    // The task list is fetched first; its failure is the request's failure.
    ensures svc.fetcher.taskDataForSessions(sessionIds).Failure? ==>
              r == Failure(svc.fetcher.taskDataForSessions(sessionIds).error)
    // No tasks: both sections are left without tests, whatever the other fetchers and rules would do.
    ensures svc.fetcher.taskDataForSessions(sessionIds) == Success([]) ==> r == Success(EmptyRoot(svc.tokens))
    // A root exists only when both branches succeed on the fetched task list.
    ensures r.Success? ==>
              && svc.fetcher.taskDataForSessions(sessionIds).Success?
              && var tasks := svc.fetcher.taskDataForSessions(sessionIds).value;
                 && SummaryBranch(svc, sessionIds, tasks) == Success(r.value.summary)
                 && DetailsBranch(svc, sessionIds, tasks) == Success(r.value.details)
                 && (r.value.summary.tests.Some? <==> tasks != [])
                 && (r.value.details.tests.Some? <==> tasks != [])
    // The summary branch's failure wins over the details branch's.
    ensures svc.fetcher.taskDataForSessions(sessionIds).Success? ==>
              var tasks := svc.fetcher.taskDataForSessions(sessionIds).value;
              SummaryBranch(svc, sessionIds, tasks).Failure? ==>
                r == Failure(SummaryBranch(svc, sessionIds, tasks).error)
    // Conversely, when the task list is fetched and both branches succeed on it,
    // the root is made of their two results; after a successful summary, a
    // details failure is the request's failure.
    ensures svc.fetcher.taskDataForSessions(sessionIds).Success? ==>
              var tasks := svc.fetcher.taskDataForSessions(sessionIds).value;
              && (SummaryBranch(svc, sessionIds, tasks).Success? && DetailsBranch(svc, sessionIds, tasks).Success? ==>
                    r == Success(RootNode(SummaryBranch(svc, sessionIds, tasks).value,
                                          DetailsBranch(svc, sessionIds, tasks).value)))
              && (SummaryBranch(svc, sessionIds, tasks).Success? && DetailsBranch(svc, sessionIds, tasks).Failure? ==>
                    r == Failure(DetailsBranch(svc, sessionIds, tasks).error))
  {
    var tasks :- svc.fetcher.taskDataForSessions(sessionIds);
    var summary :- SummaryBranch(svc, sessionIds, tasks);
    var details :- DetailsBranch(svc, sessionIds, tasks);
    Success(RootNode(summary, details))
  }

  /** The control tree for one session is the tree for the singleton set. */
  ghost function ControlTreeForSession(svc: Service, sessionId: string): (r: Result<RootNode, Error>)
    ensures r == ControlTreeForSessions(svc, {sessionId})
  {
    ControlTreeForSessions(svc, {sessionId})
  }

  /** With a ranking step that only reorders, a successful request over a
      non-empty task list has details subtrees whose tasks are a reordering of
      the task list, each task as often as it is listed, and one summary
      subtree per key of the fetched metrics map, covering exactly those keys. */
  lemma RootCoversTasks(svc: Service, sessionIds: set<string>)
    requires RankingPermutes(svc)
    requires ControlTreeForSessions(svc, sessionIds).Success?
    requires svc.fetcher.taskDataForSessions(sessionIds).value != []
    ensures var root := ControlTreeForSessions(svc, sessionIds).value;
            var tasks := svc.fetcher.taskDataForSessions(sessionIds).value;
            && root.details.tests.Some?
            && |root.details.tests.value| == |tasks|
            && (forall n :: n in root.details.tests.value ==> n.task in tasks)
            && (forall t :: t in tasks ==> exists n :: n in root.details.tests.value && n.task == t)
            && multiset(TasksOf(root.details.tests.value)) == multiset(tasks)
            && root.summary.tests.Some?
            && svc.fetcher.testMetricsMap(tasks).Success?
            && |root.summary.tests.value| == |svc.fetcher.testMetricsMap(tasks).value|
            && (forall n :: n in root.summary.tests.value ==> n.task in svc.fetcher.testMetricsMap(tasks).value)
            && (forall t :: t in svc.fetcher.testMetricsMap(tasks).value ==>
                  exists n :: n in root.summary.tests.value && n.task == t)
  {
    var tasks := svc.fetcher.taskDataForSessions(sessionIds).value;
    DetailsCoverTasks(svc, sessionIds, tasks);
    SummaryCoversKeys(svc, tasks);
  }

  /** When every collaborator does its job — the fetches succeed, the rules
      never fail, every listed task has a plot list and, when the fetched
      monitoring map is non-empty, a monitoring list, and the ranking step only
      reorders — a root is built. Its details section has one subtree per
      task-list entry and its summary section one per metrics-map key. */
  lemma RootBuiltWithReliableCollaborators(svc: Service, sessionIds: set<string>)
    requires RankingPermutes(svc)
    requires NeverFail(svc.summaryRules) && NeverFail(svc.detailsRules)
    requires svc.fetcher.taskDataForSessions(sessionIds).Success?
    requires var tasks := svc.fetcher.taskDataForSessions(sessionIds).value;
             && svc.fetcher.testMetricsMap(tasks).Success?
             && svc.fetcher.testPlotsMap(sessionIds, tasks).Success?
             && svc.fetcher.monitoringPlotNodes(sessionIds, tasks).Success?
             && var plots := svc.fetcher.testPlotsMap(sessionIds, tasks).value;
                var monitoring := svc.fetcher.monitoringPlotNodes(sessionIds, tasks).value;
                forall t :: t in tasks ==> t in plots && (|monitoring| > 0 ==> t in monitoring)
    ensures ControlTreeForSessions(svc, sessionIds).Success?
    ensures var root := ControlTreeForSessions(svc, sessionIds).value;
            var tasks := svc.fetcher.taskDataForSessions(sessionIds).value;
            tasks != [] ==>
              && root.details.tests.Some? && |root.details.tests.value| == |tasks|
              && root.summary.tests.Some?
              && |root.summary.tests.value| == |svc.fetcher.testMetricsMap(tasks).value|
  {
    var tasks := svc.fetcher.taskDataForSessions(sessionIds).value;
    if tasks != [] {
      var plots := svc.fetcher.testPlotsMap(sessionIds, tasks).value;
      var monitoring := svc.fetcher.monitoringPlotNodes(sessionIds, tasks).value;
      var agentNames := AgentNameMap(svc.monitoringParams, svc.split,
                                     MetricNames(AllPlots(monitoring) + AllPlots(plots)));
      DetailsNodesWithReliableRules(svc, agentNames, plots, monitoring, tasks);
      assert DetailsNodes(svc, agentNames, plots, monitoring, tasks).Success? by {
        forall i | 0 <= i < |tasks| ensures TaskPlotList(plots, monitoring, tasks[i]).Success? {
          assert tasks[i] in tasks;
        }
      }
      var metrics := svc.fetcher.testMetricsMap(tasks).value;
      var order := IterationOrder(metrics.Keys);
      assert SummaryNodes(svc, metrics, order).Success? by {
        forall i | 0 <= i < |order| ensures SummaryTestNode(svc, order[i], metrics[order[i]]).Success? {
          var id := SummaryRootId(svc, order[i]);
          var leaves := metrics[order[i]];
          assert svc.summaryRules.unite(None, id, leaves).Success?;
          var extended := ExtendLeaves(leaves, svc.summaryRules.unite(None, id, leaves).value);
          assert svc.summaryRules.shape(id, extended).Success?;
        }
      }
      RootCoversTasks(svc, sessionIds);
    }
  }
}
