# Control tree aggregation, modelled in Dafny

This project models the core of Jagger's web-client control-tree service, `ControlTreeCreatorServiceImpl`. Given a set of finished test sessions, the service builds one `RootNode` that holds a summary section and a details section. It works in four steps:

- it fetches the sessions' task list once;
- the **summary branch** fetches a map from task to metric leaves and builds one `TestNode` per key of that map;
- the **details branch** fetches the metric plots and the monitoring plots of every task, correlates monitoring parameters with the agents that produced them (the *agent-name map*), and builds one `TestDetailsNode` per task of the task list;
- every per-task subtree comes from the same two-stage **rule pipeline**: a merge rule may produce composite leaves, which are appended to the original leaves; a shape rule then groups the extended list into a `MetricGroupNode`.

Every collaborator is a value the model is given. This covers the data store, the two rule providers, the metric-id splitter, the ranking sort, the task hash code and the id tokens. Their own logic is not modelled. The model is functional: immutable datatypes, sets, maps and pure functions. Any failure, whether a fetch, a rule or a null list, is a `Failure` that aborts the whole request.

Modules, one per component:

- `Wrappers` (`wrappers.dfy`): `Option`, which stands for a nullable reference, and `Result`, which stands for a call that may throw.
- `TreeModel` (`tree_model.dfy`): tasks, metric and plot leaves, group nodes, test nodes, the branch and root nodes, and errors.
- `AgentNames` (`agent_names.dfy`): the agent-name correlator. It has a declarative definition over the set of metric names, and a method that follows the source's nested loops and is proved equal to it.
- `RulePipeline` (`rule_pipeline.dfy`): merge-then-shape sequencing, generic in the leaf type.
- `Collaborators` (`collaborators.dfy`): the wired service as a record of function values.
- `SeqFacts` (`seq_facts.dfy`): element-wise mapping of a sequence, and the fact that mapping keeps reorderings.
- `DetailsAssembly` and `SummaryAssembly`: the two branches.
- `ControlTree` (`control_tree.dfy`): the entry points.

Three behaviours of the code are worth knowing, and the model keeps them:

- **Summary subtrees follow map keys.** The summary branch builds one subtree per key of the fetched metrics map (line 191), not one per task-list entry.
- **The shape rule gets a null key.** It is filtered with a null key (line 329). The root id only goes to its provider (line 327).
- **Lists are extended in place.** The details loop appends the monitoring plots and the merged leaves to the list held in the fetched plots map (lines 154 and 323). A task listed twice is therefore built the second time from the list its first build left behind. The model threads the current lists through the loop. `RepeatedTaskReusesExtendedList` shows the effect. `DetailsNodesOfDistinctTasks` shows that without repeated tasks each subtree comes from the task's fetched list alone.

## Model

| member | source | states |
|---|---|---|
| AgentNames.AgentNameMap | webclient/src/main/java/com/griddynamics/jagger/webclient/server/ControlTreeCreatorServiceImpl.java:292-314 | A key is in the map iff some metric name splits into more than one part and its first part is in that key's configured parameter set. Every key is a configured key with a non-empty agent set. An agent is under a key iff it is the second part of such a name (soundness and completeness). A parameter configured in several groups is recorded under all of them. |
| AgentNames.CorrelateAgents | webclient/src/main/java/com/griddynamics/jagger/webclient/server/ControlTreeCreatorServiceImpl.java:292-314 | The source's triple loop, which walks the plot set and the key set in any order, returns exactly the agent-name map of the set of all metric names of the plots. So the result depends on that set only, not on iteration order. Plots are compared by value, as the model's sets compare them. |
| AgentNames.RecordPlot | webclient/src/main/java/com/griddynamics/jagger/webclient/server/ControlTreeCreatorServiceImpl.java:296-310 | Walking one plot's metric names in list order, and skipping names that do not split, adds exactly that plot's names to the names already inspected. |
| AgentNames.RecordName | webclient/src/main/java/com/griddynamics/jagger/webclient/server/ControlTreeCreatorServiceImpl.java:301-308 | Walking the configured keys in any order for one splittable name is the same as inspecting that name against every key. |
| AgentNames.CollectedStep | webclient/src/main/java/com/griddynamics/jagger/webclient/server/ControlTreeCreatorServiceImpl.java:302-306 | Inspecting one (name, key) pair adds the agent under the key on a match, creating the entry when it is absent. Otherwise the map is unchanged. |
| AgentNames.PlainNameContributesNothing | webclient/src/main/java/com/griddynamics/jagger/webclient/server/ControlTreeCreatorServiceImpl.java:298-299 | A metric name that splits into at most one part does not change the agent-name map. |
| AgentNames.AgentNameMapOfUnion | webclient/src/main/java/com/griddynamics/jagger/webclient/server/ControlTreeCreatorServiceImpl.java:293-313 | The map for a union of metric-name sets is the pointwise union of the two maps. The keys are the union of the keys, and each agent set is the union of the agent sets. |
| AgentNames.OneMonitoredAgent | webclient/src/main/java/com/griddynamics/jagger/webclient/server/ControlTreeCreatorServiceImpl.java:295-308 | Take "cpu@hostA", which splits into ("cpu", "hostA") with "cpu" configured under "os", and "latency", which does not split. The map is exactly {"os": {"hostA"}}. |
| RulePipeline.ExtendLeaves | webclient/src/main/java/com/griddynamics/jagger/webclient/server/ControlTreeCreatorServiceImpl.java:321-324 | The original leaves are a prefix of the extended list. A null merge result leaves the list unchanged. Otherwise the merged leaves form the rest of the list. |
| RulePipeline.BuildTreeAccordingToRules | webclient/src/main/java/com/griddynamics/jagger/webclient/server/ControlTreeCreatorServiceImpl.java:316-332 | A failing merge rule fails the pipeline with its own error, and the shape rule is not consulted. A failing shape rule fails it with the shape rule's own error. On success the shape rule's group is built from the original leaves followed by the merged ones, with the originals never dropped. A failure comes only from one of the two rules. |
| DetailsAssembly.CorrelatedPlots | webclient/src/main/java/com/griddynamics/jagger/webclient/server/ControlTreeCreatorServiceImpl.java:143-147 | The plots fed to the correlator are all monitoring plots and all metric plots. The non-empty guard on the monitoring map does not change the set. |
| DetailsAssembly.TaskPlotList | webclient/src/main/java/com/griddynamics/jagger/webclient/server/ControlTreeCreatorServiceImpl.java:152-155 | A task's starting list exists iff the task has a plot list, and also has a monitoring list when the monitoring map is non-empty. Otherwise it is a null-list failure naming the map. The list is the task's plot list, followed by its monitoring plots only when the monitoring map is non-empty. |
| DetailsAssembly.DetailsNodes | webclient/src/main/java/com/griddynamics/jagger/webclient/server/ControlTreeCreatorServiceImpl.java:151-167 | On success there is exactly one node per task-list entry, in task-list order, and every task had the lists it needs. If the first task lacks its lists, the loop fails with that null-list error; if the first task's pipeline fails, with the pipeline's error. When it succeeds is stated by `DistinctTasksSucceed` and `DetailsNodesWithReliableRules`, and which error a failure reports by `DistinctTasksFirstFailure` and `ReliableRulesFirstFailure`. |
| DetailsAssembly.DistinctTasksSucceed | webclient/src/main/java/com/griddynamics/jagger/webclient/server/ControlTreeCreatorServiceImpl.java:151-167 | With no repeated task, the loop succeeds iff every task has its lists and its pipeline succeeds on them. The lists are the task's fetched plots, extended by its monitoring plots when the monitoring map is non-empty. |
| DetailsAssembly.DistinctTasksFirstFailure | webclient/src/main/java/com/griddynamics/jagger/webclient/server/ControlTreeCreatorServiceImpl.java:151-167 | With no repeated task, a failing loop fails with the error of some task k: every task before k has its lists and builds, and task k either lacks its lists (the null-list error) or its pipeline fails (the pipeline's error). |
| DetailsAssembly.DetailsNodesOfDistinctTasks | webclient/src/main/java/com/griddynamics/jagger/webclient/server/ControlTreeCreatorServiceImpl.java:151-167 | With no repeated task and a successful loop, node i is the pipeline's group for task i's fetched plots. Those plots are extended by its monitoring plots when the monitoring map is non-empty, with the agent-name map as context. |
| DetailsAssembly.DetailsNodesWithReliableRules | webclient/src/main/java/com/griddynamics/jagger/webclient/server/ControlTreeCreatorServiceImpl.java:151-160 | If the rules never fail, the loop succeeds iff every listed task has a plot list, and also a monitoring list when the monitoring map is non-empty. This holds with repeated tasks too: extending a list in place never removes a task from the map. |
| DetailsAssembly.ReliableRulesFirstFailure | webclient/src/main/java/com/griddynamics/jagger/webclient/server/ControlTreeCreatorServiceImpl.java:151-160 | If the rules never fail, a failing loop, repeated tasks included, fails with the null-list error of some task k, and every task before k has its lists. |
| DetailsAssembly.RepeatedTaskReusesExtendedList | webclient/src/main/java/com/griddynamics/jagger/webclient/server/ControlTreeCreatorServiceImpl.java:151-160 | For the task list [t, t], the second build starts from the list the first build left behind, which is a prefix of its input. With an empty monitoring map that input is exactly the first build's list. Otherwise the task's monitoring plots are appended once more, as the suffix. |
| DetailsAssembly.DetailsTaskNodeList | webclient/src/main/java/com/griddynamics/jagger/webclient/server/ControlTreeCreatorServiceImpl.java:115-176 | A failing metric-plot fetch fails the branch first, then a failing monitoring fetch. Once both succeed, the branch succeeds iff the per-task loop does, and otherwise fails with the loop's error. The loop uses the agent-name map of every fetched plot. On success the ranking step receives exactly the per-task nodes. |
| DetailsAssembly.DetailsCoverTasks | webclient/src/main/java/com/griddynamics/jagger/webclient/server/ControlTreeCreatorServiceImpl.java:151-170 | If the ranking step only reorders, the ranked details list has as many nodes as task-list entries. Every node's task is listed, every listed task has a node, and the nodes' tasks are a reordering of the task list: each task has as many nodes as it has entries. |
| DetailsAssembly.DetailsBranch | webclient/src/main/java/com/griddynamics/jagger/webclient/server/ControlTreeCreatorServiceImpl.java:261-267 | An empty task list gives a details node with no tests, whatever the fetchers do. Otherwise the tests are exactly the per-task list: the branch succeeds iff that list does, and fails with its error. |
| SummaryAssembly.SummaryTestNode | webclient/src/main/java/com/griddynamics/jagger/webclient/server/ControlTreeCreatorServiceImpl.java:192-203 | A summary subtree exists iff the pipeline without agent names succeeds on the task's leaves. It carries that group and the task. Its test-info node has id = test-info token + the test node's id and an empty info list. |
| SummaryAssembly.IterationOrder | webclient/src/main/java/com/griddynamics/jagger/webclient/server/ControlTreeCreatorServiceImpl.java:191 | The map's keys are visited each exactly once, in a fixed but unspecified order. |
| SummaryAssembly.SummaryNodes | webclient/src/main/java/com/griddynamics/jagger/webclient/server/ControlTreeCreatorServiceImpl.java:190-206 | One node per visited key, in visiting order, each the subtree of that key's leaves. The loop fails iff some key's subtree fails. The error is that of the first failing key in visiting order. |
| SummaryAssembly.OnePerKey | webclient/src/main/java/com/griddynamics/jagger/webclient/server/ControlTreeCreatorServiceImpl.java:190-206 | Over the whole key set there are as many nodes as keys, no key appears twice, every key appears, and each node is built from its own key's leaves. |
| SummaryAssembly.SummaryTaskNodeList | webclient/src/main/java/com/griddynamics/jagger/webclient/server/ControlTreeCreatorServiceImpl.java:186-210 | A failing metrics fetch fails the list. Once the fetch succeeds, the list succeeds iff the per-key loop does, and otherwise fails with the loop's error. On success the ranking step receives exactly the per-key nodes. |
| SummaryAssembly.SummaryCoversKeys | webclient/src/main/java/com/griddynamics/jagger/webclient/server/ControlTreeCreatorServiceImpl.java:190-209 | If the ranking step only reorders, the ranked summary list has one node per key of the fetched metrics map. Every node's task is a key, and every key has a node. |
| SummaryAssembly.SummaryBranch | webclient/src/main/java/com/griddynamics/jagger/webclient/server/ControlTreeCreatorServiceImpl.java:240-249 | The summary node always carries the fixed ids and an empty session-info node. An empty task list gives no tests and involves no fetch. Otherwise the tests are exactly the per-task list: the branch succeeds iff that list does, and fails with its error. |
| ControlTree.ControlTreeForSessions | webclient/src/main/java/com/griddynamics/jagger/webclient/server/ControlTreeCreatorServiceImpl.java:73-106 | A failing task-list fetch fails the request. No tasks gives the empty root, whatever the other collaborators do. Otherwise a root exists iff both branches succeed, and its sections are exactly their results. A summary failure is reported first; after a successful summary, a details failure is the request's failure. |
| ControlTree.ControlTreeForSession | webclient/src/main/java/com/griddynamics/jagger/webclient/server/ControlTreeCreatorServiceImpl.java:66-71 | The one-session entry point is the multi-session one on the singleton set. |
| ControlTree.RootCoversTasks | webclient/src/main/java/com/griddynamics/jagger/webclient/server/ControlTreeCreatorServiceImpl.java:80-96 | Assume a ranking step that only reorders and a non-empty task list. The details section then has as many subtrees as task-list entries, and their tasks are a reordering of the task list, each task as often as it is listed. The summary section has one subtree per metrics-map key, covering exactly those keys. |
| ControlTree.RootBuiltWithReliableCollaborators | webclient/src/main/java/com/griddynamics/jagger/webclient/server/ControlTreeCreatorServiceImpl.java:73-106 | Suppose every fetch succeeds, the rules never fail, every listed task has a plot list (and a monitoring list when the fetched monitoring map is non-empty), and the ranking step only reorders. Then a root is built. For a non-empty task list, its details section has one subtree per task-list entry and its summary section one per metrics-map key. |

## Left out

- The thread pool, `Future` submission and joins (lines 84-89, 119-139): the branches and sub-fetches are modelled as sequential pure calls, each awaited in the source's `get` order.
- The data-store calls (lines 110, 179, 213, 223): they are the functions of `DataFetcher`, each returning a map, a list or a failure. The thread pool passed to the metrics fetch is not modelled. A map that holds a null list as a value is not modelled.
- The rule providers and rules: they are the functions of `Rules`, one instance per leaf type, whereas the source's generic methods serve both types. A rule's handling of a null leaf list is not visible. When a task has no plot list and the monitoring map is empty, the model treats that as a failure.
- `AgentUtils.splitMonitoringMetricId` is the `split` function; no delimiter is assumed.
- `MetricRankingProvider.sortPlotNodes` is an opaque function. Only `RootCoversTasks`, `RootBuiltWithReliableCollaborators`, `DetailsCoverTasks` and `SummaryCoversKeys` assume it only reorders.
- `setDefaultMonitoringParams` and `getDefaultMonitoringParametersMap` (lines 41-55) are reduced to the configured table `monitoringParams`. Each provider setter replaces the table, so which provider's groups win depends on wiring order; this is not modelled.
- Root ids use `hashText`, standing for the decimal text of the task's `hashCode`. The `NameTokens` constants are given as a record because their values are not part of this model.
- The `TestNode` and `TestDetailsNode` constructors are not part of this model. A test node's id is taken to be its group node's id. A group node returned by the shape rule is taken to keep the leaf list as it stood when the rule returned.
- Logging and timing (lines 78, 98, 111, 173) are left out.
- ControlTreeForSessions: it returns the first failure unchanged rather than wrapped in `RuntimeException` (lines 101-105); the wrapping is plumbing.
- DetailsTaskNodeList: likewise, its failure is not wrapped again (lines 172-175).
- `SessionScopePlotsNodeFetcherThread` and `getSessionScopePlotNames` (lines 182-184, 270-290) are left out: they are never invoked, because their submission is commented out.
- The XML bean-parser constants and `SimpleMetricDefinitionParser` are configuration wiring with no aggregation logic.
- DetailsAssembly.RepeatedTaskReusesExtendedList: stated for the task list [t, t] only, because tracking a repeated task across arbitrary intermediate tasks would mean stating the threaded lists of the whole loop. `DetailsNodesWithReliableRules` covers success for any task list.
- Plot and task identity: the `equals` and `hashCode` of `PlotNode` and `TaskData` are not part of this model, so both are compared by value (structural equality). This decides which plots the correlator's `HashSet` collapses (line 143), which tasks the plot maps treat as one key (lines 152-154, 191), and what `Distinct` means for a task list. A source class with identity equality would keep equal-valued plots and tasks apart.
