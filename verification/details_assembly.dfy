/** The details branch: fetch the metric plots and the monitoring plots of
    every task, correlate agents over all of them, then build one details
    subtree per task of the task list, in task-list order, before ranking.

    The plot list a task is built from is the very list held in the fetched
    plots map: adding the monitoring plots and the merged leaves extends that
    list in place. The model threads the current lists through the loop, so a
    task that occurs twice in the task list starts its second build from the
    list its first build left behind. */
module DetailsAssembly {
  import opened Wrappers
  import opened TreeModel
  import opened AgentNames
  import opened RulePipeline
  import opened Collaborators
  import opened SeqFacts

  /** Every plot listed under some task of `m`. */
  function AllPlots(m: map<TaskData, seq<PlotNode>>): set<PlotNode>
  {
    set t, p | t in m && p in m[t] :: p
  }

  /** The plots whose metric names feed the correlator: the monitoring plots
      (gathered only when that map is non-empty) and the metric plots. The
      guard on the monitoring map does not change the set. */
  function CorrelatedPlots(plots: map<TaskData, seq<PlotNode>>, monitoring: map<TaskData, seq<PlotNode>>): (r: set<PlotNode>)
    ensures r == AllPlots(monitoring) + AllPlots(plots)
  {
    (if |monitoring| > 0 then AllPlots(monitoring) else {}) + AllPlots(plots)
  }

  /** The id from which a task's details tree is grown. */
  function DetailsRootId(svc: Service, t: TaskData): string
  {
    svc.tokens.metricsPrefix + svc.hashText(t)
  }

  /** The plot list a task's pipeline starts from: the task's current list,
      followed by its monitoring plots when the monitoring map is non-empty.
      A missing list is a null reference, which aborts the branch. */
  function TaskPlotList(lists: map<TaskData, seq<PlotNode>>, monitoring: map<TaskData, seq<PlotNode>>,
                        t: TaskData): (r: Result<seq<PlotNode>, Error>)
    ensures r.Success? <==> t in lists && (|monitoring| > 0 ==> t in monitoring)
    ensures t !in lists ==> r == Failure(MissingPlotList(t))
    ensures t in lists && |monitoring| > 0 && t !in monitoring ==> r == Failure(MissingMonitoringList(t))
    ensures r.Success? ==> |lists[t]| <= |r.value| && r.value[..|lists[t]|] == lists[t]
    ensures r.Success? && |monitoring| == 0 ==> r.value == lists[t]
    ensures r.Success? && |monitoring| > 0 ==> r.value[|lists[t]|..] == monitoring[t]
  {
    if t !in lists then Failure(MissingPlotList(t))
    else if |monitoring| == 0 then Success(lists[t])
    else if t !in monitoring then Failure(MissingMonitoringList(t))
    else Success(lists[t] + monitoring[t])
  }

  /** The per-task loop, from the current plot lists. The first failure
      aborts it. */
  function DetailsNodes(svc: Service, agentNames: AgentMap, lists: map<TaskData, seq<PlotNode>>,
                        monitoring: map<TaskData, seq<PlotNode>>, tasks: seq<TaskData>): (r: Result<seq<TestDetailsNode>, Error>)
    // One node per task, in task order.
    ensures r.Success? ==> |r.value| == |tasks|
    ensures r.Success? ==> forall i :: 0 <= i < |tasks| ==> r.value[i].task == tasks[i]
    // It succeeds only when every task has a plot list, and a monitoring list
    // whenever the monitoring map is non-empty.
    ensures r.Success? ==> forall i :: 0 <= i < |tasks| ==>
              tasks[i] in lists && (|monitoring| > 0 ==> tasks[i] in monitoring)
    // The first task's own failure, a missing list or a failing rule, is the loop's failure.
    ensures tasks != [] && TaskPlotList(lists, monitoring, tasks[0]).Failure? ==>
              r == Failure(TaskPlotList(lists, monitoring, tasks[0]).error)
    ensures tasks != [] && TaskPlotList(lists, monitoring, tasks[0]).Success? ==>
              var b := BuildTreeAccordingToRules(svc.detailsRules, DetailsRootId(svc, tasks[0]), Some(agentNames),
                                                 TaskPlotList(lists, monitoring, tasks[0]).value);
              b.Failure? ==> r == Failure(b.error)
    decreases |tasks|
  {
    if tasks == [] then Success([])
    else
      var t := tasks[0];
      var leaves :- TaskPlotList(lists, monitoring, t);
      var built :- BuildTreeAccordingToRules(svc.detailsRules, DetailsRootId(svc, t), Some(agentNames), leaves);
      var rest :- DetailsNodes(svc, agentNames, lists[t := built.leaves], monitoring, tasks[1..]);
      Success([TestDetailsNode(built.group, t)] + rest)
  }

  /** The pipeline of task `t` succeeds on the task's starting list. */
  predicate TaskBuilds(svc: Service, agentNames: AgentMap, lists: map<TaskData, seq<PlotNode>>,
                       monitoring: map<TaskData, seq<PlotNode>>, t: TaskData)
  {
    && TaskPlotList(lists, monitoring, t).Success?
    && BuildTreeAccordingToRules(svc.detailsRules, DetailsRootId(svc, t), Some(agentNames),
                                 TaskPlotList(lists, monitoring, t).value).Success?
  }

  /** The error with which task `t` fails: its missing list, or else its
      pipeline's error. */
  function TaskError(svc: Service, agentNames: AgentMap, lists: map<TaskData, seq<PlotNode>>,
                     monitoring: map<TaskData, seq<PlotNode>>, t: TaskData): Error
    requires !TaskBuilds(svc, agentNames, lists, monitoring, t)
  {
    if TaskPlotList(lists, monitoring, t).Failure? then TaskPlotList(lists, monitoring, t).error
    else BuildTreeAccordingToRules(svc.detailsRules, DetailsRootId(svc, t), Some(agentNames),
                                   TaskPlotList(lists, monitoring, t).value).error
  }

  /** Extending one task's list leaves every other task's starting list as it was. */
  lemma OtherTaskListUnchanged(lists: map<TaskData, seq<PlotNode>>, monitoring: map<TaskData, seq<PlotNode>>,
                               t: TaskData, extended: seq<PlotNode>, u: TaskData)
    requires u != t
    ensures TaskPlotList(lists[t := extended], monitoring, u) == TaskPlotList(lists, monitoring, u)
  {
  }

  /** When no task repeats, the loop succeeds exactly when every task's
      pipeline succeeds on the fetched list of that task, extended by its
      monitoring plots when the monitoring map is non-empty: the in-place
      extension of earlier tasks' lists never reaches a later task. */
  lemma {:induction false} DistinctTasksSucceed(svc: Service, agentNames: AgentMap,
                                               lists: map<TaskData, seq<PlotNode>>,
                                               monitoring: map<TaskData, seq<PlotNode>>,
                                               tasks: seq<TaskData>)
    requires Distinct(tasks)
    ensures DetailsNodes(svc, agentNames, lists, monitoring, tasks).Success? <==>
              forall i :: 0 <= i < |tasks| ==> TaskBuilds(svc, agentNames, lists, monitoring, tasks[i])
    decreases |tasks|
  {
    if tasks != [] {
      var t := tasks[0];
      var tail := tasks[1..];
      assert Distinct(tail);
      if TaskBuilds(svc, agentNames, lists, monitoring, t) {
        var leaves := TaskPlotList(lists, monitoring, t).value;
        var built := BuildTreeAccordingToRules(svc.detailsRules, DetailsRootId(svc, t), Some(agentNames), leaves).value;
        var lists' := lists[t := built.leaves];
        DistinctTasksSucceed(svc, agentNames, lists', monitoring, tail);
        forall i | 1 <= i < |tasks|
          ensures TaskBuilds(svc, agentNames, lists', monitoring, tasks[i]) == TaskBuilds(svc, agentNames, lists, monitoring, tasks[i])
        {
          assert tasks[i] == tail[i - 1];
          OtherTaskListUnchanged(lists, monitoring, t, built.leaves, tasks[i]);
        }
        if !DetailsNodes(svc, agentNames, lists', monitoring, tail).Success? {
          var k :| 0 <= k < |tail| && !TaskBuilds(svc, agentNames, lists', monitoring, tail[k]);
          assert tail[k] == tasks[k + 1];
        }
      }
    }
  }

  /** Extending one task's list leaves whether another task builds, and with
      which error it fails, as it was. */
  lemma OtherTaskBuildUnchanged(svc: Service, agentNames: AgentMap, lists: map<TaskData, seq<PlotNode>>,
                                monitoring: map<TaskData, seq<PlotNode>>,
                                t: TaskData, extended: seq<PlotNode>, u: TaskData)
    requires u != t
    ensures TaskBuilds(svc, agentNames, lists[t := extended], monitoring, u) == TaskBuilds(svc, agentNames, lists, monitoring, u)
    ensures !TaskBuilds(svc, agentNames, lists, monitoring, u) ==>
              TaskError(svc, agentNames, lists[t := extended], monitoring, u) == TaskError(svc, agentNames, lists, monitoring, u)
  {
    OtherTaskListUnchanged(lists, monitoring, t, extended, u);
  }

  /** One step of a successful loop: the first task builds, the loop goes on
      from the extended lists, and the first node is that task's group. */
  lemma SuccessfulStep(svc: Service, agentNames: AgentMap, lists: map<TaskData, seq<PlotNode>>,
                       monitoring: map<TaskData, seq<PlotNode>>, tasks: seq<TaskData>)
    requires tasks != []
    requires DetailsNodes(svc, agentNames, lists, monitoring, tasks).Success?
    ensures TaskBuilds(svc, agentNames, lists, monitoring, tasks[0])
    ensures var built := BuildTreeAccordingToRules(svc.detailsRules, DetailsRootId(svc, tasks[0]), Some(agentNames),
                                                   TaskPlotList(lists, monitoring, tasks[0]).value).value;
            var rest := DetailsNodes(svc, agentNames, lists[tasks[0] := built.leaves], monitoring, tasks[1..]);
            && rest.Success?
            && DetailsNodes(svc, agentNames, lists, monitoring, tasks).value == [TestDetailsNode(built.group, tasks[0])] + rest.value
  {
  }

  /** The group built for another task is the same before and after an extension. */
  lemma OtherTaskGroupUnchanged(svc: Service, agentNames: AgentMap, lists: map<TaskData, seq<PlotNode>>,
                                monitoring: map<TaskData, seq<PlotNode>>,
                                t: TaskData, extended: seq<PlotNode>, u: TaskData)
    requires u != t
    requires TaskBuilds(svc, agentNames, lists[t := extended], monitoring, u)
    ensures TaskBuilds(svc, agentNames, lists, monitoring, u)
    ensures BuildTreeAccordingToRules(svc.detailsRules, DetailsRootId(svc, u), Some(agentNames),
                                      TaskPlotList(lists, monitoring, u).value)
            == BuildTreeAccordingToRules(svc.detailsRules, DetailsRootId(svc, u), Some(agentNames),
                                         TaskPlotList(lists[t := extended], monitoring, u).value)
  {
    OtherTaskListUnchanged(lists, monitoring, t, extended, u);
  }

  /** With no repeated task, a failing loop fails with the error of the first
      task whose lists are missing or whose pipeline fails; every task before
      it builds. */
  lemma {:induction false} DistinctTasksFirstFailure(svc: Service, agentNames: AgentMap,
                                                    lists: map<TaskData, seq<PlotNode>>,
                                                    monitoring: map<TaskData, seq<PlotNode>>,
                                                    tasks: seq<TaskData>)
    requires Distinct(tasks)
    ensures var r := DetailsNodes(svc, agentNames, lists, monitoring, tasks);
            r.Failure? ==>
              exists k :: 0 <= k < |tasks|
                          && (forall j :: 0 <= j < k ==> TaskBuilds(svc, agentNames, lists, monitoring, tasks[j]))
                          && !TaskBuilds(svc, agentNames, lists, monitoring, tasks[k])
                          && r.error == TaskError(svc, agentNames, lists, monitoring, tasks[k])
    decreases |tasks|
  {
    var r := DetailsNodes(svc, agentNames, lists, monitoring, tasks);
    if tasks != [] && r.Failure? {
      var t := tasks[0];
      if !TaskBuilds(svc, agentNames, lists, monitoring, t) {
        assert r.error == TaskError(svc, agentNames, lists, monitoring, tasks[0]);
      } else {
        var tail := tasks[1..];
        assert Distinct(tail);
        var leaves := TaskPlotList(lists, monitoring, t).value;
        var built := BuildTreeAccordingToRules(svc.detailsRules, DetailsRootId(svc, t), Some(agentNames), leaves).value;
        var lists' := lists[t := built.leaves];
        DistinctTasksFirstFailure(svc, agentNames, lists', monitoring, tail);
        assert r == Failure(DetailsNodes(svc, agentNames, lists', monitoring, tail).error);
        var k :| 0 <= k < |tail|
                 && (forall j :: 0 <= j < k ==> TaskBuilds(svc, agentNames, lists', monitoring, tail[j]))
                 && !TaskBuilds(svc, agentNames, lists', monitoring, tail[k])
                 && r.error == TaskError(svc, agentNames, lists', monitoring, tail[k]);
        forall j | 0 <= j < k ensures TaskBuilds(svc, agentNames, lists, monitoring, tail[j]) {
          assert tail[j] == tasks[j + 1] && tasks[j + 1] != t;
          OtherTaskBuildUnchanged(svc, agentNames, lists, monitoring, t, built.leaves, tail[j]);
        }
        assert tail[k] == tasks[k + 1] && tasks[k + 1] != t;
        OtherTaskBuildUnchanged(svc, agentNames, lists, monitoring, t, built.leaves, tail[k]);
        forall j | 0 <= j < k + 1 ensures TaskBuilds(svc, agentNames, lists, monitoring, tasks[j]) {
          if j > 0 {
            assert tasks[j] == tail[j - 1];
          }
        }
        assert !TaskBuilds(svc, agentNames, lists, monitoring, tasks[k + 1]);
        assert r.error == TaskError(svc, agentNames, lists, monitoring, tasks[k + 1]);
      }
    }
  }

  /** When no task repeats and the loop succeeds, node i is the group the
      pipeline builds from task i's fetched list (extended by its monitoring
      plots when the monitoring map is non-empty). */
  lemma {:induction false} DetailsNodesOfDistinctTasks(svc: Service, agentNames: AgentMap,
                                                      lists: map<TaskData, seq<PlotNode>>,
                                                      monitoring: map<TaskData, seq<PlotNode>>,
                                                      tasks: seq<TaskData>)
    requires Distinct(tasks)
    requires DetailsNodes(svc, agentNames, lists, monitoring, tasks).Success?
    ensures var nodes := DetailsNodes(svc, agentNames, lists, monitoring, tasks).value;
            forall i :: 0 <= i < |tasks| ==>
              && TaskBuilds(svc, agentNames, lists, monitoring, tasks[i])
              && BuildTreeAccordingToRules(svc.detailsRules, DetailsRootId(svc, tasks[i]), Some(agentNames),
                                           TaskPlotList(lists, monitoring, tasks[i]).value).value.group == nodes[i].base
    decreases |tasks|
  {
    if tasks != [] {
      SuccessfulStep(svc, agentNames, lists, monitoring, tasks);
      var t := tasks[0];
      var leaves := TaskPlotList(lists, monitoring, t).value;
      var built := BuildTreeAccordingToRules(svc.detailsRules, DetailsRootId(svc, t), Some(agentNames), leaves).value;
      var lists' := lists[t := built.leaves];
      var tail := tasks[1..];
      assert Distinct(tail);
      DetailsNodesOfDistinctTasks(svc, agentNames, lists', monitoring, tail);
      var nodes := DetailsNodes(svc, agentNames, lists, monitoring, tasks).value;
      var rest := DetailsNodes(svc, agentNames, lists', monitoring, tail).value;
      forall i | 1 <= i < |tasks|
        ensures TaskBuilds(svc, agentNames, lists, monitoring, tasks[i])
        ensures BuildTreeAccordingToRules(svc.detailsRules, DetailsRootId(svc, tasks[i]), Some(agentNames),
                                          TaskPlotList(lists, monitoring, tasks[i]).value).value.group == nodes[i].base
      {
        assert tasks[i] == tail[i - 1] && nodes[i] == rest[i - 1];
        OtherTaskGroupUnchanged(svc, agentNames, lists, monitoring, t, built.leaves, tasks[i]);
      }
    }
  }

  /** With rules that never fail, the loop succeeds exactly when every listed
      task has the lists it needs, repeated tasks included: the in-place
      extension changes a list but never removes a task from the map. */
  lemma {:induction false} DetailsNodesWithReliableRules(svc: Service, agentNames: AgentMap,
                                                        lists: map<TaskData, seq<PlotNode>>,
                                                        monitoring: map<TaskData, seq<PlotNode>>,
                                                        tasks: seq<TaskData>)
    requires NeverFail(svc.detailsRules)
    ensures DetailsNodes(svc, agentNames, lists, monitoring, tasks).Success? <==>
              forall i :: 0 <= i < |tasks| ==> TaskPlotList(lists, monitoring, tasks[i]).Success?
    decreases |tasks|
  {
    if tasks != [] {
      var t := tasks[0];
      var tail := tasks[1..];
      if TaskPlotList(lists, monitoring, t).Success? {
        var leaves := TaskPlotList(lists, monitoring, t).value;
        var built := BuildTreeAccordingToRules(svc.detailsRules, DetailsRootId(svc, t), Some(agentNames), leaves).value;
        var lists' := lists[t := built.leaves];
        DetailsNodesWithReliableRules(svc, agentNames, lists', monitoring, tail);
        forall i | 1 <= i < |tasks|
          ensures TaskPlotList(lists', monitoring, tasks[i]).Success? == TaskPlotList(lists, monitoring, tasks[i]).Success?
        {
          assert tasks[i] == tail[i - 1];
        }
        if !DetailsNodes(svc, agentNames, lists', monitoring, tail).Success? {
          var k :| 0 <= k < |tail| && !TaskPlotList(lists', monitoring, tail[k]).Success?;
          assert tail[k] == tasks[k + 1];
        }
      }
    }
  }

  /** Extending a listed task's list neither adds nor removes a missing-list
      failure, for any task. */
  lemma ExtendingKeepsMissingLists(lists: map<TaskData, seq<PlotNode>>, monitoring: map<TaskData, seq<PlotNode>>,
                                   t: TaskData, extended: seq<PlotNode>, u: TaskData)
    requires t in lists
    ensures TaskPlotList(lists[t := extended], monitoring, u).Success? == TaskPlotList(lists, monitoring, u).Success?
    ensures TaskPlotList(lists, monitoring, u).Failure? ==>
              TaskPlotList(lists[t := extended], monitoring, u) == TaskPlotList(lists, monitoring, u)
  {
  }

  /** With rules that never fail, a failing loop fails with the missing-list
      error of the first task that lacks a list, repeated tasks included. */
  lemma {:induction false} ReliableRulesFirstFailure(svc: Service, agentNames: AgentMap,
                                                    lists: map<TaskData, seq<PlotNode>>,
                                                    monitoring: map<TaskData, seq<PlotNode>>,
                                                    tasks: seq<TaskData>)
    requires NeverFail(svc.detailsRules)
    ensures var r := DetailsNodes(svc, agentNames, lists, monitoring, tasks);
            r.Failure? ==>
              exists k :: 0 <= k < |tasks|
                          && (forall j :: 0 <= j < k ==> TaskPlotList(lists, monitoring, tasks[j]).Success?)
                          && TaskPlotList(lists, monitoring, tasks[k]) == Failure(r.error)
    decreases |tasks|
  {
    var r := DetailsNodes(svc, agentNames, lists, monitoring, tasks);
    if tasks != [] && r.Failure? {
      var t := tasks[0];
      if TaskPlotList(lists, monitoring, t).Failure? {
        assert TaskPlotList(lists, monitoring, tasks[0]) == Failure(r.error);
      } else {
        var tail := tasks[1..];
        var leaves := TaskPlotList(lists, monitoring, t).value;
        var built := BuildTreeAccordingToRules(svc.detailsRules, DetailsRootId(svc, t), Some(agentNames), leaves).value;
        var lists' := lists[t := built.leaves];
        ReliableRulesFirstFailure(svc, agentNames, lists', monitoring, tail);
        assert r == Failure(DetailsNodes(svc, agentNames, lists', monitoring, tail).error);
        var k :| 0 <= k < |tail|
                 && (forall j :: 0 <= j < k ==> TaskPlotList(lists', monitoring, tail[j]).Success?)
                 && TaskPlotList(lists', monitoring, tail[k]) == Failure(r.error);
        forall j | 0 <= j <= k
          ensures TaskPlotList(lists', monitoring, tail[j]).Success? == TaskPlotList(lists, monitoring, tail[j]).Success?
          ensures TaskPlotList(lists, monitoring, tail[j]).Failure? ==>
                    TaskPlotList(lists', monitoring, tail[j]) == TaskPlotList(lists, monitoring, tail[j])
        {
          ExtendingKeepsMissingLists(lists, monitoring, t, built.leaves, tail[j]);
        }
        assert tail[k] == tasks[k + 1];
        forall j | 0 <= j < k + 1 ensures TaskPlotList(lists, monitoring, tasks[j]).Success? {
          if j > 0 {
            assert tasks[j] == tail[j - 1];
          }
        }
      }
    }
  }

  /** As written, for the task list [t, t] the second build starts from the
      list the first build left behind: the first pipeline's extended list is
      a prefix of the second pipeline's input, and a non-empty monitoring map
      contributes that task's monitoring plots once more, as the suffix. */
  lemma RepeatedTaskReusesExtendedList(svc: Service, agentNames: AgentMap,
                                       lists: map<TaskData, seq<PlotNode>>,
                                       monitoring: map<TaskData, seq<PlotNode>>, t: TaskData)
    requires DetailsNodes(svc, agentNames, lists, monitoring, [t, t]).Success?
    ensures var id := DetailsRootId(svc, t);
            var first := BuildTreeAccordingToRules(svc.detailsRules, id, Some(agentNames),
                                                   TaskPlotList(lists, monitoring, t).value).value;
            var again := TaskPlotList(lists[t := first.leaves], monitoring, t).value;
            && |first.leaves| <= |again|
            && again[..|first.leaves|] == first.leaves
            && (|monitoring| == 0 ==> again == first.leaves)
            && (|monitoring| > 0 ==> again[|first.leaves|..] == monitoring[t])
            && BuildTreeAccordingToRules(svc.detailsRules, id, Some(agentNames), again).Success?
            && BuildTreeAccordingToRules(svc.detailsRules, id, Some(agentNames), again).value.group ==
               DetailsNodes(svc, agentNames, lists, monitoring, [t, t]).value[1].base
  {
    assert [t, t][1..] == [t];
  }

  /** The per-task list of the details branch for a non-empty task list:
      fetch both plot maps (the metric plots are awaited first), correlate
      agents over all fetched plots, build every task, then rank. */
  function DetailsTaskNodeList(svc: Service, sessionIds: set<string>, taskList: seq<TaskData>): (r: Result<seq<TestDetailsNode>, Error>)
    // A failed fetch fails the branch, the metric plots' failure first.
    ensures svc.fetcher.testPlotsMap(sessionIds, taskList).Failure? ==>
              r == Failure(svc.fetcher.testPlotsMap(sessionIds, taskList).error)
    ensures svc.fetcher.testPlotsMap(sessionIds, taskList).Success? &&
            svc.fetcher.monitoringPlotNodes(sessionIds, taskList).Failure? ==>
              r == Failure(svc.fetcher.monitoringPlotNodes(sessionIds, taskList).error)
    // Otherwise the ranking step orders exactly the per-task nodes, built with
    // the agent names correlated over every fetched plot.
    ensures r.Success? ==>
              && svc.fetcher.testPlotsMap(sessionIds, taskList).Success?
              && svc.fetcher.monitoringPlotNodes(sessionIds, taskList).Success?
              && var plots := svc.fetcher.testPlotsMap(sessionIds, taskList).value;
                 var monitoring := svc.fetcher.monitoringPlotNodes(sessionIds, taskList).value;
                 var agentNames := AgentNameMap(svc.monitoringParams, svc.split,
                                                MetricNames(AllPlots(monitoring) + AllPlots(plots)));
                 var nodes := DetailsNodes(svc, agentNames, plots, monitoring, taskList);
                 nodes.Success? && r.value == svc.sortTestDetails(nodes.value)
    // Conversely, once both fetches succeed the branch succeeds exactly when the
    // per-task loop does, and fails with the loop's error otherwise.
    ensures svc.fetcher.testPlotsMap(sessionIds, taskList).Success? &&
            svc.fetcher.monitoringPlotNodes(sessionIds, taskList).Success? ==>
              var plots := svc.fetcher.testPlotsMap(sessionIds, taskList).value;
              var monitoring := svc.fetcher.monitoringPlotNodes(sessionIds, taskList).value;
              var agentNames := AgentNameMap(svc.monitoringParams, svc.split,
                                             MetricNames(AllPlots(monitoring) + AllPlots(plots)));
              var nodes := DetailsNodes(svc, agentNames, plots, monitoring, taskList);
              && (nodes.Success? ==> r.Success?)
              && (nodes.Failure? ==> r == Failure(nodes.error))
  {
    var plots :- svc.fetcher.testPlotsMap(sessionIds, taskList);
    var monitoring :- svc.fetcher.monitoringPlotNodes(sessionIds, taskList);
    var agentNames := AgentNameMap(svc.monitoringParams, svc.split, MetricNames(CorrelatedPlots(plots, monitoring)));
    var nodes :- DetailsNodes(svc, agentNames, plots, monitoring, taskList);
    Success(svc.sortTestDetails(nodes))
  }

  /** The details branch: an empty task list leaves the tests unset and
      fetches nothing. */
  function DetailsBranch(svc: Service, sessionIds: set<string>, taskList: seq<TaskData>): (r: Result<DetailsNode, Error>)
    ensures taskList == [] ==> r == Success(DetailsNode(svc.tokens.controlMetrics, svc.tokens.controlMetrics, None))
    ensures r.Success? ==> r.value.id == svc.tokens.controlMetrics && r.value.displayName == svc.tokens.controlMetrics
    ensures r.Success? ==> (r.value.tests.Some? <==> taskList != [])
    // Otherwise the tests are exactly the per-task list, and its failure is the branch's.
    ensures taskList != [] ==>
              && (r.Success? <==> DetailsTaskNodeList(svc, sessionIds, taskList).Success?)
              && (r.Success? ==> r.value.tests == Some(DetailsTaskNodeList(svc, sessionIds, taskList).value))
              && (r.Failure? ==> r.error == DetailsTaskNodeList(svc, sessionIds, taskList).error)
  {
    var tests :- if taskList == [] then Success(None)
                 else var nodes :- DetailsTaskNodeList(svc, sessionIds, taskList); Success(Some(nodes));
    Success(DetailsNode(svc.tokens.controlMetrics, svc.tokens.controlMetrics, tests))
  }

  /** The tasks of a list of details nodes, in list order. */
  function TasksOf(nodes: seq<TestDetailsNode>): seq<TaskData>
  {
    Map((n: TestDetailsNode) => n.task, nodes)
  }

  /** Reordering a list of details nodes reorders their tasks: each task
      occurs as often as before. */
  lemma ReorderKeepsTasks(nodes: seq<TestDetailsNode>, ranked: seq<TestDetailsNode>)
    requires multiset(ranked) == multiset(nodes)
    ensures multiset(TasksOf(ranked)) == multiset(TasksOf(nodes))
  {
    MapKeepsMultiset((n: TestDetailsNode) => n.task, ranked, nodes);
  }

  /** With a ranking step that only reorders, the ranked details list has as
      many nodes as task-list entries and covers exactly the listed tasks:
      its tasks are a reordering of the task list, each task as often as it
      is listed. */
  lemma DetailsCoverTasks(svc: Service, sessionIds: set<string>, taskList: seq<TaskData>)
    requires RankingPermutes(svc)
    requires DetailsTaskNodeList(svc, sessionIds, taskList).Success?
    ensures var ranked := DetailsTaskNodeList(svc, sessionIds, taskList).value;
            && |ranked| == |taskList|
            && (forall n :: n in ranked ==> n.task in taskList)
            && (forall t :: t in taskList ==> exists n :: n in ranked && n.task == t)
            && multiset(TasksOf(ranked)) == multiset(taskList)
  {
    var ranked := DetailsTaskNodeList(svc, sessionIds, taskList).value;
    var plots := svc.fetcher.testPlotsMap(sessionIds, taskList).value;
    var monitoring := svc.fetcher.monitoringPlotNodes(sessionIds, taskList).value;
    var agentNames := AgentNameMap(svc.monitoringParams, svc.split,
                                   MetricNames(AllPlots(monitoring) + AllPlots(plots)));
    var built := DetailsNodes(svc, agentNames, plots, monitoring, taskList).value;
    assert ranked == svc.sortTestDetails(built);
    assert multiset(ranked) == multiset(built);
    assert |ranked| == |multiset(built)| == |built|;
    forall n | n in ranked ensures n.task in taskList {
      assert n in multiset(built);
      var i :| 0 <= i < |built| && built[i] == n;
    }
    forall t | t in taskList ensures exists n :: n in ranked && n.task == t {
      var i :| 0 <= i < |taskList| && taskList[i] == t;
      assert built[i] in multiset(ranked);
    }
    assert TasksOf(built) == taskList;
    ReorderKeepsTasks(built, ranked);
  }
}
