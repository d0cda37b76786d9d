/** The two-stage grouping pipeline: a merge ("unite metrics") rule may
    produce composite leaves, which are appended to the original leaves; the
    whole list is then handed to a shape ("tree view group") rule that builds
    the task's group node. Both rules are collaborators whose own logic is
    not modelled; either may fail, and a failure propagates unchanged. The
    pipeline is the same for summary leaves and for plot leaves. */
module RulePipeline {
  import opened Wrappers
  import opened TreeModel

  /** The two rules, as the providers hand them out for leaves of type `M`.
      `unite(agentNames, rootId, leaves)` is the merge rule provided for the
      agent-name map (absent in the summary branch) and filtered by id with
      key `rootId`; `None` stands for a null answer. `shape(rootId, leaves)`
      is the shape rule provided for `(rootId, rootId)` and filtered by id
      with a null key. */
  datatype Rules<!M> = Rules(
    unite: (Option<AgentMap>, string, seq<M>) -> Result<Option<seq<M>>, Error>,
    shape: (string, seq<M>) -> Result<MetricGroupNode<M>, Error>)

  /** What the pipeline produced for one task: the group node, and the leaf
      list as it stands afterwards (the caller's list, extended in place). */
  datatype Built<M> = Built(group: MetricGroupNode<M>, leaves: seq<M>)

  /** The leaf list handed to the shape rule: the originals followed by the
      merged leaves, or the originals alone when the merge rule answered null. */
  function ExtendLeaves<M>(leaves: seq<M>, united: Option<seq<M>>): (r: seq<M>)
    ensures |leaves| <= |r|
    ensures r[..|leaves|] == leaves
    ensures united.None? ==> r == leaves
    ensures united.Some? ==> r[|leaves|..] == united.value
  {
    match united
    case None => leaves
    case Some(u) => leaves + u
  }

  /** Apply the merge rule, extend the list, then apply the shape rule to
      the extended list. */
  function BuildTreeAccordingToRules<M>(rules: Rules<M>, rootId: string,
                                        agentNames: Option<AgentMap>, leaves: seq<M>): (r: Result<Built<M>, Error>)
    // A failing merge rule ends the pipeline with its error; the shape rule is not consulted.
    ensures rules.unite(agentNames, rootId, leaves).Failure? ==>
              r == Failure(rules.unite(agentNames, rootId, leaves).error)
    // The originals are always kept, as a prefix, and nothing is added without a merge result.
    ensures r.Success? ==>
              && rules.unite(agentNames, rootId, leaves).Success?
              && |leaves| <= |r.value.leaves|
              && r.value.leaves[..|leaves|] == leaves
              && (rules.unite(agentNames, rootId, leaves).value.None? ==> r.value.leaves == leaves)
              && (rules.unite(agentNames, rootId, leaves).value.Some? ==>
                    r.value.leaves[|leaves|..] == rules.unite(agentNames, rootId, leaves).value.value)
    // The group node is exactly what the shape rule builds from the extended list.
    ensures r.Success? ==> rules.shape(rootId, r.value.leaves) == Success(r.value.group)
    // A failing shape rule ends the pipeline with its own error.
    ensures rules.unite(agentNames, rootId, leaves).Success? &&
            rules.shape(rootId, ExtendLeaves(leaves, rules.unite(agentNames, rootId, leaves).value)).Failure? ==>
              r == Failure(rules.shape(rootId, ExtendLeaves(leaves, rules.unite(agentNames, rootId, leaves).value)).error)
    // It fails only when one of the two rules fails.
    ensures r.Failure? ==>
              || rules.unite(agentNames, rootId, leaves).Failure?
              || rules.shape(rootId, ExtendLeaves(leaves, rules.unite(agentNames, rootId, leaves).value)).Failure?
  {
    var united :- rules.unite(agentNames, rootId, leaves);
    var extended := ExtendLeaves(leaves, united);
    var group :- rules.shape(rootId, extended);
    Success(Built(group, extended))
  }

  /** Rules that answer every request without failing. */
  ghost predicate NeverFail<M(!new)>(rules: Rules<M>)
  {
    && (forall a, id, l :: rules.unite(a, id, l).Success?)
    && (forall id, l :: rules.shape(id, l).Success?)
  }
}
