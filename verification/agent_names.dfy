/** The agent-name correlator: from the metric names of a set of plots, which
    agents produced which configured monitoring parameters.

    `params` is the configured table (group key to the parameter names the
    group recognises) and `split` is the collaborator that cuts a monitoring
    metric id into its parts; its delimiter is not assumed. A metric name
    "is a monitoring metric" when it splits into more than one part, the
    first part being the parameter and the second the agent. */
module AgentNames {
  import opened TreeModel

  /** The metric name, split into `(parameter, agent, ...)`, names a parameter
      that group `key` recognises. */
  predicate Matches(params: map<string, set<string>>, split: string -> seq<string>, name: string, key: string)
  {
    && key in params
    && |split(name)| > 1
    && split(name)[0] in params[key]
  }

  /** Every metric name carried by some plot of `plots`. */
  function MetricNames(plots: set<PlotNode>): set<string>
  {
    set p, d | p in plots && d in p.metricNames :: d.metricName
  }

  /** The metric names of a list of descriptors. */
  function NamesOf(dtos: seq<MetricNameDto>): set<string>
  {
    set d | d in dtos :: d.metricName
  }

  /** The pairs `(name, key)` the correlator inspects for `names` and `keys`. */
  function Visits(names: set<string>, keys: set<string>): set<(string, string)>
  {
    set n, k | n in names && k in keys :: (n, k)
  }

  /** Agents recorded under `key` once the pairs `visited` have been inspected. */
  function AgentsUnder(params: map<string, set<string>>, split: string -> seq<string>,
                       visited: set<(string, string)>, key: string): set<string>
  {
    set v | v in visited && v.1 == key && Matches(params, split, v.0, key) :: split(v.0)[1]
  }

  /** The map built once the pairs `visited` have been inspected: a key is
      present only after a match put an agent under it. */
  function Collected(params: map<string, set<string>>, split: string -> seq<string>,
                     visited: set<(string, string)>): map<string, set<string>>
  {
    map key | key in params && AgentsUnder(params, split, visited, key) != {} ::
      AgentsUnder(params, split, visited, key)
  }

  /** The agent-name map for a set of metric names: every name inspected
      against every configured key. */
  function AgentNameMap(params: map<string, set<string>>, split: string -> seq<string>,
                        names: set<string>): (r: AgentMap)
    // Soundness of keys: only configured keys, and only after a match.
    ensures forall key :: key in r ==> key in params && r[key] != {}
    ensures forall key :: key in r <==> exists n :: n in names && Matches(params, split, n, key)
    // Soundness and completeness of agents.
    ensures forall key, n :: n in names && Matches(params, split, n, key) ==>
              key in r && split(n)[1] in r[key]
    ensures forall key, a :: key in r && a in r[key] ==>
              exists n :: n in names && Matches(params, split, n, key) && split(n)[1] == a
  {
    var r := Collected(params, split, Visits(names, params.Keys));
    assert forall key, n :: n in names && Matches(params, split, n, key) ==>
        split(n)[1] in AgentsUnder(params, split, Visits(names, params.Keys), key) by {
      forall key, n | n in names && Matches(params, split, n, key)
        ensures split(n)[1] in AgentsUnder(params, split, Visits(names, params.Keys), key)
      {
        assert (n, key) in Visits(names, params.Keys);
      }
    }
    r
  }

  /** The agents under `key` after one more `(name, key')` pair: the new
      agent joins only the matching key. */
  lemma AgentsUnderStep(params: map<string, set<string>>, split: string -> seq<string>,
                        visited: set<(string, string)>, name: string, key: string, j: string)
    ensures AgentsUnder(params, split, visited + {(name, key)}, j) ==
            AgentsUnder(params, split, visited, j) +
            (if j == key && Matches(params, split, name, key) then {split(name)[1]} else {})
  {
    var lhs := AgentsUnder(params, split, visited + {(name, key)}, j);
    var rhs := AgentsUnder(params, split, visited, j) +
               (if j == key && Matches(params, split, name, key) then {split(name)[1]} else {});
    forall x | x in lhs ensures x in rhs {
      var v :| v in visited + {(name, key)} && v.1 == j && Matches(params, split, v.0, j) && split(v.0)[1] == x;
      if v !in visited {
        assert v == (name, key);
      }
    }
    forall x | x in rhs ensures x in lhs {
      if x !in AgentsUnder(params, split, visited, j) {
        assert (name, key) in visited + {(name, key)};
      }
    }
  }

  /** Inspecting one more `(name, key)` pair: on a match the agent is added
      under `key`, creating the entry when it is absent; otherwise nothing
      changes. This is one step of the innermost loop of the source. */
  lemma CollectedStep(params: map<string, set<string>>, split: string -> seq<string>,
                      visited: set<(string, string)>, name: string, key: string)
    requires key in params
    ensures var c := Collected(params, split, visited);
            Collected(params, split, visited + {(name, key)}) ==
              if Matches(params, split, name, key)
              then c[key := (if key in c then c[key] else {}) + {split(name)[1]}]
              else c
  {
    var c := Collected(params, split, visited);
    var c' := Collected(params, split, visited + {(name, key)});
    var e := if Matches(params, split, name, key)
             then c[key := (if key in c then c[key] else {}) + {split(name)[1]}]
             else c;
    forall j | j in params
      ensures (j in c') == (j in e)
      ensures j in c' ==> c'[j] == e[j]
    {
      AgentsUnderStep(params, split, visited, name, key, j);
    }
    assert c'.Keys == e.Keys;
  }

  /** Inspecting a name that does not split into two parts changes nothing,
      whatever keys it is inspected against. */
  lemma CollectedSkipsPlainName(params: map<string, set<string>>, split: string -> seq<string>,
                                visited: set<(string, string)>, name: string, keys: set<string>)
    requires |split(name)| <= 1
    ensures Collected(params, split, visited + Visits({name}, keys)) == Collected(params, split, visited)
  {
    forall j | j in params
      ensures AgentsUnder(params, split, visited + Visits({name}, keys), j) ==
              AgentsUnder(params, split, visited, j)
    {
    }
  }

  lemma VisitsAddName(names: set<string>, name: string, keys: set<string>)
    ensures Visits(names + {name}, keys) == Visits(names, keys) + Visits({name}, keys)
  {
  }

  lemma VisitsAddKey(name: string, keys: set<string>, key: string)
    ensures Visits({name}, keys + {key}) == Visits({name}, keys) + {(name, key)}
  {
  }

  lemma NamesOfSnoc(dtos: seq<MetricNameDto>, i: nat)
    requires i < |dtos|
    ensures NamesOf(dtos[..i + 1]) == NamesOf(dtos[..i]) + {dtos[i].metricName}
  {
    assert dtos[..i + 1] == dtos[..i] + [dtos[i]];
  }

  lemma MetricNamesAddPlot(plots: set<PlotNode>, plot: PlotNode)
    ensures MetricNames(plots + {plot}) == MetricNames(plots) + NamesOf(plot.metricNames)
  {
  }

  /** The innermost loop of the source for one metric name: against every
      configured key, in an unspecified order, record the agent under each
      key whose parameters contain the name's parameter. */
  method RecordName(params: map<string, set<string>>, split: string -> seq<string>,
                    acc: AgentMap, ghost before: set<(string, string)>, name: string)
    returns (agentNames: AgentMap)
    requires |split(name)| > 1
    requires acc == Collected(params, split, before)
    ensures agentNames == Collected(params, split, before + Visits({name}, params.Keys))
  {
    agentNames := acc;
    var parts := split(name);
    var keys := params.Keys;
    ghost var done: set<string> := {};
    assert Visits({name}, done) == {};
    assert before + Visits({name}, done) == before;
    while keys != {}
      invariant keys <= params.Keys
      invariant done == params.Keys - keys
      invariant agentNames == Collected(params, split, before + Visits({name}, done))
      decreases keys
    {
      var key :| key in keys;
      CollectedStep(params, split, before + Visits({name}, done), name, key);
      if parts[0] in params[key] {
        var current := if key in agentNames then agentNames[key] else {};
        agentNames := agentNames[key := current + {parts[1]}];
      }
      VisitsAddKey(name, done, key);
      assert before + Visits({name}, done + {key}) == before + Visits({name}, done) + {(name, key)};
      keys := keys - {key};
      done := done + {key};
    }
    assert done == params.Keys;
  }

  /** The middle loop of the source: every metric name of one plot, in list
      order; names that do not split are skipped. */
  method RecordPlot(params: map<string, set<string>>, split: string -> seq<string>,
                    acc: AgentMap, ghost seen: set<string>, plot: PlotNode)
    returns (agentNames: AgentMap)
    requires acc == Collected(params, split, Visits(seen, params.Keys))
    ensures agentNames == Collected(params, split, Visits(seen + NamesOf(plot.metricNames), params.Keys))
  {
    agentNames := acc;
    var i := 0;
    assert plot.metricNames[..0] == [];
    assert seen + NamesOf(plot.metricNames[..0]) == seen;
    while i < |plot.metricNames|
      invariant 0 <= i <= |plot.metricNames|
      invariant agentNames == Collected(params, split, Visits(seen + NamesOf(plot.metricNames[..i]), params.Keys))
    {
      var name := plot.metricNames[i].metricName;
      ghost var prefix := seen + NamesOf(plot.metricNames[..i]);
      ghost var before := Visits(prefix, params.Keys);
      if |split(name)| > 1 {
        agentNames := RecordName(params, split, agentNames, before, name);
      } else {
        CollectedSkipsPlainName(params, split, before, name, params.Keys);
      }
      assert agentNames == Collected(params, split, before + Visits({name}, params.Keys));
      VisitsAddName(prefix, name, params.Keys);
      NamesOfSnoc(plot.metricNames, i);
      assert seen + NamesOf(plot.metricNames[..i + 1]) == prefix + {name};
      i := i + 1;
    }
    assert plot.metricNames[..i] == plot.metricNames;
  }

  /** The correlator as the source writes it: for every plot, for every
      metric name of the plot, when the name splits into more than one part,
      for every configured key whose parameters contain the first part, add
      the second part under that key. Sets are walked in an unspecified
      order; the result is the same whatever the order. */
  method CorrelateAgents(params: map<string, set<string>>, split: string -> seq<string>,
                         plots: set<PlotNode>) returns (agentNames: AgentMap)
    ensures agentNames == AgentNameMap(params, split, MetricNames(plots))
  {
    agentNames := map[];
    assert agentNames == Collected(params, split, Visits(MetricNames({}), params.Keys));
    var remaining := plots;
    while remaining != {}
      invariant remaining <= plots
      invariant agentNames == Collected(params, split, Visits(MetricNames(plots - remaining), params.Keys))
      decreases remaining
    {
      var plot :| plot in remaining;
      agentNames := RecordPlot(params, split, agentNames, MetricNames(plots - remaining), plot);
      MetricNamesAddPlot(plots - remaining, plot);
      assert plots - (remaining - {plot}) == (plots - remaining) + {plot};
      remaining := remaining - {plot};
    }
    assert plots - remaining == plots;
  }

  /** A metric name that splits into at most one part contributes nothing. */
  lemma PlainNameContributesNothing(params: map<string, set<string>>, split: string -> seq<string>,
                                    names: set<string>, name: string)
    requires |split(name)| <= 1
    ensures AgentNameMap(params, split, names + {name}) == AgentNameMap(params, split, names)
  {
    VisitsAddName(names, name, params.Keys);
    CollectedSkipsPlainName(params, split, Visits(names, params.Keys), name, params.Keys);
  }

  /** For one key, the agents recorded for a union of inputs are those
      recorded for either part. */
  lemma AgentsOfUnionAt(params: map<string, set<string>>, split: string -> seq<string>,
                        a: set<string>, b: set<string>, key: string, x: string)
    ensures var rab := AgentNameMap(params, split, a + b);
            var ra := AgentNameMap(params, split, a);
            var rb := AgentNameMap(params, split, b);
            (key in rab && x in rab[key]) <==>
            ((key in ra && x in ra[key]) || (key in rb && x in rb[key]))
  {
    var rab := AgentNameMap(params, split, a + b);
    if key in rab && x in rab[key] {
      var n :| n in a + b && Matches(params, split, n, key) && split(n)[1] == x;
      if n in a {
        assert key in AgentNameMap(params, split, a);
      } else {
        assert key in AgentNameMap(params, split, b);
      }
    }
  }

  /** Set extensionality, stated apart so that it is proved outside the
      context of the agent-name map's quantifiers. */
  lemma SameElements<T>(s: set<T>, t: set<T>)
    requires forall x :: x in s <==> x in t
    ensures s == t
  {
  }

  /** For one key present in the map of a union, its agents are the union
      of its agents in the maps of the parts. */
  lemma AgentsOfUnionKey(params: map<string, set<string>>, split: string -> seq<string>,
                         a: set<string>, b: set<string>, key: string)
    requires key in AgentNameMap(params, split, a + b)
    ensures var ra := AgentNameMap(params, split, a);
            var rb := AgentNameMap(params, split, b);
            AgentNameMap(params, split, a + b)[key] ==
              (if key in ra then ra[key] else {}) + (if key in rb then rb[key] else {})
  {
    var ra := AgentNameMap(params, split, a);
    var rb := AgentNameMap(params, split, b);
    var lhs := AgentNameMap(params, split, a + b)[key];
    var rhs := (if key in ra then ra[key] else {}) + (if key in rb then rb[key] else {});
    forall x | x in lhs ensures x in rhs {
      AgentsOfUnionAt(params, split, a, b, key, x);
    }
    forall x | x in rhs ensures x in lhs {
      AgentsOfUnionAt(params, split, a, b, key, x);
    }
    SameElements(lhs, rhs);
  }

  /** The map for a union of inputs is the pointwise union of the maps for
      each part, so the order in which plots are discovered does not matter. */
  lemma AgentNameMapOfUnion(params: map<string, set<string>>, split: string -> seq<string>,
                            a: set<string>, b: set<string>)
    ensures var rab := AgentNameMap(params, split, a + b);
            var ra := AgentNameMap(params, split, a);
            var rb := AgentNameMap(params, split, b);
            && rab.Keys == ra.Keys + rb.Keys
            && forall key :: key in rab ==>
                 rab[key] == (if key in ra then ra[key] else {}) + (if key in rb then rb[key] else {})
  {
    var ra := AgentNameMap(params, split, a);
    var rb := AgentNameMap(params, split, b);
    var rab := AgentNameMap(params, split, a + b);
    forall key | key in rab ensures key in ra || key in rb {
      var x :| x in rab[key];
      AgentsOfUnionAt(params, split, a, b, key, x);
    }
    forall key | key in ra || key in rb ensures key in rab {
      if key in ra {
        var x :| x in ra[key];
        AgentsOfUnionAt(params, split, a, b, key, x);
      } else {
        var x :| x in rb[key];
        AgentsOfUnionAt(params, split, a, b, key, x);
      }
    }
    SameElements(rab.Keys, ra.Keys + rb.Keys);
    forall key | key in rab
      ensures rab[key] == (if key in ra then ra[key] else {}) + (if key in rb then rb[key] else {})
    {
      AgentsOfUnionKey(params, split, a, b, key);
    }
  }

  /** A monitoring metric "cpu" reported by agent "hostA", with "cpu"
      configured under group "os", and an ordinary metric "latency" that does
      not split: the map records exactly {"os": {"hostA"}}. */
  lemma OneMonitoredAgent(split: string -> seq<string>)
    requires split("cpu@hostA") == ["cpu", "hostA"]
    requires |split("latency")| <= 1
    ensures AgentNameMap(map["os" := {"cpu"}], split, {"latency", "cpu@hostA"}) == map["os" := {"hostA"}]
  {
    var params := map["os" := {"cpu"}];
    var r := AgentNameMap(params, split, {"latency", "cpu@hostA"});
    assert Matches(params, split, "cpu@hostA", "os");
    assert "os" in r && "hostA" in r["os"];
    forall a | a in r["os"] ensures a == "hostA" {
      var n :| n in {"latency", "cpu@hostA"} && Matches(params, split, n, "os") && split(n)[1] == a;
    }
    SameElements(r["os"], {"hostA"});
    SameElements(r.Keys, {"os"});
  }
}
