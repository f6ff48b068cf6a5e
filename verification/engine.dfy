/**
 * The part of the graph runtime the workflow relies on: a builder that
 * records nodes and edges, compilation, and the step loop that runs a node,
 * merges its returned keys into the record, follows the node's edge and stops
 * at the end marker, on an error, or when the recursion limit is reached.
 */
module Engine {
  import opened Wrappers
  import opened State
  import opened Common

  /** Where an edge leads: a node or the end marker. */
  datatype Target<N> = To(node: N) | End

  /** An edge: to a fixed target, or to whatever a condition function picks. */
  datatype Edge<N, K> = Direct(target: Target<N>) | Conditional(cond: K)

  /** A compiled graph: its entry node, its nodes and its edge rules in registration order. */
  datatype Graph<N, K> = Graph(entry: N, nodes: seq<N>, rules: seq<(N, Edge<N, K>)>)

  /** Why compilation refuses a graph. */
  datatype BuildError = NoEntryPoint | DuplicateNode | UnknownNode

  /** The edge that leaves `n`: the first rule registered for it, if any. */
  function RuleFor<N(==), K>(rules: seq<(N, Edge<N, K>)>, n: N): (r: Option<Edge<N, K>>)
    ensures r.None? <==> forall i :: 0 <= i < |rules| ==> rules[i].0 != n
    ensures r.Some? ==> exists i :: 0 <= i < |rules| && rules[i] == (n, r.value)
                                    && forall j :: 0 <= j < i ==> rules[j].0 != n
  {
    if rules == [] then None
    else if rules[0].0 == n then Some(rules[0].1)
    else
      var rest := RuleFor(rules[1..], n);
      if rest.Some? then
        ghost var i :| 0 <= i < |rules[1..]| && rules[1..][i] == (n, rest.value)
                       && forall j :: 0 <= j < i ==> rules[1..][j].0 != n;
        assert rules[i + 1] == (n, rest.value);
        rest
      else rest
  }

  /** The rule at index `i` is the one chosen when it is the first rule for `n`. */
  lemma RuleForFirst<N, K>(rules: seq<(N, Edge<N, K>)>, n: N, i: nat)
    requires i < |rules| && rules[i].0 == n
    requires forall j :: 0 <= j < i ==> rules[j].0 != n
    ensures RuleFor(rules, n) == Some(rules[i].1)
  {
    var r := RuleFor(rules, n);
    assert r.Some?;
    var k :| 0 <= k < |rules| && rules[k] == (n, r.value) && forall j :: 0 <= j < k ==> rules[j].0 != n;
    assert k == i;
  }

  /**
   * Where the run goes after `n` has produced record `s`: a direct edge's
   * target, the pick of the condition function (which may raise), or the end
   * when `n` has no edge.
   */
  function NextTarget<N(==), K, C(==)>(g: Graph<N, K>, decide: (K, Record<C>) -> Result<Target<N>, NodeError>,
                                       n: N, s: Record<C>): (r: Result<Target<N>, NodeError>)
  {
    match RuleFor(g.rules, n)
    case None => Success(End)
    case Some(Direct(t)) => Success(t)
    case Some(Conditional(k)) => decide(k, s)
  }

  /** The runtime's position: the next target, the record, the nodes run so far and the observer's log. */
  datatype Config<N, C(==)> = Config(at: Target<N>, state: Record<C>, trace: seq<N>, notified: seq<seq<Message>>)

  /** How a run ends: at the end marker, with the recursion-limit error, or with an exception raised by node `node`. */
  datatype Outcome<N, C(==)> =
    | Finished(state: Record<C>)
    | RecursionLimitReached(state: Record<C>)
    | Failed(node: N, error: NodeError)

  /** The end of a run with the nodes it ran, in order, and what the observer was shown. */
  datatype Run<N, C(==)> = Run(outcome: Outcome<N, C>, trace: seq<N>, notified: seq<seq<Message>>)

  /** How the runtime calls node `n` as the `step`-th node of the run. */
  type Exec<!N, !C(==)> = (nat, N, Record<C>) -> Notified<Result<Record<C>, NodeError>>

  /** Where a run starts: the entry node, the input record, nothing run yet. */
  function Start<N, K, C(==)>(g: Graph<N, K>, s: Record<C>): (c: Config<N, C>)
    ensures c.at == To(g.entry) && c.state == s && c.trace == [] && c.notified == []
  {
    Config(To(g.entry), s, [], [])
  }

  /** One step of the loop: `Some(next)` when the run goes on, `None` when it stops here. */
  datatype Step<N, C(==)> = Continue(next: Config<N, C>) | Stop(run: Run<N, C>)

  /**
   * One step from `c`: stop at the end marker or at the limit; otherwise run
   * the node, stop if it raised, merge its returned keys, append it to the trace
   * and its notifications to the log, and follow its edge.
   */
  function StepFrom<N(==), K, C(==)>(g: Graph<N, K>, exec: Exec<N, C>, decide: (K, Record<C>) -> Result<Target<N>, NodeError>,
                                     limit: nat, c: Config<N, C>): (r: Step<N, C>)
    ensures c.at == End ==> r == Stop(Run(Finished(c.state), c.trace, c.notified))
    ensures c.at.To? && |c.trace| >= limit ==> r == Stop(Run(RecursionLimitReached(c.state), c.trace, c.notified))
    ensures r.Continue? ==>
      && c.at.To? && |c.trace| < limit
      && exec(|c.trace|, c.at.node, c.state).result.Success?
      && r.next.state == Merge(c.state, exec(|c.trace|, c.at.node, c.state).result.value)
      && r.next.trace == c.trace + [c.at.node]
      && r.next.notified == c.notified + exec(|c.trace|, c.at.node, c.state).calls
      && Success(r.next.at) == NextTarget(g, decide, c.at.node, r.next.state)
    ensures r.Stop? && r.run.outcome.Failed? ==> c.at == To(r.run.outcome.node)
  {
    match c.at
    case End => Stop(Run(Finished(c.state), c.trace, c.notified))
    case To(n) =>
      if |c.trace| >= limit then Stop(Run(RecursionLimitReached(c.state), c.trace, c.notified))
      else
        var out := exec(|c.trace|, n, c.state);
        if out.result.Failure? then Stop(Run(Failed(n, out.result.error), c.trace, c.notified))
        else
          var s := Merge(c.state, out.result.value);
          var trace := c.trace + [n];
          var notified := c.notified + out.calls;
          var next := NextTarget(g, decide, n, s);
          if next.Failure? then Stop(Run(Failed(n, next.error), trace, notified))
          else Continue(Config(next.value, s, trace, notified))
  }

  /**
   * The run from `c` with at most `limit` node executions in all. The trace
   * and the log only grow, and the trace never exceeds the limit.
   */
  function RunFrom<N(==), K, C(==)>(g: Graph<N, K>, exec: Exec<N, C>, decide: (K, Record<C>) -> Result<Target<N>, NodeError>,
                                    limit: nat, c: Config<N, C>): (r: Run<N, C>)
    ensures |c.trace| <= |r.trace| && r.trace[..|c.trace|] == c.trace
    ensures |c.notified| <= |r.notified| && r.notified[..|c.notified|] == c.notified
    ensures |c.trace| <= limit ==> |r.trace| <= limit
    ensures r.outcome.RecursionLimitReached? ==> |r.trace| >= limit
    decreases limit - |c.trace|
  {
    match StepFrom(g, exec, decide, limit, c)
    case Stop(run) => run
    case Continue(next) =>
      var r := RunFrom(g, exec, decide, limit, next);
      ExtendedPrefix(r.trace, c.trace, [c.at.node]);
      ExtendedPrefix(r.notified, c.notified, exec(|c.trace|, c.at.node, c.state).calls);
      r
  }

  /** A sequence that starts with `a + b` starts with `a`. */
  lemma ExtendedPrefix<T>(x: seq<T>, a: seq<T>, b: seq<T>)
    requires |a + b| <= |x| && x[..|a + b|] == a + b
    ensures |a| <= |x| && x[..|a|] == a
  {
    assert x[..|a|] == (a + b)[..|a|];
  }

  /**
   * `graph.invoke(state, {"recursion_limit": limit})`: the step loop, proved to
   * end exactly as `RunFrom` says a run from the entry node ends.
   */
  method Invoke<N(==), K, C(==)>(g: Graph<N, K>, exec: Exec<N, C>, decide: (K, Record<C>) -> Result<Target<N>, NodeError>,
                                 limit: nat, input: Record<C>) returns (r: Run<N, C>)
    ensures r == RunFrom(g, exec, decide, limit, Start(g, input))
    ensures |r.trace| <= limit
  {
    var at := To(g.entry);
    var state := input;
    var trace: seq<N> := [];
    var notified: seq<seq<Message>> := [];
    var failure: Option<(N, NodeError)> := None;
    while at.To? && |trace| < limit && failure.None?
      invariant |trace| <= limit
      invariant failure.None? ==>
        RunFrom(g, exec, decide, limit, Config(at, state, trace, notified)) == RunFrom(g, exec, decide, limit, Start(g, input))
      invariant failure.Some? ==>
        Run(Failed(failure.value.0, failure.value.1), trace, notified) == RunFrom(g, exec, decide, limit, Start(g, input))
      decreases limit - |trace|, if failure.None? then 1 else 0
    {
      var n := at.node;
      var out := exec(|trace|, n, state);
      if out.result.Failure? {
        failure := Some((n, out.result.error));
      } else {
        state := Merge(state, out.result.value);
        trace := trace + [n];
        notified := notified + out.calls;
        var next := NextTarget(g, decide, n, state);
        if next.Failure? {
          failure := Some((n, next.error));
        } else {
          at := next.value;
        }
      }
    }
    if failure.Some? {
      r := Run(Failed(failure.value.0, failure.value.1), trace, notified);
    } else if at == End {
      r := Run(Finished(state), trace, notified);
    } else {
      r := Run(RecursionLimitReached(state), trace, notified);
    }
  }

  /**
   * The graph builder (`StateGraph`): nodes, the start edge and the edge rules
   * are recorded in the order the building code adds them.
   */
  class StateGraph<N(==), K> {
    var nodes: seq<N>
    var entry: Option<N>
    var rules: seq<(N, Edge<N, K>)>

    /** An empty builder. */
    constructor()
      ensures nodes == [] && entry == None && rules == []
    {
      nodes := [];
      entry := None;
      rules := [];
    }

    /** `add_node(name, fn)`. */
    method AddNode(n: N)
      modifies this
      ensures nodes == old(nodes) + [n] && entry == old(entry) && rules == old(rules)
    {
      nodes := nodes + [n];
    }

    /** `add_edge(START, n)`. */
    method AddStartEdge(n: N)
      modifies this
      ensures entry == Some(n) && nodes == old(nodes) && rules == old(rules)
    {
      entry := Some(n);
    }

    /** `add_edge(from, to)`, `to` possibly `END`. */
    method AddEdge(from: N, to: Target<N>)
      modifies this
      ensures rules == old(rules) + [(from, Direct(to))] && nodes == old(nodes) && entry == old(entry)
    {
      rules := rules + [(from, Direct(to))];
    }

    /** `add_conditional_edges(from, condition)`. */
    method AddConditionalEdges(from: N, cond: K)
      modifies this
      ensures rules == old(rules) + [(from, Conditional(cond))] && nodes == old(nodes) && entry == old(entry)
    {
      rules := rules + [(from, Conditional(cond))];
    }

    /** Every node and every fixed edge end is a registered node, and no node is registered twice. */
    predicate WellFormed()
      reads this
    {
      && entry.Some? && entry.value in nodes
      && (forall i, j :: 0 <= i < j < |nodes| ==> nodes[i] != nodes[j])
      && (forall i :: 0 <= i < |rules| ==> rules[i].0 in nodes)
      && (forall i :: 0 <= i < |rules| && rules[i].1.Direct? && rules[i].1.target.To? ==> rules[i].1.target.node in nodes)
    }

    /** `compile()`: the graph as built, or the reason it is refused. */
    function Compile(): (r: Result<Graph<N, K>, BuildError>)
      reads this
      ensures r.Success? <==> WellFormed()
      ensures r.Success? ==> r.value == Graph(entry.value, nodes, rules)
      ensures entry.None? ==> r == Failure(NoEntryPoint)
    {
      if entry.None? then Failure(NoEntryPoint)
      else if !(forall i, j :: 0 <= i < j < |nodes| ==> nodes[i] != nodes[j]) then Failure(DuplicateNode)
      else if !WellFormed() then Failure(UnknownNode)
      else Success(Graph(entry.value, nodes, rules))
    }
  }
}
