/**
 * Running the live workflow: the initial record, the node executor with the
 * optional live observer, the run itself under the recursion limit, and what
 * every run keeps: no stage raises, the counters count the stages that ran,
 * the transcript grows by three entries per generating stage, and the user
 * stories and the design document are each written at most ten times.
 */
module RunWorkflow {
  import opened Wrappers
  import opened State
  import opened Common
  import opened Engine
  import opened WorkflowNodes
  import opened Workflow

  /** The `recursion_limit` the run is invoked with. */
  const RecursionLimit: nat := 100

  /** The initial record: every text field empty, every counter zero, the greeting as transcript. */
  function InitialState(): (s: GraphState)
    ensures Complete(s)
    ensures forall f: TextField :: s.texts[f] == ""
    ensures forall c: Counter :: s.counters[c] == 0
    ensures s.messages == Some([Human(Greeting)])
  {
    RecordShape();
    Record(map f | f in AllTextFields :: "", map c | c in AllCounters :: 0, Some([Human(Greeting)]))
  }

  /** How the compiled graph runs node `n`: the stage function wrapped for the observer when `live`. */
  function LiveExec(env: Env, live: bool): Exec<Stage, Counter> {
    (step: nat, n: Stage, s: GraphState) => WithLiveCallback(s' => Execute(env, step, n, s'), live, s)
  }

  /** The run `run_workflow` performs, from the initial record under the recursion limit. */
  function LiveRun(env: Env, live: bool): Run<Stage, Counter> {
    RunFrom(LiveGraph(), LiveExec(env, live), Decide, RecursionLimit, Start(LiveGraph(), InitialState()))
  }

  /**
   * `run_workflow(live_callback)`: build the graph with the observer attached
   * (`live` says whether there is one), invoke it on the initial record with
   * the recursion limit, and hand back how the run ended.
   */
  method RunWorkflow(env: Env, live: bool) returns (r: Run<Stage, Counter>)
    ensures r == LiveRun(env, live)
  {
    var built := BuildWorkflowGraph();
    r := Invoke(built.value, LiveExec(env, live), Decide, RecursionLimit, InitialState());
  }

  /** The returned keys, in the order they are read from the final record. */
  const ResultKeys: seq<Key<Counter>> := [
    TextKeyOf(UserRequirement), TextKeyOf(GeneratedUserStories), TextKeyOf(PoReviewComment),
    CounterKeyOf(StoriesCorrectionIteration), CounterKeyOf(DesignDocReviewIteration),
    TextKeyOf(DesignDoc), TextKeyOf(DesignDocReviewComments), TextKeyOf(GeneratedCode),
    TextKeyOf(CodeReviewComments), CounterKeyOf(CodeReviewIteration),
    TextKeyOf(SecurityReviewComments), CounterKeyOf(SecurityReviewIteration),
    TextKeyOf(GeneratedTestCases), TextKeyOf(TestCaseReviewComments), CounterKeyOf(TestCaseReviewIteration),
    TextKeyOf(QaTestingResult), CounterKeyOf(QaTestingIteration),
    TextKeyOf(DeploymentPlan), TextKeyOf(MonitoringPlan), TextKeyOf(MaintenancePlan), MessagesKey]

  /**
   * The dictionary the stage module's `run_workflow` builds from the final
   * record by indexing each of the 21 keys: the first absent key raises, and
   * on a record with every key it is that record again.
   */
  function ProjectResult(s: GraphState): (r: Result<GraphState, NodeError>)
    ensures r.Failure? <==> exists i :: 0 <= i < |ResultKeys| && !Has(s, ResultKeys[i])
    ensures r.Failure? ==> r.error == KeyError(KeyName(Missing(s, ResultKeys).value, CounterKey))
    ensures Complete(s) ==> r == Success(s)
  {
    match Missing(s, ResultKeys)
    case Some(k) => Failure(KeyError(KeyName(k, CounterKey)))
    case None =>
      assert forall f :: f in AllTextFields ==> Has(s, TextKeyOf(f)) by {
        forall f | f in AllTextFields ensures Has(s, TextKeyOf(f)) {
          assert TextKeyOf(f) in ResultKeys;
        }
      }
      assert forall c :: c in AllCounters ==> Has(s, CounterKeyOf(c)) by {
        forall c | c in AllCounters ensures Has(s, CounterKeyOf(c)) {
          assert CounterKeyOf(c) in ResultKeys;
        }
      }
      assert Has(s, ResultKeys[20]);
      RecordShape();
      var texts := map f | f in AllTextFields :: s.texts[f];
      var counters := map c | c in AllCounters :: s.counters[c];
      assert texts == s.texts;
      assert counters == s.counters;
      Success(Record(texts, counters, s.messages))
  }

  /**
   * `run_workflow()` of the stage module: the same graph without an
   * observer, invoked on the same initial record with the same limit; the
   * dictionary it returns is the final record unchanged. A run that reaches the
   * recursion limit raises instead (`None`).
   */
  method RunWorkflowStandalone(env: Env) returns (r: Run<Stage, Counter>, result: Option<GraphState>)
    ensures r == LiveRun(env, false)
    ensures result.Some? <==> r.outcome.Finished?
    ensures result.Some? ==> result.value == r.outcome.state
  {
    var built := BuildWorkflowGraph();
    r := Invoke(built.value, LiveExec(env, false), Decide, RecursionLimit, InitialState());
    if r.outcome.Finished? {
      LiveRunSafe(env, false);
      var projected := ProjectResult(r.outcome.state);
      result := Some(projected.value);
    } else {
      result := None;
    }
  }

  /** The value counter `k` holds once the stages of `trace` have run: how often its stage ran. */
  function Tally(trace: seq<Stage>, k: Counter): nat {
    match k
    case StoriesCorrectionIteration => multiset(trace)[GenerateUserStories]
    case DesignDocReviewIteration => multiset(trace)[CreateDesignDoc]
    case CodeReviewIteration => multiset(trace)[Coder]
    case SecurityReviewIteration => multiset(trace)[SecurityReview]
    case TestCaseReviewIteration => multiset(trace)[WriteTestCases]
    case QaTestingIteration => 0
  }

  /** Where an edge leads once the node has produced `t`. */
  function Follow(e: Edge<Stage, Cond>, t: GraphState): Target<Stage> {
    match e
    case Direct(x) => x
    case Conditional(k) => Decide(k, t).value
  }

  /** What the observer is shown after node `n` returned: its returned `messages`, none for the first stage. */
  function Shown(live: bool, n: Stage, t: GraphState): seq<seq<Message>> {
    if !live then [] else if n == GetUserRequirements then [[]] else [GetMessages(t)]
  }

  /**
   * One step of the live run from a record with every key: the node returns,
   * the merged record `t` is its effect, and the run goes on along its edge.
   */
  lemma StepFacts(env: Env, live: bool, c: Config<Stage, Counter>) returns (t: GraphState)
    requires Complete(c.state) && c.at.To? && |c.trace| < RecursionLimit
    ensures Complete(t)
    ensures c.at.node == GetUserRequirements ==>
      t == c.state.(texts := c.state.texts[UserRequirement := env.requirements.GetOr(NoRequirements)])
    ensures c.at.node != GetUserRequirements ==>
      Produces(env.wording, c.at.node, Gen(env, |c.trace|, c.at.node), c.state, t)
    ensures StepFrom(LiveGraph(), LiveExec(env, live), Decide, RecursionLimit, c)
      == Continue(Config(Follow(LiveEdge(c.at.node), t), t, c.trace + [c.at.node],
                         c.notified + Shown(live, c.at.node, t)))
  {
    var n := c.at.node;
    var step := |c.trace|;
    StageEffect(env, step, n, c.state);
    var out := Execute(env, step, n, c.state);
    t := Merge(c.state, out.value);
    LiveNext(n);
    assert LiveExec(env, live)(step, n, c.state) == WithLiveCallback(s' => Execute(env, step, n, s'), live, c.state);
    if LiveEdge(n).Conditional? {
      assert Decide(LiveEdge(n).cond, t).Success?;
    }
  }

  /** Every key is present and every counter holds the tally of `trace`. */
  ghost predicate Tallied(s: GraphState, trace: seq<Stage>) {
    Complete(s) && forall k: Counter :: s.counters[k] == Tally(trace, k)
  }

  /**
   * The transcript and the observer's log after `trace`: the greeting first,
   * three entries per generating stage, the requirement in place once the
   * first stage ran, and one notification per stage when an observer is attached.
   */
  ghost predicate Logged(env: Env, live: bool, s: GraphState, trace: seq<Stage>, notified: seq<seq<Message>>) {
    && |GetMessages(s)| == 1 + 3 * (|trace| - multiset(trace)[GetUserRequirements])
    && GetMessages(s)[0] == Human(Greeting)
    && (trace != [] ==> UserRequirement in s.texts && s.texts[UserRequirement] == env.requirements.GetOr(NoRequirements))
    && |notified| == (if live then |trace| else 0)
    && (live && trace != [] ==>
          notified[|trace| - 1] == if trace[|trace| - 1] == GetUserRequirements then [] else GetMessages(s))
  }

  /** Where the run may stand: the first stage runs once, first; the stories and design loops stay under the ceiling. */
  ghost predicate Placed(at: Target<Stage>, trace: seq<Stage>) {
    && (at == To(GetUserRequirements) <==> trace == [])
    && (trace != [] ==> trace[0] == GetUserRequirements && multiset(trace)[GetUserRequirements] == 1)
    && multiset(trace)[GenerateUserStories] <= MaxIterations
    && multiset(trace)[CreateDesignDoc] <= MaxIterations
    && (at == To(GenerateUserStories) ==> multiset(trace)[GenerateUserStories] < MaxIterations)
    && (at == To(CreateDesignDoc) ==> multiset(trace)[CreateDesignDoc] < MaxIterations)
    && (at == To(GetUserRequirements) || at == To(GenerateUserStories) || at == To(PoReviewStories) ==>
          multiset(trace)[CreateDesignDoc] == 0)
  }

  /** Everything the live run keeps at every step. */
  ghost predicate Sane(env: Env, live: bool, c: Config<Stage, Counter>) {
    Tallied(c.state, c.trace) && Logged(env, live, c.state, c.trace, c.notified) && Placed(c.at, c.trace)
  }

  /** The counters follow the stages: a stage raises exactly its own counter. */
  lemma TalliedStep(env: Env, n: Stage, s: GraphState, t: GraphState, trace: seq<Stage>)
    requires Tallied(s, trace) && Complete(t)
    requires n == GetUserRequirements ==> t == s.(texts := s.texts[UserRequirement := env.requirements.GetOr(NoRequirements)])
    requires n != GetUserRequirements ==> Frame(s, t, OutputField(n), Bumps(n))
    ensures Tallied(t, trace + [n])
  {
    assert multiset(trace + [n]) == multiset(trace) + multiset{n};
    forall k: Counter ensures t.counters[k] == Tally(trace + [n], k) {
      match k
      case StoriesCorrectionIteration =>
      case DesignDocReviewIteration =>
      case CodeReviewIteration =>
      case SecurityReviewIteration =>
      case TestCaseReviewIteration =>
      case QaTestingIteration =>
    }
  }

  /** The transcript and the log follow the stages. */
  lemma LoggedStep(env: Env, live: bool, c: Config<Stage, Counter>, t: GraphState)
    requires Sane(env, live, c) && Complete(t) && c.at.To?
    requires c.at.node == GetUserRequirements ==>
      t == c.state.(texts := c.state.texts[UserRequirement := env.requirements.GetOr(NoRequirements)])
    requires c.at.node != GetUserRequirements ==>
      Produces(env.wording, c.at.node, Gen(env, |c.trace|, c.at.node), c.state, t)
    ensures Logged(env, live, t, c.trace + [c.at.node], c.notified + Shown(live, c.at.node, t))
  {
    var n := c.at.node;
    var trace := c.trace + [n];
    assert multiset(trace) == multiset(c.trace) + multiset{n};
    if n != GetUserRequirements {
      var h := GetMessages(c.state);
      assert GetMessages(t)[..|h|] == h;
      assert GetMessages(t)[0] == h[0];
      OnlyFirstWritesRequirement(n);
    }
  }

  /** The position facts follow the edges. */
  lemma PlacedStep(env: Env, n: Stage, t: GraphState, trace: seq<Stage>)
    requires Placed(To(n), trace) && Tallied(t, trace + [n])
    ensures Placed(Follow(LiveEdge(n), t), trace + [n])
  {
    var next := trace + [n];
    assert multiset(next) == multiset(trace) + multiset{n};
    assert next[0] == if trace == [] then n else trace[0];
    match n
    case PoReviewStories =>
      assert GetCounter(t, StoriesCorrectionIteration, 0) == multiset(next)[GenerateUserStories];
    case DesignDocReview =>
      assert GetCounter(t, DesignDocReviewIteration, 0) == multiset(next)[CreateDesignDoc];
    case _ =>
  }

  /** One step keeps the invariant. */
  lemma SaneStep(env: Env, live: bool, c: Config<Stage, Counter>) returns (next: Config<Stage, Counter>)
    requires Sane(env, live, c) && c.at.To? && |c.trace| < RecursionLimit
    ensures StepFrom(LiveGraph(), LiveExec(env, live), Decide, RecursionLimit, c) == Continue(next)
    ensures Sane(env, live, next)
    ensures next.trace == c.trace + [c.at.node] && next.at == Follow(LiveEdge(c.at.node), next.state)
    ensures c.at.node != GetUserRequirements ==>
      Produces(env.wording, c.at.node, Gen(env, |c.trace|, c.at.node), c.state, next.state)
  {
    var n := c.at.node;
    var t := StepFacts(env, live, c);
    next := Config(Follow(LiveEdge(n), t), t, c.trace + [n], c.notified + Shown(live, n, t));
    TalliedStep(env, n, c.state, t, c.trace);
    LoggedStep(env, live, c, t);
    PlacedStep(env, n, t, c.trace);
  }

  /** The invariant holds where the run ends. */
  ghost predicate Settled(env: Env, live: bool, r: Run<Stage, Counter>) {
    && !r.outcome.Failed?
    && Tallied(r.outcome.state, r.trace)
    && Logged(env, live, r.outcome.state, r.trace, r.notified)
    && r.trace != [] && r.trace[0] == GetUserRequirements && multiset(r.trace)[GetUserRequirements] == 1
    && multiset(r.trace)[GenerateUserStories] <= MaxIterations
    && multiset(r.trace)[CreateDesignDoc] <= MaxIterations
  }

  /** From any configuration that keeps the invariant, the run keeps it to the end and no stage raises. */
  lemma {:induction false} RunKeeps(env: Env, live: bool, c: Config<Stage, Counter>)
    requires Sane(env, live, c) && |c.trace| <= RecursionLimit
    ensures Settled(env, live, RunFrom(LiveGraph(), LiveExec(env, live), Decide, RecursionLimit, c))
    decreases RecursionLimit - |c.trace|
  {
    if c.at.To? && |c.trace| < RecursionLimit {
      var next := SaneStep(env, live, c);
      RunKeeps(env, live, next);
    }
  }

  /** The initial configuration keeps the invariant. */
  lemma StartSane(env: Env, live: bool)
    ensures Sane(env, live, Start(LiveGraph(), InitialState()))
  {
    var s := InitialState();
    forall k: Counter ensures s.counters[k] == Tally([], k) {
    }
  }

  /** What the invariant says about a run's end, spelled out. */
  lemma SettledFacts(env: Env, live: bool, r: Run<Stage, Counter>)
    requires Settled(env, live, r) && |r.trace| <= RecursionLimit
    ensures (r.outcome.Finished? || r.outcome.RecursionLimitReached?)
      && 1 <= |r.trace| <= RecursionLimit && r.trace[0] == GetUserRequirements
      && multiset(r.trace)[GetUserRequirements] == 1
      && multiset(r.trace)[GenerateUserStories] <= MaxIterations
      && multiset(r.trace)[CreateDesignDoc] <= MaxIterations
      && Complete(r.outcome.state)
      && (forall k: Counter :: r.outcome.state.counters[k] == Tally(r.trace, k))
      && r.outcome.state.counters[QaTestingIteration] == 0
      && |GetMessages(r.outcome.state)| == 3 * |r.trace| - 2
      && GetMessages(r.outcome.state)[0] == Human(Greeting)
      && |r.notified| == (if live then |r.trace| else 0)
  {
    assert r.outcome.state.counters[QaTestingIteration] == Tally(r.trace, QaTestingIteration);
  }

  /**
   * Every live run, with or without an observer and whatever the generator
   * answers: no stage raises and the run ends at the end marker or at the
   * recursion limit; the first stage runs once, first; the user stories and
   * the design document are written at most ten times each; each counter
   * holds how often its stage ran and `qa_testing_iteration` stays 0; the
   * transcript is the greeting followed by three entries per generating stage;
   * and the observer is notified once per stage.
   */
  lemma LiveRunSafe(env: Env, live: bool)
    ensures var r := LiveRun(env, live);
      && (r.outcome.Finished? || r.outcome.RecursionLimitReached?)
      && 1 <= |r.trace| <= RecursionLimit && r.trace[0] == GetUserRequirements
      && multiset(r.trace)[GetUserRequirements] == 1
      && multiset(r.trace)[GenerateUserStories] <= MaxIterations
      && multiset(r.trace)[CreateDesignDoc] <= MaxIterations
      && Complete(r.outcome.state)
      && (forall k: Counter :: r.outcome.state.counters[k] == Tally(r.trace, k))
      && r.outcome.state.counters[QaTestingIteration] == 0
      && |GetMessages(r.outcome.state)| == 3 * |r.trace| - 2
      && GetMessages(r.outcome.state)[0] == Human(Greeting)
      && |r.notified| == (if live then |r.trace| else 0)
  {
    StartSane(env, live);
    RunKeeps(env, live, Start(LiveGraph(), InitialState()));
    SettledFacts(env, live, LiveRun(env, live));
  }
}
