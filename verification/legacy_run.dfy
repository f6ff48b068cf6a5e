/**
 * Running the older version: its initial record, its node executor (no live
 * observer), the run under the recursion limit, and what every run keeps:
 * without `req_build.md` the first node raises and nothing else runs; with
 * it no node raises, the counters count the nodes that ran, the transcript
 * grows by three entries per generating node, the stories, the design
 * document and the test cases are each written at most ten times, and a QA
 * that never passes loops through the fix node until the recursion limit.
 */
module LegacyRun {
  import opened Wrappers
  import opened PyStr
  import opened State
  import opened Common
  import opened Engine
  import opened LegacyNodes
  import opened LegacyWorkflow

  /** The `recursion_limit` the run is invoked with. */
  const RecursionLimit: nat := 100

  /** The initial record: every text field empty, every counter zero, the greeting as transcript. */
  function LegacyInitialState(): (s: LegacyState)
    ensures Complete(s)
    ensures forall f: TextField :: s.texts[f] == ""
    ensures forall c: LegacyCounter :: s.counters[c] == 0
    ensures s.messages == Some([Human(Greeting)])
  {
    RecordShape();
    LegacyShape();
    Record(map f | f in AllTextFields :: "", map c | c in AllLegacyCounters :: 0, Some([Human(Greeting)]))
  }

  /** How the compiled graph runs node `n`: the node function itself, no observer. */
  function LegacyExec(env: LegacyEnv): Exec<Stage, LegacyCounter> {
    (step: nat, n: Stage, s: LegacyState) => Notified(RunNode(env, step, n, s), [])
  }

  /** The run `run_workflow` performs, from the initial record under the recursion limit. */
  function LegacyRun(env: LegacyEnv): Run<Stage, LegacyCounter> {
    RunFrom(LegacyGraph(), LegacyExec(env), Decide, RecursionLimit, Start(LegacyGraph(), LegacyInitialState()))
  }

  /** The returned keys, in the order they are read from the final record. */
  const LegacyResultKeys: seq<Key<LegacyCounter>> := [
    TextKeyOf(UserRequirement), TextKeyOf(GeneratedUserStories), TextKeyOf(PoReviewComment),
    CounterKeyOf(StoriesCount), CounterKeyOf(DesignDocReviewCount),
    TextKeyOf(DesignDoc), TextKeyOf(DesignDocReviewComments), TextKeyOf(GeneratedCode),
    TextKeyOf(CodeReviewComments), CounterKeyOf(CodeCount),
    TextKeyOf(SecurityReviewComments), CounterKeyOf(SecurityCount),
    TextKeyOf(GeneratedTestCases), TextKeyOf(TestCaseReviewComments), CounterKeyOf(TestCaseCount),
    TextKeyOf(QaTestingResult), TextKeyOf(DeploymentPlan), TextKeyOf(MonitoringPlan), TextKeyOf(MaintenancePlan),
    MessagesKey]

  /**
   * The dictionary `run_workflow` builds from the final record by indexing
   * each of the 20 keys: the first absent key raises, and on a record with
   * every key it is that record again.
   */
  function ProjectLegacyResult(s: LegacyState): (r: Result<LegacyState, NodeError>)
    ensures r.Failure? <==> exists i :: 0 <= i < |LegacyResultKeys| && !Has(s, LegacyResultKeys[i])
    ensures r.Failure? ==> r.error == KeyError(KeyName(Missing(s, LegacyResultKeys).value, LegacyCounterKey))
    ensures Complete(s) ==> r == Success(s)
  {
    match Missing(s, LegacyResultKeys)
    case Some(k) => Failure(KeyError(KeyName(k, LegacyCounterKey)))
    case None =>
      assert forall f :: f in AllTextFields ==> Has(s, TextKeyOf(f)) by {
        forall f | f in AllTextFields ensures Has(s, TextKeyOf(f)) {
          assert TextKeyOf(f) in LegacyResultKeys;
        }
      }
      assert forall c :: c in AllLegacyCounters ==> Has(s, CounterKeyOf(c)) by {
        forall c | c in AllLegacyCounters ensures Has(s, CounterKeyOf(c)) {
          assert CounterKeyOf(c) in LegacyResultKeys;
        }
      }
      assert Has(s, LegacyResultKeys[19]);
      RecordShape();
      LegacyShape();
      var texts := map f | f in AllTextFields :: s.texts[f];
      var counters := map c | c in AllLegacyCounters :: s.counters[c];
      assert texts == s.texts;
      assert counters == s.counters;
      Success(Record(texts, counters, s.messages))
  }

  /**
   * `run_workflow()`: build and compile the graph, invoke it on the initial
   * record with the recursion limit, and return the projected dictionary,
   * which is the final record unchanged. A run that raises (no requirements
   * file, or the recursion limit) returns no dictionary (`None`).
   */
  method RunLegacyWorkflow(env: LegacyEnv) returns (r: Run<Stage, LegacyCounter>, result: Option<LegacyState>)
    ensures r == LegacyRun(env)
    ensures result.Some? <==> r.outcome.Finished?
    ensures result.Some? ==> result.value == r.outcome.state
  {
    var built := BuildLegacyGraph();
    r := Invoke(built.value, LegacyExec(env), Decide, RecursionLimit, LegacyInitialState());
    if r.outcome.Finished? {
      if env.requirements.None? {
        MissingRequirementsFails(env);
        assert false;
      }
      LegacyRunSafe(env);
      var projected := ProjectLegacyResult(r.outcome.state);
      result := Some(projected.value);
    } else {
      result := None;
    }
  }

  /** Without `req_build.md` the first node raises `FileNotFound` and the run ends there, having run nothing. */
  lemma MissingRequirementsFails(env: LegacyEnv)
    requires env.requirements.None?
    ensures LegacyRun(env) == Run(Failed(GetUserRequirements, FileNotFound(RequirementsFile)), [], [])
  {
    var c := Start(LegacyGraph(), LegacyInitialState());
    assert LegacyExec(env)(0, GetUserRequirements, c.state).result == Failure(FileNotFound(RequirementsFile));
  }

  /** The node that raises counter `k`. */
  function Counted(k: LegacyCounter): Stage {
    match k
    case StoriesCount => GenerateUserStories
    case DesignDocReviewCount => CreateDesignDoc
    case CodeCount => Coder
    case SecurityCount => SecurityReview
    case TestCaseCount => WriteTestCases
  }

  /** A node raises counter `k` exactly when it is the node `Counted(k)` names. */
  lemma BumpsCounted(n: Stage, k: LegacyCounter)
    ensures Bumps(n) == Some(k) <==> n == Counted(k)
  {
    match n
    case GenerateUserStories => case CreateDesignDoc => case Coder => case SecurityReview => case WriteTestCases =>
    case _ =>
  }

  /** The value counter `k` holds once the nodes of `trace` have run: how often its node ran. */
  function Tally(trace: seq<Stage>, k: LegacyCounter): nat {
    multiset(trace)[Counted(k)]
  }

  /** Where an edge leads once the node has produced `t`, a record with every key. */
  function Follow(e: Edge<Stage, Cond>, t: LegacyState): Target<Stage>
    requires Complete(t)
  {
    match e
    case Direct(x) => x
    case Conditional(k) => Decide(k, t).value
  }

  /** Only the first node writes `user_requirement`. */
  lemma OnlyFirstWritesRequirement(n: Stage)
    requires n != GetUserRequirements
    ensures Output(n) != UserRequirement
  {
    match n
    case GenerateUserStories => case PoReviewStories => case CreateDesignDoc =>
    case DesignDocReview => case Coder => case CodeReviewer => case SecurityReview =>
    case WriteTestCases => case TestCaseReview => case QaTesting => case FixCodeAfterQa =>
    case Deployment => case MonitoringFeedback => case MaintenanceUpdates =>
  }

  /**
   * A node run on a record with every key, the requirements file present:
   * it returns, and the merged record `t` keeps every key and is its effect.
   */
  lemma NodeStep(env: LegacyEnv, step: nat, n: Stage, s: LegacyState) returns (t: LegacyState)
    requires env.requirements.Some? && Complete(s)
    ensures RunNode(env, step, n, s).Success? && t == Merge(s, RunNode(env, step, n, s).value)
    ensures Complete(t)
    ensures n == GetUserRequirements ==> t == s.(texts := s.texts[UserRequirement := env.requirements.value])
    ensures n != GetUserRequirements ==> Produces(env.wording, n, Gen(env, step, n), s, t)
  {
    NodeKeepsKeys(env, step, n, s);
    t := Merge(s, RunNode(env, step, n, s).value);
  }

  /**
   * One step of the run from a record with every key, once the node has
   * returned and `t` is the merged record: the run goes on along the
   * node's edge.
   */
  lemma StepFacts(env: LegacyEnv, c: Config<Stage, LegacyCounter>, t: LegacyState)
    requires c.at.To? && |c.trace| < RecursionLimit && Complete(t)
    requires RunNode(env, |c.trace|, c.at.node, c.state).Success?
    requires t == Merge(c.state, RunNode(env, |c.trace|, c.at.node, c.state).value)
    ensures StepFrom(LegacyGraph(), LegacyExec(env), Decide, RecursionLimit, c)
      == Continue(Config(Follow(LegacyEdge(c.at.node), t), t, c.trace + [c.at.node], c.notified))
  {
    var n := c.at.node;
    var step := |c.trace|;
    LegacyNext(n);
    assert LegacyExec(env)(step, n, c.state) == Notified(RunNode(env, step, n, c.state), []);
    assert c.notified + [] == c.notified;
    if LegacyEdge(n).Conditional? {
      assert Decide(LegacyEdge(n).cond, t).Success?;
    }
  }

  /** Every key is present and every counter holds the tally of `trace`. */
  ghost predicate Tallied(s: LegacyState, trace: seq<Stage>) {
    Complete(s) && forall k: LegacyCounter :: s.counters[k] == Tally(trace, k)
  }

  /**
   * The transcript after `trace`: the greeting first, three entries per
   * generating node, and the requirement in place once the first node ran.
   */
  ghost predicate Logged(env: LegacyEnv, s: LegacyState, trace: seq<Stage>, notified: seq<seq<Message>>) {
    && |GetMessages(s)| == 1 + 3 * (|trace| - multiset(trace)[GetUserRequirements])
    && GetMessages(s)[0] == Human(Greeting)
    && (trace != [] ==> UserRequirement in s.texts && s.texts[UserRequirement] == env.requirements.GetOr(""))
    && notified == []
  }

  /**
   * Where the run may stand: the first node runs once, first; the stories,
   * design and test-case loops stay under the ceiling; nothing of a later
   * loop has run while the run is still before it.
   */
  ghost predicate Placed(at: Target<Stage>, trace: seq<Stage>) {
    && (at == To(GetUserRequirements) <==> trace == [])
    && (trace != [] ==> trace[0] == GetUserRequirements && multiset(trace)[GetUserRequirements] == 1)
    && multiset(trace)[GenerateUserStories] <= MaxIterations
    && multiset(trace)[CreateDesignDoc] <= MaxIterations
    && multiset(trace)[WriteTestCases] <= MaxIterations
    && (at == To(GenerateUserStories) ==> multiset(trace)[GenerateUserStories] < MaxIterations)
    && (at == To(CreateDesignDoc) ==> multiset(trace)[CreateDesignDoc] < MaxIterations)
    && (at == To(WriteTestCases) ==> multiset(trace)[WriteTestCases] < MaxIterations)
    && (at.To? && Position(at.node) < 3 ==> multiset(trace)[CreateDesignDoc] == 0)
    && (at.To? && Position(at.node) < 8 ==> multiset(trace)[WriteTestCases] == 0)
  }

  /** Everything the run keeps at every step once the requirements file was read. */
  ghost predicate Sane(env: LegacyEnv, c: Config<Stage, LegacyCounter>) {
    Tallied(c.state, c.trace) && Logged(env, c.state, c.trace, c.notified) && Placed(c.at, c.trace)
  }

  /** The counters follow the nodes: a node raises exactly its own counter. */
  lemma TalliedStep(env: LegacyEnv, n: Stage, s: LegacyState, t: LegacyState, trace: seq<Stage>)
    requires env.requirements.Some? && Tallied(s, trace) && Complete(t)
    requires n == GetUserRequirements ==> t == s.(texts := s.texts[UserRequirement := env.requirements.value])
    requires n != GetUserRequirements ==> Frame(s, t, Output(n), Bumps(n))
    ensures Tallied(t, trace + [n])
  {
    assert multiset(trace + [n]) == multiset(trace) + multiset{n};
    forall k: LegacyCounter ensures t.counters[k] == Tally(trace + [n], k) {
      BumpsCounted(n, k);
    }
  }

  /** The transcript follows the nodes. */
  lemma LoggedStep(env: LegacyEnv, c: Config<Stage, LegacyCounter>, t: LegacyState)
    requires env.requirements.Some? && Sane(env, c) && Complete(t) && c.at.To?
    requires c.at.node == GetUserRequirements ==>
      t == c.state.(texts := c.state.texts[UserRequirement := env.requirements.value])
    requires c.at.node != GetUserRequirements ==>
      Produces(env.wording, c.at.node, Gen(env, |c.trace|, c.at.node), c.state, t)
    ensures Logged(env, t, c.trace + [c.at.node], c.notified)
  {
    var n := c.at.node;
    var trace := c.trace + [n];
    assert multiset(trace) == multiset(c.trace) + multiset{n};
    if n != GetUserRequirements {
      var h := GetMessages(c.state);
      assert GetMessages(t)[..|h|] == h;
      assert GetMessages(t)[0] == h[0];
      OnlyFirstWritesRequirement(n);
    }
  }

  /**
   * The position facts carry over from node `n` to target `a` when `a` is
   * not the first node, a loop target is below its ceiling, and the run
   * does not move back before the design or the test-case loop.
   */
  lemma PlacedMove(n: Stage, a: Stage, trace: seq<Stage>)
    requires Placed(To(n), trace) && a != GetUserRequirements
    requires a == GenerateUserStories ==> multiset(trace + [n])[GenerateUserStories] < MaxIterations
    requires a == CreateDesignDoc ==> multiset(trace + [n])[CreateDesignDoc] < MaxIterations
    requires a == WriteTestCases ==> multiset(trace + [n])[WriteTestCases] < MaxIterations
    requires Position(a) < 3 ==> Position(n) < 3
    requires Position(a) < 8 ==> Position(n) < 8
    ensures Placed(To(a), trace + [n])
  {
    var next := trace + [n];
    assert multiset(next) == multiset(trace) + multiset{n};
    assert next[0] == if trace == [] then n else trace[0];
  }

  /** The last node's edge leads to the end, which keeps the position facts. */
  lemma PlacedEnd(trace: seq<Stage>)
    requires Placed(To(MaintenanceUpdates), trace)
    ensures Placed(End, trace + [MaintenanceUpdates])
  {
    var next := trace + [MaintenanceUpdates];
    assert multiset(next) == multiset(trace) + multiset{MaintenanceUpdates};
    assert next[0] == trace[0];
  }

  /** The position facts follow the edges. */
  lemma PlacedStep(n: Stage, t: LegacyState, trace: seq<Stage>)
    requires Placed(To(n), trace) && Tallied(t, trace + [n])
    ensures Placed(Follow(LegacyEdge(n), t), trace + [n])
  {
    if LegacyEdge(n).Conditional? {
      ReviewPlaced(n, t, trace);
    } else {
      DirectPlaced(n, t, trace);
    }
  }

  /** After a review the run goes to one of the two targets its condition picks between. */
  lemma ReviewPlaced(n: Stage, t: LegacyState, trace: seq<Stage>)
    requires LegacyEdge(n).Conditional?
    requires Placed(To(n), trace) && Tallied(t, trace + [n])
    ensures Placed(Follow(LegacyEdge(n), t), trace + [n])
  {
    var next := trace + [n];
    match n
    case PoReviewStories =>
      assert t.counters[StoriesCount] == multiset(next)[GenerateUserStories];
      StoriesPlaced(t, trace);
    case DesignDocReview =>
      assert t.counters[DesignDocReviewCount] == multiset(next)[CreateDesignDoc];
      DesignPlaced(t, trace);
    case CodeReviewer => CodeReviewPlaced(t, trace);
    case SecurityReview => SecurityPlaced(t, trace);
    case TestCaseReview =>
      assert t.counters[TestCaseCount] == multiset(next)[WriteTestCases];
      TestCasesPlaced(t, trace);
    case QaTesting => QaPlaced(t, trace);
  }

  /** The stories are redone only below the ceiling. */
  lemma StoriesPlaced(t: LegacyState, trace: seq<Stage>)
    requires Complete(t) && Placed(To(PoReviewStories), trace)
    requires t.counters[StoriesCount] == multiset(trace + [PoReviewStories])[GenerateUserStories]
    ensures Placed(Follow(LegacyEdge(PoReviewStories), t), trace + [PoReviewStories])
  {
    if Follow(LegacyEdge(PoReviewStories), t) == To(CreateDesignDoc) {
      PlacedMove(PoReviewStories, CreateDesignDoc, trace);
    } else {
      PlacedMove(PoReviewStories, GenerateUserStories, trace);
    }
  }

  /** The design document is redone only below the ceiling. */
  lemma DesignPlaced(t: LegacyState, trace: seq<Stage>)
    requires Complete(t) && Placed(To(DesignDocReview), trace)
    requires t.counters[DesignDocReviewCount] == multiset(trace + [DesignDocReview])[CreateDesignDoc]
    ensures Placed(Follow(LegacyEdge(DesignDocReview), t), trace + [DesignDocReview])
  {
    if Follow(LegacyEdge(DesignDocReview), t) == To(Coder) {
      PlacedMove(DesignDocReview, Coder, trace);
    } else {
      PlacedMove(DesignDocReview, CreateDesignDoc, trace);
    }
  }

  /** The code review goes forward or back to the coder. */
  lemma CodeReviewPlaced(t: LegacyState, trace: seq<Stage>)
    requires Complete(t) && Placed(To(CodeReviewer), trace)
    ensures Placed(Follow(LegacyEdge(CodeReviewer), t), trace + [CodeReviewer])
  {
    if Follow(LegacyEdge(CodeReviewer), t) == To(SecurityReview) {
      PlacedMove(CodeReviewer, SecurityReview, trace);
    } else {
      PlacedMove(CodeReviewer, Coder, trace);
    }
  }

  /** The security review goes forward to the first test cases, or back to the coder. */
  lemma SecurityPlaced(t: LegacyState, trace: seq<Stage>)
    requires Complete(t) && Placed(To(SecurityReview), trace)
    ensures Placed(Follow(LegacyEdge(SecurityReview), t), trace + [SecurityReview])
  {
    if Follow(LegacyEdge(SecurityReview), t) == To(WriteTestCases) {
      assert multiset(trace + [SecurityReview]) == multiset(trace) + multiset{SecurityReview};
      PlacedMove(SecurityReview, WriteTestCases, trace);
    } else {
      PlacedMove(SecurityReview, Coder, trace);
    }
  }

  /** The test cases are redone only below the ceiling. */
  lemma TestCasesPlaced(t: LegacyState, trace: seq<Stage>)
    requires Complete(t) && Placed(To(TestCaseReview), trace)
    requires t.counters[TestCaseCount] == multiset(trace + [TestCaseReview])[WriteTestCases]
    ensures Placed(Follow(LegacyEdge(TestCaseReview), t), trace + [TestCaseReview])
  {
    if Follow(LegacyEdge(TestCaseReview), t) == To(QaTesting) {
      PlacedMove(TestCaseReview, QaTesting, trace);
    } else {
      PlacedMove(TestCaseReview, WriteTestCases, trace);
    }
  }

  /** QA goes to deployment or to the fix node. */
  lemma QaPlaced(t: LegacyState, trace: seq<Stage>)
    requires Complete(t) && Placed(To(QaTesting), trace)
    ensures Placed(Follow(LegacyEdge(QaTesting), t), trace + [QaTesting])
  {
    if Follow(LegacyEdge(QaTesting), t) == To(Deployment) {
      PlacedMove(QaTesting, Deployment, trace);
    } else {
      PlacedMove(QaTesting, FixCodeAfterQa, trace);
    }
  }

  /** A fixed edge leads forward, or from the fix node back to QA. */
  lemma DirectPlaced(n: Stage, t: LegacyState, trace: seq<Stage>)
    requires LegacyEdge(n).Direct?
    requires Placed(To(n), trace) && Tallied(t, trace + [n])
    ensures Placed(Follow(LegacyEdge(n), t), trace + [n])
  {
    var next := trace + [n];
    match n
    case GetUserRequirements =>
      assert multiset(next)[GenerateUserStories] == 0 by {
        assert multiset(next) == multiset(trace) + multiset{n};
      }
      PlacedMove(n, GenerateUserStories, trace);
    case GenerateUserStories => PlacedMove(n, PoReviewStories, trace);
    case CreateDesignDoc => PlacedMove(n, DesignDocReview, trace);
    case Coder => PlacedMove(n, CodeReviewer, trace);
    case WriteTestCases => PlacedMove(n, TestCaseReview, trace);
    case FixCodeAfterQa => PlacedMove(n, QaTesting, trace);
    case Deployment => PlacedMove(n, MonitoringFeedback, trace);
    case MonitoringFeedback => PlacedMove(n, MaintenanceUpdates, trace);
    case MaintenanceUpdates => PlacedEnd(trace);
  }

  /** One step keeps the invariant. */
  lemma SaneStep(env: LegacyEnv, c: Config<Stage, LegacyCounter>) returns (next: Config<Stage, LegacyCounter>)
    requires env.requirements.Some? && Sane(env, c) && c.at.To? && |c.trace| < RecursionLimit
    ensures StepFrom(LegacyGraph(), LegacyExec(env), Decide, RecursionLimit, c) == Continue(next)
    ensures Sane(env, next)
    ensures next.trace == c.trace + [c.at.node] && next.at == Follow(LegacyEdge(c.at.node), next.state)
    ensures c.at.node != GetUserRequirements ==>
      Produces(env.wording, c.at.node, Gen(env, |c.trace|, c.at.node), c.state, next.state)
  {
    var n := c.at.node;
    var t := NodeStep(env, |c.trace|, n, c.state);
    StepFacts(env, c, t);
    next := Config(Follow(LegacyEdge(n), t), t, c.trace + [n], c.notified);
    TalliedStep(env, n, c.state, t, c.trace);
    LoggedStep(env, c, t);
    PlacedStep(n, t, c.trace);
  }

  /** The invariant holds where the run ends. */
  ghost predicate Settled(env: LegacyEnv, r: Run<Stage, LegacyCounter>) {
    && !r.outcome.Failed?
    && Tallied(r.outcome.state, r.trace)
    && Logged(env, r.outcome.state, r.trace, r.notified)
    && r.trace != [] && r.trace[0] == GetUserRequirements && multiset(r.trace)[GetUserRequirements] == 1
    && multiset(r.trace)[GenerateUserStories] <= MaxIterations
    && multiset(r.trace)[CreateDesignDoc] <= MaxIterations
    && multiset(r.trace)[WriteTestCases] <= MaxIterations
  }

  /** From any configuration that keeps the invariant, the run keeps it to the end and no node raises. */
  lemma {:induction false} RunKeeps(env: LegacyEnv, c: Config<Stage, LegacyCounter>)
    requires env.requirements.Some? && Sane(env, c) && |c.trace| <= RecursionLimit
    ensures Settled(env, RunFrom(LegacyGraph(), LegacyExec(env), Decide, RecursionLimit, c))
    decreases RecursionLimit - |c.trace|
  {
    if c.at.To? && |c.trace| < RecursionLimit {
      var next := SaneStep(env, c);
      RunKeeps(env, next);
    }
  }

  /** The initial configuration keeps the invariant. */
  lemma StartSane(env: LegacyEnv)
    ensures Sane(env, Start(LegacyGraph(), LegacyInitialState()))
  {
    var s := LegacyInitialState();
    forall k: LegacyCounter ensures s.counters[k] == Tally([], k) {
    }
  }

  /** What the invariant says about a run's end, spelled out. */
  lemma SettledFacts(env: LegacyEnv, r: Run<Stage, LegacyCounter>)
    requires env.requirements.Some? && Settled(env, r) && |r.trace| <= RecursionLimit
    ensures (r.outcome.Finished? || r.outcome.RecursionLimitReached?)
      && 1 <= |r.trace| <= RecursionLimit && r.trace[0] == GetUserRequirements
      && multiset(r.trace)[GetUserRequirements] == 1
      && multiset(r.trace)[GenerateUserStories] <= MaxIterations
      && multiset(r.trace)[CreateDesignDoc] <= MaxIterations
      && multiset(r.trace)[WriteTestCases] <= MaxIterations
      && Complete(r.outcome.state)
      && (forall k: LegacyCounter :: r.outcome.state.counters[k] == Tally(r.trace, k))
      && |GetMessages(r.outcome.state)| == 3 * |r.trace| - 2
      && GetMessages(r.outcome.state)[0] == Human(Greeting)
      && r.outcome.state.texts[UserRequirement] == env.requirements.value
      && r.notified == []
  {
  }

  /**
   * Every run with the requirements file present, whatever the generator
   * answers: no node raises and the run ends at the end marker or at the
   * recursion limit; the first node runs once, first; the user stories, the
   * design document and the test cases are written at most ten times each;
   * each counter holds how often its node ran; the transcript is the
   * greeting followed by three entries per generating node; and the
   * requirement is the file's contents.
   */
  lemma LegacyRunSafe(env: LegacyEnv)
    requires env.requirements.Some?
    ensures var r := LegacyRun(env);
      && (r.outcome.Finished? || r.outcome.RecursionLimitReached?)
      && 1 <= |r.trace| <= RecursionLimit && r.trace[0] == GetUserRequirements
      && multiset(r.trace)[GetUserRequirements] == 1
      && multiset(r.trace)[GenerateUserStories] <= MaxIterations
      && multiset(r.trace)[CreateDesignDoc] <= MaxIterations
      && multiset(r.trace)[WriteTestCases] <= MaxIterations
      && Complete(r.outcome.state)
      && (forall k: LegacyCounter :: r.outcome.state.counters[k] == Tally(r.trace, k))
      && |GetMessages(r.outcome.state)| == 3 * |r.trace| - 2
      && GetMessages(r.outcome.state)[0] == Human(Greeting)
      && r.outcome.state.texts[UserRequirement] == env.requirements.value
  {
    StartSane(env);
    RunKeeps(env, Start(LegacyGraph(), LegacyInitialState()));
    SettledFacts(env, LegacyRun(env));
  }

  // ---- A QA that never passes ----

  /** QA never passes: the trimmed QA reply never carries its marker. */
  ghost predicate QaNeverPasses(env: LegacyEnv) {
    forall step: nat, p :: !Approved(QaTestingKey, Strip(env.oracle(step, QaTesting, p)))
  }

  /** The run has not reached deployment and is not at the end. */
  ghost predicate BeforeDeployment(c: Config<Stage, LegacyCounter>) {
    && c.at.To? && c.at.node !in {Deployment, MonitoringFeedback, MaintenanceUpdates}
    && Deployment !in c.trace
  }

  /** Short of QA, every edge stays short of deployment, whatever the record. */
  lemma StaysBeforeDeployment(n: Stage, t: LegacyState)
    requires Complete(t) && n !in {QaTesting, Deployment, MonitoringFeedback, MaintenanceUpdates}
    ensures Follow(LegacyEdge(n), t).To?
    ensures Follow(LegacyEdge(n), t).node !in {Deployment, MonitoringFeedback, MaintenanceUpdates}
  {
    match n
    case GetUserRequirements =>
    case GenerateUserStories =>
    case PoReviewStories =>
    case CreateDesignDoc =>
    case DesignDocReview =>
    case Coder =>
    case CodeReviewer =>
    case SecurityReview =>
    case WriteTestCases =>
    case TestCaseReview =>
    case FixCodeAfterQa =>
  }

  /** When QA never passes, the QA node sends the run to the fix node. */
  lemma QaAnswerLoops(env: LegacyEnv, step: nat, s: LegacyState, t: LegacyState)
    requires QaNeverPasses(env) && Complete(t)
    requires Produces(env.wording, QaTesting, Gen(env, step, QaTesting), s, t)
    ensures Follow(LegacyEdge(QaTesting), t) == To(FixCodeAfterQa)
  {
    var h := GetMessages(s);
    AnswerFromOracle(env, step, QaTesting, s, t);
    assert !Approved(QaTestingKey, t.texts[QaTestingResult]);
  }

  /** One step while QA keeps failing. */
  lemma LoopStep(env: LegacyEnv, c: Config<Stage, LegacyCounter>) returns (next: Config<Stage, LegacyCounter>)
    requires env.requirements.Some? && QaNeverPasses(env) && Sane(env, c) && BeforeDeployment(c)
    requires |c.trace| < RecursionLimit
    ensures StepFrom(LegacyGraph(), LegacyExec(env), Decide, RecursionLimit, c) == Continue(next)
    ensures Sane(env, next) && BeforeDeployment(next)
  {
    next := SaneStep(env, c);
    var n := c.at.node;
    if n == QaTesting {
      QaAnswerLoops(env, |c.trace|, c.state, next.state);
    } else {
      StaysBeforeDeployment(n, next.state);
    }
    BeforeNext(c, next);
  }

  /** A step that leaves the run short of deployment keeps it there. */
  lemma BeforeNext(c: Config<Stage, LegacyCounter>, next: Config<Stage, LegacyCounter>)
    requires BeforeDeployment(c) && next.trace == c.trace + [c.at.node]
    requires next.at.To? && next.at.node !in {Deployment, MonitoringFeedback, MaintenanceUpdates}
    ensures BeforeDeployment(next)
  {
  }

  /** While QA keeps failing the run never leaves the QA and fix loop, so it ends at the recursion limit. */
  lemma {:induction false} LoopFrom(env: LegacyEnv, c: Config<Stage, LegacyCounter>)
    requires env.requirements.Some? && QaNeverPasses(env) && Sane(env, c) && BeforeDeployment(c)
    requires |c.trace| <= RecursionLimit
    ensures var r := RunFrom(LegacyGraph(), LegacyExec(env), Decide, RecursionLimit, c);
      r.outcome.RecursionLimitReached? && |r.trace| == RecursionLimit && Deployment !in r.trace
    decreases RecursionLimit - |c.trace|
  {
    if |c.trace| < RecursionLimit {
      var next := LoopStep(env, c);
      LoopFrom(env, next);
    }
  }

  /**
   * If QA never passes, nothing stops the QA and fix loop: the run runs a
   * full hundred nodes, never deploys, and ends with the recursion-limit
   * error, so `run_workflow` returns no dictionary.
   */
  lemma LegacyQaFailureHitsLimit(env: LegacyEnv)
    requires env.requirements.Some? && QaNeverPasses(env)
    ensures var r := LegacyRun(env);
      r.outcome.RecursionLimitReached? && |r.trace| == RecursionLimit && Deployment !in r.trace
  {
    StartSane(env);
    LoopFrom(env, Start(LegacyGraph(), LegacyInitialState()));
  }
}
