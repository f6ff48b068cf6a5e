/**
 * The live workflow graph: the six condition functions that pick where a
 * review sends the run, the node and edge table, and the building code that
 * registers them with the runtime.
 */
module Workflow {
  import opened Wrappers
  import opened State
  import opened Common
  import opened Engine
  import opened WorkflowNodes

  /** The six condition functions, as registered with `add_conditional_edges`. */
  datatype Cond =
    | StoriesCondition | DesignDocCondition | CodeReviewCondition
    | SecurityReviewCondition | TestCaseCondition | QaCondition

  /** `review_condition_stories`: to the design doc, or back to the stories. */
  function ReviewConditionStories(s: GraphState): (r: Stage)
    ensures r == CreateDesignDoc || r == GenerateUserStories
    ensures r == GenerateUserStories <==>
      !Approved(UserStoriesKey, GetText(s, PoReviewComment, "")) && GetCounter(s, StoriesCorrectionIteration, 0) < MaxIterations
  {
    Gate(Approved(UserStoriesKey, GetText(s, PoReviewComment, "")), GetCounter(s, StoriesCorrectionIteration, 0),
         CreateDesignDoc, GenerateUserStories)
  }

  /** `review_condition_design_doc`: to the coder, or back to the design doc. */
  function ReviewConditionDesignDoc(s: GraphState): (r: Stage)
    ensures r == Coder || r == CreateDesignDoc
    ensures r == CreateDesignDoc <==>
      !Approved(DesignDocKey, GetText(s, DesignDocReviewComments, "")) && GetCounter(s, DesignDocReviewIteration, 0) < MaxIterations
  {
    Gate(Approved(DesignDocKey, GetText(s, DesignDocReviewComments, "")), GetCounter(s, DesignDocReviewIteration, 0),
         Coder, CreateDesignDoc)
  }

  /** `review_condition_code_review`: to the security review, or back to the coder. */
  function ReviewConditionCodeReview(s: GraphState): (r: Stage)
    ensures r == SecurityReview || r == Coder
    ensures r == Coder <==>
      !Approved(CodeReviewKey, GetText(s, CodeReviewComments, "")) && GetCounter(s, CodeReviewIteration, 0) < MaxIterations
  {
    Gate(Approved(CodeReviewKey, GetText(s, CodeReviewComments, "")), GetCounter(s, CodeReviewIteration, 0),
         SecurityReview, Coder)
  }

  /** `review_condition_security_review`: to the test cases, or back to the coder (not to itself). */
  function ReviewConditionSecurityReview(s: GraphState): (r: Stage)
    ensures r == WriteTestCases || r == Coder
    ensures r == Coder <==>
      !Approved(SecurityReviewKey, GetText(s, SecurityReviewComments, "")) && GetCounter(s, SecurityReviewIteration, 0) < MaxIterations
  {
    Gate(Approved(SecurityReviewKey, GetText(s, SecurityReviewComments, "")), GetCounter(s, SecurityReviewIteration, 0),
         WriteTestCases, Coder)
  }

  /** `review_condition_testcase_review`: to QA, or back to the test cases. */
  function ReviewConditionTestcaseReview(s: GraphState): (r: Stage)
    ensures r == QaTesting || r == WriteTestCases
    ensures r == WriteTestCases <==>
      !Approved(TestCaseReviewKey, GetText(s, TestCaseReviewComments, "")) && GetCounter(s, TestCaseReviewIteration, 0) < MaxIterations
  {
    Gate(Approved(TestCaseReviewKey, GetText(s, TestCaseReviewComments, "")), GetCounter(s, TestCaseReviewIteration, 0),
         QaTesting, WriteTestCases)
  }

  /** `qa_testing_condition`: to deployment when QA passed, else back to the coder; no counter is consulted. */
  function QaTestingCondition(s: GraphState): (r: Stage)
    ensures r == Deployment || r == Coder
    ensures r == Deployment <==> Approved(QaTestingKey, GetText(s, QaTestingResult, ""))
  {
    if Approved(QaTestingKey, GetText(s, QaTestingResult, "")) then Deployment else Coder
  }

  /** The condition function registered under `k`; none of them raises. */
  function Decide(k: Cond, s: GraphState): (r: Result<Target<Stage>, NodeError>)
    ensures r.Success? && r.value.To?
  {
    Success(To(match k
      case StoriesCondition => ReviewConditionStories(s)
      case DesignDocCondition => ReviewConditionDesignDoc(s)
      case CodeReviewCondition => ReviewConditionCodeReview(s)
      case SecurityReviewCondition => ReviewConditionSecurityReview(s)
      case TestCaseCondition => ReviewConditionTestcaseReview(s)
      case QaCondition => QaTestingCondition(s)))
  }

  /** The nodes in registration order. */
  const LiveNodes: seq<Stage> := [
    GetUserRequirements, GenerateUserStories, PoReviewStories, CreateDesignDoc, DesignDocReview,
    Coder, CodeReviewer, SecurityReview, WriteTestCases, TestCaseReview, QaTesting,
    Deployment, MonitoringFeedback, MaintenanceUpdates]

  /** The edge rules in registration order. */
  const LiveRules: seq<(Stage, Edge<Stage, Cond>)> := [
    (GetUserRequirements, Direct(To(GenerateUserStories))),
    (GenerateUserStories, Direct(To(PoReviewStories))),
    (PoReviewStories, Conditional(StoriesCondition)),
    (CreateDesignDoc, Direct(To(DesignDocReview))),
    (DesignDocReview, Conditional(DesignDocCondition)),
    (Coder, Direct(To(CodeReviewer))),
    (CodeReviewer, Conditional(CodeReviewCondition)),
    (SecurityReview, Conditional(SecurityReviewCondition)),
    (WriteTestCases, Direct(To(TestCaseReview))),
    (TestCaseReview, Conditional(TestCaseCondition)),
    (QaTesting, Conditional(QaCondition)),
    (Deployment, Direct(To(MonitoringFeedback))),
    (MonitoringFeedback, Direct(To(MaintenanceUpdates))),
    (MaintenanceUpdates, Direct(End))]

  /** The compiled live graph. */
  function LiveGraph(): Graph<Stage, Cond> {
    Graph(GetUserRequirements, LiveNodes, LiveRules)
  }

  /** The fourteen `add_node` calls of `build_workflow_graph`. */
  method AddLiveNodes(builder: StateGraph<Stage, Cond>)
    modifies builder
    ensures builder.nodes == old(builder.nodes) + LiveNodes
    ensures builder.entry == old(builder.entry) && builder.rules == old(builder.rules)
  {
    AddLiveBuildNodes(builder);
    AddLiveReleaseNodes(builder);
    assert LiveNodes[..8] + LiveNodes[8..] == LiveNodes;
  }

  /** The design and build nodes, from the requirements to the security review. */
  method AddLiveBuildNodes(builder: StateGraph<Stage, Cond>)
    modifies builder
    ensures builder.nodes == old(builder.nodes) + LiveNodes[..8]
    ensures builder.entry == old(builder.entry) && builder.rules == old(builder.rules)
  {
    builder.AddNode(GetUserRequirements);
    builder.AddNode(GenerateUserStories);
    builder.AddNode(PoReviewStories);
    builder.AddNode(CreateDesignDoc);
    builder.AddNode(DesignDocReview);
    builder.AddNode(Coder);
    builder.AddNode(CodeReviewer);
    builder.AddNode(SecurityReview);
  }

  /** The test and release nodes, from the test cases to maintenance. */
  method AddLiveReleaseNodes(builder: StateGraph<Stage, Cond>)
    modifies builder
    ensures builder.nodes == old(builder.nodes) + LiveNodes[8..]
    ensures builder.entry == old(builder.entry) && builder.rules == old(builder.rules)
  {
    builder.AddNode(WriteTestCases);
    builder.AddNode(TestCaseReview);
    builder.AddNode(QaTesting);
    builder.AddNode(Deployment);
    builder.AddNode(MonitoringFeedback);
    builder.AddNode(MaintenanceUpdates);
  }

  /** The fixed and conditional edges of `build_workflow_graph`, in the order it adds them. */
  method AddLiveEdges(builder: StateGraph<Stage, Cond>)
    modifies builder
    ensures builder.rules == old(builder.rules) + LiveRules
    ensures builder.entry == old(builder.entry) && builder.nodes == old(builder.nodes)
  {
    AddLiveBuildEdges(builder);
    AddLiveReleaseEdges(builder);
    assert LiveRules[..8] + LiveRules[8..] == LiveRules;
  }

  /** The edges leaving the design and build nodes. */
  method AddLiveBuildEdges(builder: StateGraph<Stage, Cond>)
    modifies builder
    ensures builder.rules == old(builder.rules) + LiveRules[..8]
    ensures builder.entry == old(builder.entry) && builder.nodes == old(builder.nodes)
  {
    builder.AddEdge(GetUserRequirements, To(GenerateUserStories));
    builder.AddEdge(GenerateUserStories, To(PoReviewStories));
    builder.AddConditionalEdges(PoReviewStories, StoriesCondition);
    builder.AddEdge(CreateDesignDoc, To(DesignDocReview));
    builder.AddConditionalEdges(DesignDocReview, DesignDocCondition);
    builder.AddEdge(Coder, To(CodeReviewer));
    builder.AddConditionalEdges(CodeReviewer, CodeReviewCondition);
    builder.AddConditionalEdges(SecurityReview, SecurityReviewCondition);
  }

  /** The edges leaving the test and release nodes. */
  method AddLiveReleaseEdges(builder: StateGraph<Stage, Cond>)
    modifies builder
    ensures builder.rules == old(builder.rules) + LiveRules[8..]
    ensures builder.entry == old(builder.entry) && builder.nodes == old(builder.nodes)
  {
    builder.AddEdge(WriteTestCases, To(TestCaseReview));
    builder.AddConditionalEdges(TestCaseReview, TestCaseCondition);
    builder.AddConditionalEdges(QaTesting, QaCondition);
    builder.AddEdge(Deployment, To(MonitoringFeedback));
    builder.AddEdge(MonitoringFeedback, To(MaintenanceUpdates));
    builder.AddEdge(MaintenanceUpdates, End);
  }

  /**
   * `build_workflow_graph`: register the fourteen nodes, the start edge at
   * `get_user_requirements`, the fixed and the conditional edges, then
   * compile; the builder accepts the result and it is the live graph.
   */
  method BuildWorkflowGraph() returns (r: Result<Graph<Stage, Cond>, BuildError>)
    ensures r == Success(LiveGraph())
  {
    var builder := new StateGraph<Stage, Cond>();
    AddLiveNodes(builder);
    builder.AddStartEdge(GetUserRequirements);
    AddLiveEdges(builder);
    LiveGraphCompiles(builder);
    r := builder.Compile();
  }

  /** A builder holding the live nodes, the start edge and the live rules compiles to the live graph. */
  lemma LiveGraphCompiles(builder: StateGraph<Stage, Cond>)
    requires builder.nodes == LiveNodes && builder.entry == Some(GetUserRequirements) && builder.rules == LiveRules
    ensures builder.Compile() == Success(LiveGraph())
  {
    LiveGraphWellFormed();
    assert GetUserRequirements == LiveNodes[0];
  }

  /**
   * The edge that leaves each node, written node by node: the reading of the
   * registration-ordered table that the run proofs use.
   */
  function LiveEdge(n: Stage): Edge<Stage, Cond> {
    match n
    case GetUserRequirements => Direct(To(GenerateUserStories))
    case GenerateUserStories => Direct(To(PoReviewStories))
    case PoReviewStories => Conditional(StoriesCondition)
    case CreateDesignDoc => Direct(To(DesignDocReview))
    case DesignDocReview => Conditional(DesignDocCondition)
    case Coder => Direct(To(CodeReviewer))
    case CodeReviewer => Conditional(CodeReviewCondition)
    case SecurityReview => Conditional(SecurityReviewCondition)
    case WriteTestCases => Direct(To(TestCaseReview))
    case TestCaseReview => Conditional(TestCaseCondition)
    case QaTesting => Conditional(QaCondition)
    case Deployment => Direct(To(MonitoringFeedback))
    case MonitoringFeedback => Direct(To(MaintenanceUpdates))
    case MaintenanceUpdates => Direct(End)
  }

  /** A stage's position in the registration order. */
  function Position(n: Stage): nat {
    match n
    case GetUserRequirements => 0
    case GenerateUserStories => 1
    case PoReviewStories => 2
    case CreateDesignDoc => 3
    case DesignDocReview => 4
    case Coder => 5
    case CodeReviewer => 6
    case SecurityReview => 7
    case WriteTestCases => 8
    case TestCaseReview => 9
    case QaTesting => 10
    case Deployment => 11
    case MonitoringFeedback => 12
    case MaintenanceUpdates => 13
  }

  /** Node `i` and the source of rule `i` are both the stage at position `i`. */
  lemma Positions()
    ensures |LiveNodes| == |LiveRules| == 14
    ensures forall i :: 0 <= i < 14 ==> LiveRules[i].0 == LiveNodes[i] && Position(LiveNodes[i]) == i
    ensures forall n: Stage :: Position(n) < 14 && LiveNodes[Position(n)] == n
  {
  }

  /** The rule registered for `n` is the one at its position. */
  lemma RuleOf(n: Stage)
    ensures RuleFor(LiveRules, n) == Some(LiveRules[Position(n)].1)
  {
    Positions();
    RuleForFirst(LiveRules, n, Position(n));
  }

  /** The rule at a node's position carries the edge `LiveEdge` names for it. */
  lemma RuleEdge(n: Stage)
    ensures Position(n) < |LiveRules| && LiveRules[Position(n)].1 == LiveEdge(n)
  {
    match n
    case GetUserRequirements =>
    case GenerateUserStories =>
    case PoReviewStories =>
    case CreateDesignDoc =>
    case DesignDocReview =>
    case Coder =>
    case CodeReviewer =>
    case SecurityReview =>
    case WriteTestCases =>
    case TestCaseReview =>
    case QaTesting =>
    case Deployment =>
    case MonitoringFeedback =>
    case MaintenanceUpdates =>
  }

  /** The registered table gives every node exactly the edge `LiveEdge` says. */
  lemma LiveNext(n: Stage)
    ensures RuleFor(LiveRules, n) == Some(LiveEdge(n))
  {
    RuleOf(n);
    RuleEdge(n);
  }

  /**
   * The edge table: every node has exactly one outgoing rule, the one
   * `LiveEdge` names, and `maintenance_updates` is the only node whose edge
   * leads to the end.
   */
  lemma EdgeTable()
    ensures forall i, j :: 0 <= i < j < |LiveRules| ==> LiveRules[i].0 != LiveRules[j].0
    ensures forall n: Stage :: RuleFor(LiveRules, n) == Some(LiveEdge(n))
    ensures forall n: Stage :: LiveEdge(n) == Direct(End) <==> n == MaintenanceUpdates
  {
    Positions();
    forall i, j | 0 <= i < j < |LiveRules| ensures LiveRules[i].0 != LiveRules[j].0 {
      assert Position(LiveRules[i].0) == i && Position(LiveRules[j].0) == j;
    }
    forall n: Stage ensures RuleFor(LiveRules, n) == Some(LiveEdge(n)) && (LiveEdge(n) == Direct(End) <==> n == MaintenanceUpdates) {
      LiveNext(n);
      EndEdge(n);
    }
  }

  /** Only `maintenance_updates` has the fixed edge to the end. */
  lemma EndEdge(n: Stage)
    ensures LiveEdge(n) == Direct(End) <==> n == MaintenanceUpdates
  {
    match n
    case GetUserRequirements =>
    case GenerateUserStories =>
    case PoReviewStories =>
    case CreateDesignDoc =>
    case DesignDocReview =>
    case Coder =>
    case CodeReviewer =>
    case SecurityReview =>
    case WriteTestCases =>
    case TestCaseReview =>
    case QaTesting =>
    case Deployment =>
    case MonitoringFeedback =>
    case MaintenanceUpdates =>
  }

  /** After any node and on any record, the run ends exactly when that node is `maintenance_updates`. */
  lemma OnlyExit(n: Stage, s: GraphState)
    ensures NextTarget(LiveGraph(), Decide, n, s) == Success(End) <==> n == MaintenanceUpdates
  {
    LiveNext(n);
    if LiveEdge(n).Conditional? {
      assert Decide(LiveEdge(n).cond, s).value.To?;
    }
  }

  /** The compiled graph passes the builder's checks: distinct nodes, every edge between registered nodes. */
  lemma LiveGraphWellFormed()
    ensures forall i, j :: 0 <= i < j < |LiveNodes| ==> LiveNodes[i] != LiveNodes[j]
    ensures forall i :: 0 <= i < |LiveRules| ==> LiveRules[i].0 in LiveNodes
    ensures forall i :: 0 <= i < |LiveRules| && LiveRules[i].1.Direct? && LiveRules[i].1.target.To? ==> LiveRules[i].1.target.node in LiveNodes
  {
    Positions();
  }

  /** `qa_testing_condition` reads no counter. */
  lemma QaIgnoresCounters(s: GraphState, counters: map<Counter, int>)
    ensures QaTestingCondition(s) == QaTestingCondition(s.(counters := counters))
  {
  }

  /** Approval always advances, whatever the counter. */
  lemma ApprovalAdvances(s: GraphState)
    ensures Approved(UserStoriesKey, GetText(s, PoReviewComment, "")) ==> ReviewConditionStories(s) == CreateDesignDoc
    ensures Approved(DesignDocKey, GetText(s, DesignDocReviewComments, "")) ==> ReviewConditionDesignDoc(s) == Coder
    ensures Approved(CodeReviewKey, GetText(s, CodeReviewComments, "")) ==> ReviewConditionCodeReview(s) == SecurityReview
    ensures Approved(SecurityReviewKey, GetText(s, SecurityReviewComments, "")) ==> ReviewConditionSecurityReview(s) == WriteTestCases
    ensures Approved(TestCaseReviewKey, GetText(s, TestCaseReviewComments, "")) ==> ReviewConditionTestcaseReview(s) == QaTesting
  {
  }

  /** At or above the ceiling every counted review moves forward, approved or not. */
  lemma ForcedAdvance(s: GraphState)
    ensures GetCounter(s, StoriesCorrectionIteration, 0) >= MaxIterations ==> ReviewConditionStories(s) == CreateDesignDoc
    ensures GetCounter(s, DesignDocReviewIteration, 0) >= MaxIterations ==> ReviewConditionDesignDoc(s) == Coder
    ensures GetCounter(s, CodeReviewIteration, 0) >= MaxIterations ==> ReviewConditionCodeReview(s) == SecurityReview
    ensures GetCounter(s, SecurityReviewIteration, 0) >= MaxIterations ==> ReviewConditionSecurityReview(s) == WriteTestCases
    ensures GetCounter(s, TestCaseReviewIteration, 0) >= MaxIterations ==> ReviewConditionTestcaseReview(s) == QaTesting
  {
  }

  /** An absent review text is never an approval, and an absent counter reads as 0 (below the ceiling). */
  lemma AbsentKeys(s: GraphState)
    requires PoReviewComment !in s.texts && StoriesCorrectionIteration !in s.counters
    ensures ReviewConditionStories(s) == GenerateUserStories
  {
    MarkerApproves(UserStoriesKey, Marker(UserStoriesKey));
  }
}
