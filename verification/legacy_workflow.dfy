/**
 * The older version's graph: its condition functions, which index the
 * counter they print and most of the review texts they test (so a record
 * without them raises), the QA condition that sends a failed QA to the
 * separate fix node, and the building code that registers the fifteen
 * nodes and their edges.
 */
module LegacyWorkflow {
  import opened Wrappers
  import opened State
  import opened Engine
  import opened LegacyNodes

  /** The six condition functions, as registered with `add_conditional_edges`. */
  datatype Cond =
    | StoriesCondition | DesignDocCondition | CodeReviewCondition
    | SecurityReviewCondition | TestCaseCondition | QaCondition

  /**
   * A counted review condition: index counter `c` (its value is printed
   * first), read the review text `f` (with `state[f]` when `indexed`, with
   * `state.get(f, '')` otherwise), then advance when the lower-cased text
   * holds the review's phrase (the conditions lower-case the same phrases
   * as the marker table), retry below the ceiling, and advance anyway at or
   * above it.
   */
  function CountedReview(s: LegacyState, c: LegacyCounter, f: TextField, indexed: bool, key: MarkerKey,
                         advance: Stage, retry: Stage): (r: Result<Stage, NodeError>)
    requires advance != retry
    ensures r.Failure? <==> c !in s.counters || (indexed && f !in s.texts)
    ensures r.Failure? ==> r.error == KeyError(if c !in s.counters then LegacyCounterKey(c) else TextKey(f))
    ensures r.Success? ==> r.value == advance || r.value == retry
    ensures r.Success? ==> (r.value == retry <==> !Approved(key, GetText(s, f, "")) && s.counters[c] < MaxIterations)
  {
    match IndexCounter(s, c, LegacyCounterKey(c))
    case Failure(e) => Failure(e)
    case Success(count) =>
      var review := if indexed then Index(s, f) else Success(GetText(s, f, ""));
      match review
      case Failure(e) => Failure(e)
      case Success(text) => Success(Gate(Approved(key, text), count, advance, retry))
  }

  /** `qa_testing_condition`: indexes the QA result; to deployment when it passed, else to the fix node. */
  function QaTestingCondition(s: LegacyState): (r: Result<Stage, NodeError>)
    ensures r.Failure? <==> QaTestingResult !in s.texts
    ensures r.Failure? ==> r.error == KeyError(TextKey(QaTestingResult))
    ensures r.Success? ==> r.value == Deployment || r.value == FixCodeAfterQa
    ensures r.Success? ==> (r.value == Deployment <==> Approved(QaTestingKey, s.texts[QaTestingResult]))
  {
    match Index(s, QaTestingResult)
    case Failure(e) => Failure(e)
    case Success(text) => Success(if Approved(QaTestingKey, text) then Deployment else FixCodeAfterQa)
  }

  /**
   * The condition function registered under `k`: `review_condition_stories`
   * (reads the PO comment with a default), `review_condition_design_doc`
   * (counts with `design_doc_review_count`), `review_condition_code_review`,
   * `review_condition_security_review` (back to the coder),
   * `review_condition_testcase_review` and `qa_testing_condition`. On a
   * record with every key none of them raises.
   */
  function Decide(k: Cond, s: LegacyState): (r: Result<Target<Stage>, NodeError>)
    ensures r.Success? ==> r.value.To?
    ensures Complete(s) ==> r.Success?
  {
    var pick := match k
      case StoriesCondition =>
        CountedReview(s, StoriesCount, PoReviewComment, false, UserStoriesKey, CreateDesignDoc, GenerateUserStories)
      case DesignDocCondition =>
        CountedReview(s, DesignDocReviewCount, DesignDocReviewComments, true, DesignDocKey, Coder, CreateDesignDoc)
      case CodeReviewCondition =>
        CountedReview(s, CodeCount, CodeReviewComments, true, CodeReviewKey, SecurityReview, Coder)
      case SecurityReviewCondition =>
        CountedReview(s, SecurityCount, SecurityReviewComments, true, SecurityReviewKey, WriteTestCases, Coder)
      case TestCaseCondition =>
        CountedReview(s, TestCaseCount, TestCaseReviewComments, true, TestCaseReviewKey, QaTesting, WriteTestCases)
      case QaCondition => QaTestingCondition(s);
    if pick.Failure? then Failure(pick.error) else Success(To(pick.value))
  }

  /** A record without `stories_correction_iteration` makes the stories condition raise, whatever the review says. */
  lemma StoriesConditionNeedsCounter(s: LegacyState)
    requires StoriesCount !in s.counters
    ensures Decide(StoriesCondition, s) == Failure(KeyError("stories_correction_iteration"))
  {
  }

  /** The nodes in registration order. */
  const LegacyStages: seq<Stage> := [
    GetUserRequirements, GenerateUserStories, PoReviewStories, CreateDesignDoc, DesignDocReview,
    Coder, CodeReviewer, SecurityReview, WriteTestCases, TestCaseReview, QaTesting, FixCodeAfterQa,
    Deployment, MonitoringFeedback, MaintenanceUpdates]

  /** The edge rules in registration order. */
  const LegacyRules: seq<(Stage, Edge<Stage, Cond>)> := [
    (GetUserRequirements, Direct(To(GenerateUserStories))),
    (GenerateUserStories, Direct(To(PoReviewStories))),
    (PoReviewStories, Conditional(StoriesCondition)),
    (CreateDesignDoc, Direct(To(DesignDocReview))),
    (DesignDocReview, Conditional(DesignDocCondition)),
    (Coder, Direct(To(CodeReviewer))),
    (CodeReviewer, Conditional(CodeReviewCondition)),
    (SecurityReview, Conditional(SecurityReviewCondition)),
    (WriteTestCases, Direct(To(TestCaseReview))),
    (TestCaseReview, Conditional(TestCaseCondition)),
    (QaTesting, Conditional(QaCondition)),
    (FixCodeAfterQa, Direct(To(QaTesting))),
    (Deployment, Direct(To(MonitoringFeedback))),
    (MonitoringFeedback, Direct(To(MaintenanceUpdates))),
    (MaintenanceUpdates, Direct(End))]

  /** The compiled graph. */
  function LegacyGraph(): Graph<Stage, Cond> {
    Graph(GetUserRequirements, LegacyStages, LegacyRules)
  }

  /** The fifteen `add_node` calls. */
  method AddLegacyNodes(builder: StateGraph<Stage, Cond>)
    modifies builder
    ensures builder.nodes == old(builder.nodes) + LegacyStages
    ensures builder.entry == old(builder.entry) && builder.rules == old(builder.rules)
  {
    AddLegacyBuildNodes(builder);
    AddLegacyReleaseNodes(builder);
    assert LegacyStages[..8] + LegacyStages[8..] == LegacyStages;
  }

  /** The design and build nodes, from the requirements to the security review. */
  method AddLegacyBuildNodes(builder: StateGraph<Stage, Cond>)
    modifies builder
    ensures builder.nodes == old(builder.nodes) + LegacyStages[..8]
    ensures builder.entry == old(builder.entry) && builder.rules == old(builder.rules)
  {
    builder.AddNode(GetUserRequirements);
    builder.AddNode(GenerateUserStories);
    builder.AddNode(PoReviewStories);
    builder.AddNode(CreateDesignDoc);
    builder.AddNode(DesignDocReview);
    builder.AddNode(Coder);
    builder.AddNode(CodeReviewer);
    builder.AddNode(SecurityReview);
  }

  /** The test and release nodes, from the test cases to maintenance. */
  method AddLegacyReleaseNodes(builder: StateGraph<Stage, Cond>)
    modifies builder
    ensures builder.nodes == old(builder.nodes) + LegacyStages[8..]
    ensures builder.entry == old(builder.entry) && builder.rules == old(builder.rules)
  {
    builder.AddNode(WriteTestCases);
    builder.AddNode(TestCaseReview);
    builder.AddNode(QaTesting);
    builder.AddNode(FixCodeAfterQa);
    builder.AddNode(Deployment);
    builder.AddNode(MonitoringFeedback);
    builder.AddNode(MaintenanceUpdates);
  }

  /** The fixed and conditional edges, in the order the building code adds them. */
  method AddLegacyEdges(builder: StateGraph<Stage, Cond>)
    modifies builder
    ensures builder.rules == old(builder.rules) + LegacyRules
    ensures builder.entry == old(builder.entry) && builder.nodes == old(builder.nodes)
  {
    AddLegacyBuildEdges(builder);
    AddLegacyReleaseEdges(builder);
    assert LegacyRules[..8] + LegacyRules[8..] == LegacyRules;
  }

  /** The edges leaving the design and build nodes. */
  method AddLegacyBuildEdges(builder: StateGraph<Stage, Cond>)
    modifies builder
    ensures builder.rules == old(builder.rules) + LegacyRules[..8]
    ensures builder.entry == old(builder.entry) && builder.nodes == old(builder.nodes)
  {
    builder.AddEdge(GetUserRequirements, To(GenerateUserStories));
    builder.AddEdge(GenerateUserStories, To(PoReviewStories));
    builder.AddConditionalEdges(PoReviewStories, StoriesCondition);
    builder.AddEdge(CreateDesignDoc, To(DesignDocReview));
    builder.AddConditionalEdges(DesignDocReview, DesignDocCondition);
    builder.AddEdge(Coder, To(CodeReviewer));
    builder.AddConditionalEdges(CodeReviewer, CodeReviewCondition);
    builder.AddConditionalEdges(SecurityReview, SecurityReviewCondition);
  }

  /** The edges leaving the test and release nodes. */
  method AddLegacyReleaseEdges(builder: StateGraph<Stage, Cond>)
    modifies builder
    ensures builder.rules == old(builder.rules) + LegacyRules[8..]
    ensures builder.entry == old(builder.entry) && builder.nodes == old(builder.nodes)
  {
    builder.AddEdge(WriteTestCases, To(TestCaseReview));
    builder.AddConditionalEdges(TestCaseReview, TestCaseCondition);
    builder.AddConditionalEdges(QaTesting, QaCondition);
    builder.AddEdge(FixCodeAfterQa, To(QaTesting));
    builder.AddEdge(Deployment, To(MonitoringFeedback));
    builder.AddEdge(MonitoringFeedback, To(MaintenanceUpdates));
    builder.AddEdge(MaintenanceUpdates, End);
  }

  /**
   * The module-level building code: register the fifteen nodes, the start
   * edge at `get_user_requirements_node` and the edges, then compile; the
   * builder accepts the result and it is the graph above.
   */
  method BuildLegacyGraph() returns (r: Result<Graph<Stage, Cond>, BuildError>)
    ensures r == Success(LegacyGraph())
  {
    var builder := new StateGraph<Stage, Cond>();
    AddLegacyNodes(builder);
    builder.AddStartEdge(GetUserRequirements);
    AddLegacyEdges(builder);
    LegacyGraphCompiles(builder);
    r := builder.Compile();
  }

  /** A builder holding the fifteen nodes, the start edge and the rules compiles to the graph above. */
  lemma LegacyGraphCompiles(builder: StateGraph<Stage, Cond>)
    requires builder.nodes == LegacyStages && builder.entry == Some(GetUserRequirements) && builder.rules == LegacyRules
    ensures builder.Compile() == Success(LegacyGraph())
  {
    LegacyGraphWellFormed();
    assert GetUserRequirements == LegacyStages[0];
  }

  /** The edge that leaves each node, written node by node. */
  function LegacyEdge(n: Stage): Edge<Stage, Cond> {
    match n
    case GetUserRequirements => Direct(To(GenerateUserStories))
    case GenerateUserStories => Direct(To(PoReviewStories))
    case PoReviewStories => Conditional(StoriesCondition)
    case CreateDesignDoc => Direct(To(DesignDocReview))
    case DesignDocReview => Conditional(DesignDocCondition)
    case Coder => Direct(To(CodeReviewer))
    case CodeReviewer => Conditional(CodeReviewCondition)
    case SecurityReview => Conditional(SecurityReviewCondition)
    case WriteTestCases => Direct(To(TestCaseReview))
    case TestCaseReview => Conditional(TestCaseCondition)
    case QaTesting => Conditional(QaCondition)
    case FixCodeAfterQa => Direct(To(QaTesting))
    case Deployment => Direct(To(MonitoringFeedback))
    case MonitoringFeedback => Direct(To(MaintenanceUpdates))
    case MaintenanceUpdates => Direct(End)
  }

  /** A node's position in the registration order. */
  function Position(n: Stage): nat {
    match n
    case GetUserRequirements => 0
    case GenerateUserStories => 1
    case PoReviewStories => 2
    case CreateDesignDoc => 3
    case DesignDocReview => 4
    case Coder => 5
    case CodeReviewer => 6
    case SecurityReview => 7
    case WriteTestCases => 8
    case TestCaseReview => 9
    case QaTesting => 10
    case FixCodeAfterQa => 11
    case Deployment => 12
    case MonitoringFeedback => 13
    case MaintenanceUpdates => 14
  }

  /** Node `i` and the source of rule `i` are both the node at position `i`. */
  lemma Positions()
    ensures |LegacyStages| == |LegacyRules| == 15
    ensures forall i :: 0 <= i < 15 ==> LegacyRules[i].0 == LegacyStages[i] && Position(LegacyStages[i]) == i
    ensures forall n: Stage :: Position(n) < 15 && LegacyStages[Position(n)] == n
  {
  }

  /** The rule registered for `n` is the one at its position. */
  lemma RuleOf(n: Stage)
    ensures RuleFor(LegacyRules, n) == Some(LegacyRules[Position(n)].1)
  {
    Positions();
    RuleForFirst(LegacyRules, n, Position(n));
  }

  /** The rule at a node's position carries the edge `LegacyEdge` names for it. */
  lemma RuleEdge(n: Stage)
    ensures Position(n) < |LegacyRules| && LegacyRules[Position(n)].1 == LegacyEdge(n)
  {
    match n
    case GetUserRequirements =>
    case GenerateUserStories =>
    case PoReviewStories =>
    case CreateDesignDoc =>
    case DesignDocReview =>
    case Coder =>
    case CodeReviewer =>
    case SecurityReview =>
    case WriteTestCases =>
    case TestCaseReview =>
    case QaTesting =>
    case FixCodeAfterQa =>
    case Deployment =>
    case MonitoringFeedback =>
    case MaintenanceUpdates =>
  }

  /** The registered table gives every node exactly the edge `LegacyEdge` says. */
  lemma LegacyNext(n: Stage)
    ensures RuleFor(LegacyRules, n) == Some(LegacyEdge(n))
  {
    RuleOf(n);
    RuleEdge(n);
  }

  /** Only `maintenance_updates_node` has the fixed edge to the end, and only the fix node the one back to QA. */
  lemma FixedEdges(n: Stage)
    ensures LegacyEdge(n) == Direct(End) <==> n == MaintenanceUpdates
    ensures LegacyEdge(n) == Direct(To(QaTesting)) <==> n == FixCodeAfterQa
  {
    match n
    case GetUserRequirements =>
    case GenerateUserStories =>
    case PoReviewStories =>
    case CreateDesignDoc =>
    case DesignDocReview =>
    case Coder =>
    case CodeReviewer =>
    case SecurityReview =>
    case WriteTestCases =>
    case TestCaseReview =>
    case QaTesting =>
    case FixCodeAfterQa =>
    case Deployment =>
    case MonitoringFeedback =>
    case MaintenanceUpdates =>
  }

  /**
   * The edge table: no node has two rules, each node has the edge
   * `LegacyEdge` names, the fix node leads back to QA, and only
   * `maintenance_updates_node` leads to the end.
   */
  lemma EdgeTable()
    ensures forall i, j :: 0 <= i < j < |LegacyRules| ==> LegacyRules[i].0 != LegacyRules[j].0
    ensures forall n: Stage :: RuleFor(LegacyRules, n) == Some(LegacyEdge(n))
    ensures forall n: Stage :: LegacyEdge(n) == Direct(End) <==> n == MaintenanceUpdates
    ensures forall n: Stage :: LegacyEdge(n) == Direct(To(QaTesting)) <==> n == FixCodeAfterQa
  {
    Positions();
    forall i, j | 0 <= i < j < |LegacyRules| ensures LegacyRules[i].0 != LegacyRules[j].0 {
      assert Position(LegacyRules[i].0) == i && Position(LegacyRules[j].0) == j;
    }
    forall n: Stage ensures RuleFor(LegacyRules, n) == Some(LegacyEdge(n))
                         && (LegacyEdge(n) == Direct(End) <==> n == MaintenanceUpdates)
                         && (LegacyEdge(n) == Direct(To(QaTesting)) <==> n == FixCodeAfterQa) {
      LegacyNext(n);
      FixedEdges(n);
    }
  }

  /** The compiled graph passes the builder's checks: distinct nodes, every edge between registered nodes. */
  lemma LegacyGraphWellFormed()
    ensures forall i, j :: 0 <= i < j < |LegacyStages| ==> LegacyStages[i] != LegacyStages[j]
    ensures forall i :: 0 <= i < |LegacyRules| ==> LegacyRules[i].0 in LegacyStages
    ensures forall i :: 0 <= i < |LegacyRules| && LegacyRules[i].1.Direct? && LegacyRules[i].1.target.To?
                        ==> LegacyRules[i].1.target.node in LegacyStages
  {
    Positions();
  }
}
