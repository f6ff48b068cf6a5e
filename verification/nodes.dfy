/**
 * The fourteen stage functions of the live workflow. Each one reads fields
 * of the record, asks the generator once (except the first stage, which
 * reads the requirements file), trims the reply, and returns the keys the
 * runtime merges back into the record.
 */
module WorkflowNodes {
  import opened Wrappers
  import opened PyStr
  import opened State
  import opened Common

  /** The fourteen stages, in the order the happy path visits them. */
  datatype Stage =
    | GetUserRequirements | GenerateUserStories | PoReviewStories
    | CreateDesignDoc | DesignDocReview
    | Coder | CodeReviewer | SecurityReview
    | WriteTestCases | TestCaseReview | QaTesting
    | Deployment | MonitoringFeedback | MaintenanceUpdates

  /**
   * What the stages depend on beyond the record: the generator (it may answer
   * differently at each step, and the stage says which model is called), the
   * prompt wording, and the contents of the requirements file, `None` when it
   * cannot be read.
   */
  datatype Env = Env(oracle: (nat, Stage, seq<Message>) -> string, wording: Wording<Stage>, requirements: Option<string>)

  /** What `read_file` yields when the requirements file cannot be read. */
  const NoRequirements: string := "No requirements found"

  /** The generator as stage `n`, run as the `step`-th node, sees it. */
  function Gen(env: Env, step: nat, n: Stage): seq<Message> -> string {
    p => env.oracle(step, n, p)
  }

  /**
   * How a stage cleans a reply: the user-stories and product-owner stages
   * trim it and drop a reasoning preamble; every other stage only trims it.
   */
  function Cleaned(n: Stage, raw: string): (r: string)
    ensures n !in {GenerateUserStories, PoReviewStories} ==> r == Strip(raw)
    ensures n in {GenerateUserStories, PoReviewStories} ==> r == ExtractContentAfterPattern(Strip(raw))
  {
    if n == GenerateUserStories || n == PoReviewStories then ExtractContentAfterPattern(Strip(raw)) else Strip(raw)
  }

  /** `Cleaned` as a value, for the exchange helper. */
  function Cleaner(n: Stage): string -> string {
    raw => Cleaned(n, raw)
  }

  /** The field a stage writes. */
  function OutputField(n: Stage): TextField {
    match n
    case GetUserRequirements => UserRequirement
    case GenerateUserStories => GeneratedUserStories
    case PoReviewStories => PoReviewComment
    case CreateDesignDoc => DesignDoc
    case DesignDocReview => DesignDocReviewComments
    case Coder => GeneratedCode
    case CodeReviewer => CodeReviewComments
    case SecurityReview => SecurityReviewComments
    case WriteTestCases => GeneratedTestCases
    case TestCaseReview => TestCaseReviewComments
    case QaTesting => QaTestingResult
    case Deployment => DeploymentPlan
    case MonitoringFeedback => MonitoringPlan
    case MaintenanceUpdates => MaintenancePlan
  }

  /** Only the first stage writes the requirement field. */
  lemma OnlyFirstWritesRequirement(n: Stage)
    ensures OutputField(n) == UserRequirement <==> n == GetUserRequirements
  {
    match n
    case GetUserRequirements =>
    case GenerateUserStories =>
    case PoReviewStories =>
    case CreateDesignDoc =>
    case DesignDocReview =>
    case Coder =>
    case CodeReviewer =>
    case SecurityReview =>
    case WriteTestCases =>
    case TestCaseReview =>
    case QaTesting =>
    case Deployment =>
    case MonitoringFeedback =>
    case MaintenanceUpdates =>
  }

  /** The counter a stage raises, if any. */
  function Bumps(n: Stage): Option<Counter> {
    match n
    case GenerateUserStories => Some(StoriesCorrectionIteration)
    case CreateDesignDoc => Some(DesignDocReviewIteration)
    case Coder => Some(CodeReviewIteration)
    case SecurityReview => Some(SecurityReviewIteration)
    case WriteTestCases => Some(TestCaseReviewIteration)
    case _ => None
  }

  /**
   * `t` is what a generating stage `n` leaves: only its output field and its
   * counter changed, and the transcript extended by its prompt pair and its
   * tagged answer, the answer being the cleaned reply to that prompt.
   */
  ghost predicate Produces(w: Wording<Stage>, n: Stage, gen: seq<Message> -> string, s: GraphState, t: GraphState) {
    && Frame(s, t, OutputField(n), Bumps(n))
    && t.messages.Some?
    && Said(w, n, gen, Cleaner(n), GetMessages(s), t.messages.value, t.texts[OutputField(n)])
  }

  /**
   * The `{**state, f: answer, c: c + 1, "messages": ...}` dictionary of a
   * generating stage whose interpolated values are `inputs`.
   */
  function Spread(w: Wording<Stage>, n: Stage, gen: seq<Message> -> string, s: GraphState, inputs: seq<string>): (u: GraphState)
    ensures Merge(s, u) == u
    ensures Produces(w, n, gen, s, u)
    ensures u.messages.value[|GetMessages(s)| + 1] == Human(w.task(n, inputs))
  {
    var t := Converse(w, n, inputs, gen, Cleaner(n), GetMessages(s));
    Rewrite(s, OutputField(n), t.output, Bumps(n), t.messages)
  }

  /**
   * `get_user_requirements_node`: only `user_requirement` is returned, set to
   * the file's contents or to the fallback text; the transcript is untouched.
   */
  function GetUserRequirementsNode(requirements: Option<string>, s: GraphState): (u: GraphState)
    ensures Merge(s, u).texts == s.texts[UserRequirement := requirements.GetOr(NoRequirements)]
    ensures Merge(s, u).counters == s.counters && Merge(s, u).messages == s.messages
    ensures u.messages.None? && u.counters == map[]
    ensures requirements.None? ==> Merge(s, u).texts[UserRequirement] == NoRequirements
  {
    Record(map[UserRequirement := requirements.GetOr(NoRequirements)], map[], None)
  }

  /**
   * The partial dictionary `generate_user_stories_node` returns: the
   * requirement, the stories and the bumped counter, with the fields it reads
   * with a default written back (the default when they were absent).
   */
  function StoriesUpdate(s: GraphState, requirement: string, stories: string, messages: seq<Message>): (u: GraphState)
    ensures u.texts.Keys == {UserRequirement, GeneratedUserStories, PoReviewComment, DesignDoc, DesignDocReviewComments}
    ensures u.texts[UserRequirement] == requirement && u.texts[GeneratedUserStories] == stories
    ensures u.texts[PoReviewComment] == GetText(s, PoReviewComment, "") && u.texts[DesignDoc] == GetText(s, DesignDoc, "")
    ensures u.texts[DesignDocReviewComments] == GetText(s, DesignDocReviewComments, "")
    ensures u.counters.Keys == {StoriesCorrectionIteration, DesignDocReviewIteration}
    ensures u.counters[StoriesCorrectionIteration] == GetCounter(s, StoriesCorrectionIteration, 0) + 1
    ensures u.counters[DesignDocReviewIteration] == GetCounter(s, DesignDocReviewIteration, 0)
    ensures u.messages == Some(messages)
  {
    Record(
      map[UserRequirement := requirement,
          GeneratedUserStories := stories,
          PoReviewComment := GetText(s, PoReviewComment, ""),
          DesignDoc := GetText(s, DesignDoc, ""),
          DesignDocReviewComments := GetText(s, DesignDocReviewComments, "")],
      map[StoriesCorrectionIteration := GetCounter(s, StoriesCorrectionIteration, 0) + 1,
          DesignDocReviewIteration := GetCounter(s, DesignDocReviewIteration, 0)],
      Some(messages))
  }

  /** On a record that has every field it writes back, the partial dictionary changes only the stories and their counter. */
  lemma StoriesUpdateFrame(s: GraphState, requirement: string, stories: string, messages: seq<Message>)
    requires Index(s, UserRequirement) == Success(requirement)
    requires PoReviewComment in s.texts && DesignDoc in s.texts && DesignDocReviewComments in s.texts
    requires DesignDocReviewIteration in s.counters
    ensures Frame(s, Merge(s, StoriesUpdate(s, requirement, stories, messages)), GeneratedUserStories, Some(StoriesCorrectionIteration))
  {
    MergeEcho(s, StoriesUpdate(s, requirement, stories, messages), GeneratedUserStories, stories, Some(StoriesCorrectionIteration));
  }

  /** The exchange recorded by `generate_user_stories_node`, merged through its partial dictionary, is an ordinary generating step. */
  lemma StoriesProduce(w: Wording<Stage>, gen: seq<Message> -> string, s: GraphState, requirement: string, t: Turn)
    requires Index(s, UserRequirement) == Success(requirement)
    requires PoReviewComment in s.texts && DesignDoc in s.texts && DesignDocReviewComments in s.texts
    requires DesignDocReviewIteration in s.counters
    requires Said(w, GenerateUserStories, gen, Cleaner(GenerateUserStories), GetMessages(s), t.messages, t.output)
    ensures Produces(w, GenerateUserStories, gen, s, Merge(s, StoriesUpdate(s, requirement, t.output, t.messages)))
  {
    StoriesUpdateFrame(s, requirement, t.output, t.messages);
  }

  /**
   * `generate_user_stories_node`: raises only when `user_requirement` is
   * absent. It returns a partial dictionary, so fields it reads with a default
   * come back filled with that default; on a record that has them, it is an
   * ordinary generating stage bumping `stories_correction_iteration`.
   */
  function GenerateUserStoriesNode(w: Wording<Stage>, gen: seq<Message> -> string, s: GraphState): (r: Result<GraphState, NodeError>)
    ensures r.Failure? <==> UserRequirement !in s.texts
    ensures r.Failure? ==> r.error == KeyError("user_requirement")
    ensures (r.Success? && PoReviewComment in s.texts && DesignDoc in s.texts && DesignDocReviewComments in s.texts &&
             DesignDocReviewIteration in s.counters) ==> Produces(w, GenerateUserStories, gen, s, Merge(s, r.value))
    ensures r.Success? ==>
      Prompted(w, GenerateUserStories, [GetText(s, UserRequirement, ""), GetText(s, PoReviewComment, "")], s, Merge(s, r.value))
    ensures r.Success? ==>
      var t := Merge(s, r.value);
      && StoriesCorrectionIteration in t.counters
      && t.counters[StoriesCorrectionIteration] == GetCounter(s, StoriesCorrectionIteration, 0) + 1
      && GetText(t, PoReviewComment, "?") == GetText(s, PoReviewComment, "")
      && GetText(t, DesignDoc, "?") == GetText(s, DesignDoc, "")
      && GetText(t, DesignDocReviewComments, "?") == GetText(s, DesignDocReviewComments, "")
      && GetCounter(t, DesignDocReviewIteration, -1) == GetCounter(s, DesignDocReviewIteration, 0)
  {
    var requirement :- Index(s, UserRequirement);
    var review := GetText(s, PoReviewComment, "");
    var t := Converse(w, GenerateUserStories, [requirement, review], gen, Cleaner(GenerateUserStories), GetMessages(s));
    // The returned dictionary reads `state["user_requirement"]` again: the same value.
    if PoReviewComment in s.texts && DesignDoc in s.texts && DesignDocReviewComments in s.texts &&
       DesignDocReviewIteration in s.counters then
      StoriesProduce(w, gen, s, requirement, t);
      Success(StoriesUpdate(s, requirement, t.output, t.messages))
    else
      Success(StoriesUpdate(s, requirement, t.output, t.messages))
  }

  /** `po_review_stories_node`. */
  function PoReviewStoriesNode(w: Wording<Stage>, gen: seq<Message> -> string, s: GraphState): (r: Result<GraphState, NodeError>)
    ensures r.Failure? <==> !Present(s, [UserRequirement, GeneratedUserStories])
    ensures r.Failure? ==> r.error == KeyError(TextKey(FirstAbsent(s, [UserRequirement, GeneratedUserStories])))
    ensures r.Success? ==> Produces(w, PoReviewStories, gen, s, Merge(s, r.value))
    ensures r.Success? ==> Prompted(w, PoReviewStories, [GetText(s, GeneratedUserStories, ""), GetText(s, UserRequirement, "")], s, Merge(s, r.value))
  {
    var values :- IndexAll(s, [UserRequirement, GeneratedUserStories]);
    var requirement := values[0];
    var stories := values[1];
    Success(Spread(w, PoReviewStories, gen, s, [stories, requirement]))
  }

  /** `create_design_doc_node`: bumps `design_doc_review_iteration`. */
  function CreateDesignDocNode(w: Wording<Stage>, gen: seq<Message> -> string, s: GraphState): (r: Result<GraphState, NodeError>)
    ensures r.Failure? <==> !Present(s, [UserRequirement, GeneratedUserStories])
    ensures r.Failure? ==> r.error == KeyError(TextKey(FirstAbsent(s, [UserRequirement, GeneratedUserStories])))
    ensures r.Success? ==> Produces(w, CreateDesignDoc, gen, s, Merge(s, r.value))
    ensures r.Success? ==> Prompted(w, CreateDesignDoc, [GetText(s, GeneratedUserStories, ""), GetText(s, UserRequirement, ""), GetText(s, DesignDocReviewComments, "")], s, Merge(s, r.value))
  {
    var values :- IndexAll(s, [UserRequirement, GeneratedUserStories]);
    var requirement := values[0];
    var stories := values[1];
    var comments := GetText(s, DesignDocReviewComments, "");
    Success(Spread(w, CreateDesignDoc, gen, s, [stories, requirement, comments]))
  }

  /** `design_doc_review_node`. */
  function DesignDocReviewNode(w: Wording<Stage>, gen: seq<Message> -> string, s: GraphState): (r: Result<GraphState, NodeError>)
    ensures r.Failure? <==> !Present(s, [UserRequirement, GeneratedUserStories, DesignDoc])
    ensures r.Failure? ==> r.error == KeyError(TextKey(FirstAbsent(s, [UserRequirement, GeneratedUserStories, DesignDoc])))
    ensures r.Success? ==> Produces(w, DesignDocReview, gen, s, Merge(s, r.value))
    ensures r.Success? ==> Prompted(w, DesignDocReview, [GetText(s, DesignDoc, ""), GetText(s, GeneratedUserStories, ""), GetText(s, UserRequirement, "")], s, Merge(s, r.value))
  {
    var values :- IndexAll(s, [UserRequirement, GeneratedUserStories, DesignDoc]);
    var requirement := values[0];
    var stories := values[1];
    var design := values[2];
    Success(Spread(w, DesignDocReview, gen, s, [design, stories, requirement]))
  }

  /** `coder_node`: bumps `code_review_iteration`; sees both reviews and the QA result. */
  function CoderNode(w: Wording<Stage>, gen: seq<Message> -> string, s: GraphState): (r: Result<GraphState, NodeError>)
    ensures r.Failure? <==> !Present(s, [UserRequirement, GeneratedUserStories, DesignDoc])
    ensures r.Failure? ==> r.error == KeyError(TextKey(FirstAbsent(s, [UserRequirement, GeneratedUserStories, DesignDoc])))
    ensures r.Success? ==> Produces(w, Coder, gen, s, Merge(s, r.value))
    ensures r.Success? ==> Prompted(w, Coder, [GetText(s, UserRequirement, ""), GetText(s, GeneratedUserStories, ""), GetText(s, DesignDoc, ""), GetText(s, CodeReviewComments, ""), GetText(s, SecurityReviewComments, ""), GetText(s, QaTestingResult, "")], s, Merge(s, r.value))
  {
    var values :- IndexAll(s, [UserRequirement, GeneratedUserStories, DesignDoc]);
    var requirement := values[0];
    var stories := values[1];
    var design := values[2];
    var review := GetText(s, CodeReviewComments, "");
    var security := GetText(s, SecurityReviewComments, "");
    var qa := GetText(s, QaTestingResult, "");
    Success(Spread(w, Coder, gen, s, [requirement, stories, design, review, security, qa]))
  }

  /** `code_reviewer_node`. */
  function CodeReviewerNode(w: Wording<Stage>, gen: seq<Message> -> string, s: GraphState): (r: Result<GraphState, NodeError>)
    ensures r.Failure? <==> !Present(s, [UserRequirement, GeneratedUserStories, DesignDoc, GeneratedCode])
    ensures r.Failure? ==> r.error == KeyError(TextKey(FirstAbsent(s, [UserRequirement, GeneratedUserStories, DesignDoc, GeneratedCode])))
    ensures r.Success? ==> Produces(w, CodeReviewer, gen, s, Merge(s, r.value))
    ensures r.Success? ==> Prompted(w, CodeReviewer, [GetText(s, GeneratedCode, ""), GetText(s, UserRequirement, ""), GetText(s, GeneratedUserStories, ""), GetText(s, DesignDoc, "")], s, Merge(s, r.value))
  {
    var values :- IndexAll(s, [UserRequirement, GeneratedUserStories, DesignDoc, GeneratedCode]);
    var requirement := values[0];
    var stories := values[1];
    var design := values[2];
    var code := values[3];
    Success(Spread(w, CodeReviewer, gen, s, [code, requirement, stories, design]))
  }

  /** `security_review_node`: bumps `security_review_iteration`. */
  function SecurityReviewNode(w: Wording<Stage>, gen: seq<Message> -> string, s: GraphState): (r: Result<GraphState, NodeError>)
    ensures r.Failure? <==> !Present(s, [UserRequirement, GeneratedUserStories, DesignDoc, GeneratedCode])
    ensures r.Failure? ==> r.error == KeyError(TextKey(FirstAbsent(s, [UserRequirement, GeneratedUserStories, DesignDoc, GeneratedCode])))
    ensures r.Success? ==> Produces(w, SecurityReview, gen, s, Merge(s, r.value))
    ensures r.Success? ==> Prompted(w, SecurityReview, [GetText(s, GeneratedCode, ""), GetText(s, UserRequirement, ""), GetText(s, GeneratedUserStories, ""), GetText(s, DesignDoc, "")], s, Merge(s, r.value))
  {
    var values :- IndexAll(s, [UserRequirement, GeneratedUserStories, DesignDoc, GeneratedCode]);
    var requirement := values[0];
    var stories := values[1];
    var design := values[2];
    var code := values[3];
    Success(Spread(w, SecurityReview, gen, s, [code, requirement, stories, design]))
  }

  /** `write_test_cases_node`: bumps `test_case_review_iteration`. */
  function WriteTestCasesNode(w: Wording<Stage>, gen: seq<Message> -> string, s: GraphState): (r: Result<GraphState, NodeError>)
    ensures r.Failure? <==> !Present(s, [UserRequirement, GeneratedUserStories, DesignDoc])
    ensures r.Failure? ==> r.error == KeyError(TextKey(FirstAbsent(s, [UserRequirement, GeneratedUserStories, DesignDoc])))
    ensures r.Success? ==> Produces(w, WriteTestCases, gen, s, Merge(s, r.value))
    ensures r.Success? ==> Prompted(w, WriteTestCases, [GetText(s, UserRequirement, ""), GetText(s, GeneratedUserStories, ""), GetText(s, DesignDoc, ""), GetText(s, SecurityReviewComments, ""), GetText(s, TestCaseReviewComments, "")], s, Merge(s, r.value))
  {
    var values :- IndexAll(s, [UserRequirement, GeneratedUserStories, DesignDoc]);
    var requirement := values[0];
    var stories := values[1];
    var design := values[2];
    var security := GetText(s, SecurityReviewComments, "");
    var review := GetText(s, TestCaseReviewComments, "");
    Success(Spread(w, WriteTestCases, gen, s, [requirement, stories, design, security, review]))
  }

  /** `test_case_review_node`. */
  function TestCaseReviewNode(w: Wording<Stage>, gen: seq<Message> -> string, s: GraphState): (r: Result<GraphState, NodeError>)
    ensures r.Failure? <==> !Present(s, [UserRequirement, GeneratedUserStories, DesignDoc, GeneratedTestCases])
    ensures r.Failure? ==> r.error == KeyError(TextKey(FirstAbsent(s, [UserRequirement, GeneratedUserStories, DesignDoc, GeneratedTestCases])))
    ensures r.Success? ==> Produces(w, TestCaseReview, gen, s, Merge(s, r.value))
    ensures r.Success? ==> Prompted(w, TestCaseReview, [GetText(s, GeneratedTestCases, ""), GetText(s, UserRequirement, ""), GetText(s, GeneratedUserStories, ""), GetText(s, DesignDoc, ""), GetText(s, SecurityReviewComments, "")], s, Merge(s, r.value))
  {
    var values :- IndexAll(s, [UserRequirement, GeneratedUserStories, DesignDoc, GeneratedTestCases]);
    var requirement := values[0];
    var stories := values[1];
    var design := values[2];
    var tests := values[3];
    var security := GetText(s, SecurityReviewComments, "");
    Success(Spread(w, TestCaseReview, gen, s, [tests, requirement, stories, design, security]))
  }

  /**
   * `qa_testing_node`: unlike the other stages it indexes its counter
   * `qa_testing_iteration` directly, so a record without it raises; it never
   * raises the counter.
   */
  function QaTestingNode(w: Wording<Stage>, gen: seq<Message> -> string, s: GraphState): (r: Result<GraphState, NodeError>)
    ensures r.Failure? <==> !Present(s, [UserRequirement, GeneratedCode, GeneratedTestCases]) || QaTestingIteration !in s.counters
    ensures r.Failure? ==> r.error == if !Present(s, [UserRequirement, GeneratedCode, GeneratedTestCases])
                                      then KeyError(TextKey(FirstAbsent(s, [UserRequirement, GeneratedCode, GeneratedTestCases])))
                                      else KeyError("qa_testing_iteration")
    ensures r.Success? ==> Produces(w, QaTesting, gen, s, Merge(s, r.value))
    ensures r.Success? ==> Prompted(w, QaTesting, [GetText(s, GeneratedTestCases, ""), GetText(s, GeneratedCode, ""), GetText(s, UserRequirement, "")], s, Merge(s, r.value))
  {
    var values :- IndexAll(s, [UserRequirement, GeneratedCode, GeneratedTestCases]);
    var requirement := values[0];
    var code := values[1];
    var tests := values[2];
    var _ :- IndexCounter(s, QaTestingIteration, "qa_testing_iteration");
    Success(Spread(w, QaTesting, gen, s, [tests, code, requirement]))
  }

  /** `deployment_node`. */
  function DeploymentNode(w: Wording<Stage>, gen: seq<Message> -> string, s: GraphState): (r: Result<GraphState, NodeError>)
    ensures r.Failure? <==> !Present(s, [UserRequirement, GeneratedCode])
    ensures r.Failure? ==> r.error == KeyError(TextKey(FirstAbsent(s, [UserRequirement, GeneratedCode])))
    ensures r.Success? ==> Produces(w, Deployment, gen, s, Merge(s, r.value))
    ensures r.Success? ==> Prompted(w, Deployment, [GetText(s, GeneratedCode, ""), GetText(s, UserRequirement, "")], s, Merge(s, r.value))
  {
    var values :- IndexAll(s, [UserRequirement, GeneratedCode]);
    var requirement := values[0];
    var code := values[1];
    Success(Spread(w, Deployment, gen, s, [code, requirement]))
  }

  /** `monitoring_feedback_node`. */
  function MonitoringFeedbackNode(w: Wording<Stage>, gen: seq<Message> -> string, s: GraphState): (r: Result<GraphState, NodeError>)
    ensures r.Failure? <==> !Present(s, [UserRequirement, GeneratedCode, DeploymentPlan])
    ensures r.Failure? ==> r.error == KeyError(TextKey(FirstAbsent(s, [UserRequirement, GeneratedCode, DeploymentPlan])))
    ensures r.Success? ==> Produces(w, MonitoringFeedback, gen, s, Merge(s, r.value))
    ensures r.Success? ==> Prompted(w, MonitoringFeedback, [GetText(s, GeneratedCode, ""), GetText(s, DeploymentPlan, ""), GetText(s, UserRequirement, "")], s, Merge(s, r.value))
  {
    var values :- IndexAll(s, [UserRequirement, GeneratedCode, DeploymentPlan]);
    var requirement := values[0];
    var code := values[1];
    var deployment := values[2];
    Success(Spread(w, MonitoringFeedback, gen, s, [code, deployment, requirement]))
  }

  /** `maintenance_updates_node`. */
  function MaintenanceUpdatesNode(w: Wording<Stage>, gen: seq<Message> -> string, s: GraphState): (r: Result<GraphState, NodeError>)
    ensures r.Failure? <==> !Present(s, [UserRequirement, GeneratedCode])
    ensures r.Failure? ==> r.error == KeyError(TextKey(FirstAbsent(s, [UserRequirement, GeneratedCode])))
    ensures r.Success? ==> Produces(w, MaintenanceUpdates, gen, s, Merge(s, r.value))
    ensures r.Success? ==> Prompted(w, MaintenanceUpdates, [GetText(s, GeneratedCode, ""), GetText(s, UserRequirement, ""), GetText(s, MonitoringPlan, "")], s, Merge(s, r.value))
  {
    var values :- IndexAll(s, [UserRequirement, GeneratedCode]);
    var requirement := values[0];
    var code := values[1];
    var monitoring := GetText(s, MonitoringPlan, "");
    Success(Spread(w, MaintenanceUpdates, gen, s, [code, requirement, monitoring]))
  }

  /** The stage function registered under each node name, run as the `step`-th node. */
  function Execute(env: Env, step: nat, n: Stage, s: GraphState): Result<GraphState, NodeError> {
    var gen := Gen(env, step, n);
    match n
    case GetUserRequirements => Success(GetUserRequirementsNode(env.requirements, s))
    case GenerateUserStories => GenerateUserStoriesNode(env.wording, gen, s)
    case PoReviewStories => PoReviewStoriesNode(env.wording, gen, s)
    case CreateDesignDoc => CreateDesignDocNode(env.wording, gen, s)
    case DesignDocReview => DesignDocReviewNode(env.wording, gen, s)
    case Coder => CoderNode(env.wording, gen, s)
    case CodeReviewer => CodeReviewerNode(env.wording, gen, s)
    case SecurityReview => SecurityReviewNode(env.wording, gen, s)
    case WriteTestCases => WriteTestCasesNode(env.wording, gen, s)
    case TestCaseReview => TestCaseReviewNode(env.wording, gen, s)
    case QaTesting => QaTestingNode(env.wording, gen, s)
    case Deployment => DeploymentNode(env.wording, gen, s)
    case MonitoringFeedback => MonitoringFeedbackNode(env.wording, gen, s)
    case MaintenanceUpdates => MaintenanceUpdatesNode(env.wording, gen, s)
  }

  /**
   * On a record with every key, no stage raises, every key stays, and the
   * merged result is exactly the stage's effect: the first stage sets only the
   * requirement and appends nothing; every other stage changes only its output
   * field and its counter and appends exactly three messages.
   */
  lemma StageEffect(env: Env, step: nat, n: Stage, s: GraphState)
    requires Complete(s)
    ensures Execute(env, step, n, s).Success?
    ensures Complete(Merge(s, Execute(env, step, n, s).value))
    ensures n == GetUserRequirements ==>
      && Merge(s, Execute(env, step, n, s).value)
           == s.(texts := s.texts[UserRequirement := env.requirements.GetOr(NoRequirements)])
      && Execute(env, step, n, s).value.messages.None?
    ensures n != GetUserRequirements ==>
      Execute(env, step, n, s).value.messages == Merge(s, Execute(env, step, n, s).value).messages
    ensures n != GetUserRequirements ==>
      Produces(env.wording, n, Gen(env, step, n), s, Merge(s, Execute(env, step, n, s).value))
  {
    match n
    case GetUserRequirements =>
    case GenerateUserStories => GeneratingEffect(env, step, n, s);
    case PoReviewStories => GeneratingEffect(env, step, n, s);
    case CreateDesignDoc => GeneratingEffect(env, step, n, s);
    case DesignDocReview => GeneratingEffect(env, step, n, s);
    case Coder => GeneratingEffect(env, step, n, s);
    case CodeReviewer => GeneratingEffect(env, step, n, s);
    case SecurityReview => GeneratingEffect(env, step, n, s);
    case WriteTestCases => GeneratingEffect(env, step, n, s);
    case TestCaseReview => GeneratingEffect(env, step, n, s);
    case QaTesting => GeneratingEffect(env, step, n, s);
    case Deployment => GeneratingEffect(env, step, n, s);
    case MonitoringFeedback => GeneratingEffect(env, step, n, s);
    case MaintenanceUpdates => GeneratingEffect(env, step, n, s);
  }

  /** A generating stage that produced its answer from a record with every key leaves every key in place. */
  lemma GeneratingEffect(env: Env, step: nat, n: Stage, s: GraphState)
    requires Complete(s) && n != GetUserRequirements
    requires Execute(env, step, n, s).Success?
    requires Produces(env.wording, n, Gen(env, step, n), s, Merge(s, Execute(env, step, n, s).value))
    ensures Complete(Merge(s, Execute(env, step, n, s).value))
  {
    var t := Merge(s, Execute(env, step, n, s).value);
    assert Frame(s, t, OutputField(n), Bumps(n));
    forall c: Counter ensures c in t.counters {
      assert c in s.counters;
    }
  }

  /** A stage's answer is the cleaned generator reply to the prompt it recorded. */
  lemma AnswerFromOracle(env: Env, step: nat, n: Stage, s: GraphState, t: GraphState)
    requires n != GetUserRequirements
    requires Produces(env.wording, n, Gen(env, step, n), s, t)
    ensures var h := GetMessages(s);
      t.texts[OutputField(n)] == Cleaned(n, env.oracle(step, n, t.messages.value[|h|..|h| + 2]))
  {
  }
}
