/**
 * What particular generator behaviours make the live run do: every review
 * approving on its first visit gives the fourteen stages once each; a QA
 * stage that never passes keeps the run looping until the recursion limit;
 * and with every review approving but QA failing, `write_test_cases` and the
 * coder loop run far past the ten-iteration ceiling.
 */
module RunProperties {
  import opened Wrappers
  import opened State
  import opened Common
  import opened Engine
  import opened WorkflowNodes
  import opened Workflow
  import opened RunWorkflow

  /** Review stage `n`, run as the `step`-th node, carries marker `key` whatever prompt it is given. */
  ghost predicate ApprovesAt(env: Env, n: Stage, key: MarkerKey, step: nat) {
    forall p :: Approved(key, Cleaned(n, env.oracle(step, n, p)))
  }

  /** Every review approves on its first visit: the steps at which the fourteen-stage path meets them. */
  ghost predicate FirstReviewsApprove(env: Env) {
    && ApprovesAt(env, PoReviewStories, UserStoriesKey, 2)
    && ApprovesAt(env, DesignDocReview, DesignDocKey, 4)
    && ApprovesAt(env, CodeReviewer, CodeReviewKey, 6)
    && ApprovesAt(env, SecurityReview, SecurityReviewKey, 7)
    && ApprovesAt(env, TestCaseReview, TestCaseReviewKey, 9)
    && ApprovesAt(env, QaTesting, QaTestingKey, 10)
  }

  /** The answer a review stage recorded in its output field is the cleaned generator reply. */
  lemma ReviewAnswer(env: Env, n: Stage, step: nat, s: GraphState, t: GraphState) returns (p: seq<Message>)
    requires n != GetUserRequirements
    requires Produces(env.wording, n, Gen(env, step, n), s, t)
    ensures OutputField(n) in t.texts && t.texts[OutputField(n)] == Cleaned(n, env.oracle(step, n, p))
  {
    var h := GetMessages(s);
    p := t.messages.value[|h|..|h| + 2];
    AnswerFromOracle(env, step, n, s, t);
  }

  /** The marker each review stage's condition looks for. */
  function ReviewKey(n: Stage): MarkerKey
    requires LiveEdge(n).Conditional?
  {
    match n
    case PoReviewStories => UserStoriesKey
    case DesignDocReview => DesignDocKey
    case CodeReviewer => CodeReviewKey
    case SecurityReview => SecurityReviewKey
    case TestCaseReview => TestCaseReviewKey
    case QaTesting => QaTestingKey
  }

  /** An approving product-owner review moves the run to the design document. */
  lemma StoriesApproved(n: Stage, t: GraphState)
    requires n == PoReviewStories
    requires OutputField(n) in t.texts && Approved(ReviewKey(n), t.texts[OutputField(n)])
    ensures Follow(LiveEdge(n), t) == To(LiveNodes[Position(n) + 1])
  {
    assert GetText(t, OutputField(n), "") == t.texts[OutputField(n)];
  }

  /** An approving design review moves the run to the coder. */
  lemma DesignApproved(n: Stage, t: GraphState)
    requires n == DesignDocReview
    requires OutputField(n) in t.texts && Approved(ReviewKey(n), t.texts[OutputField(n)])
    ensures Follow(LiveEdge(n), t) == To(LiveNodes[Position(n) + 1])
  {
    assert GetText(t, OutputField(n), "") == t.texts[OutputField(n)];
  }

  /** An approving code review moves the run to the security review. */
  lemma CodeApproved(n: Stage, t: GraphState)
    requires n == CodeReviewer
    requires OutputField(n) in t.texts && Approved(ReviewKey(n), t.texts[OutputField(n)])
    ensures Follow(LiveEdge(n), t) == To(LiveNodes[Position(n) + 1])
  {
    assert GetText(t, OutputField(n), "") == t.texts[OutputField(n)];
  }

  /** An approving security review moves the run to writing test cases. */
  lemma SecurityApproved(n: Stage, t: GraphState)
    requires n == SecurityReview
    requires OutputField(n) in t.texts && Approved(ReviewKey(n), t.texts[OutputField(n)])
    ensures Follow(LiveEdge(n), t) == To(LiveNodes[Position(n) + 1])
  {
    assert GetText(t, OutputField(n), "") == t.texts[OutputField(n)];
  }

  /** An approving test case review moves the run to QA. */
  lemma TestCasesApproved(n: Stage, t: GraphState)
    requires n == TestCaseReview
    requires OutputField(n) in t.texts && Approved(ReviewKey(n), t.texts[OutputField(n)])
    ensures Follow(LiveEdge(n), t) == To(LiveNodes[Position(n) + 1])
  {
    assert GetText(t, OutputField(n), "") == t.texts[OutputField(n)];
  }

  /** A passing QA result moves the run to deployment. */
  lemma QaApproved(n: Stage, t: GraphState)
    requires n == QaTesting
    requires OutputField(n) in t.texts && Approved(ReviewKey(n), t.texts[OutputField(n)])
    ensures Follow(LiveEdge(n), t) == To(LiveNodes[Position(n) + 1])
  {
    assert GetText(t, OutputField(n), "") == t.texts[OutputField(n)];
  }

  /** An approving review moves the run to the next stage of the fourteen-stage path. */
  lemma ApprovedAdvances(n: Stage, t: GraphState)
    requires LiveEdge(n).Conditional?
    requires OutputField(n) in t.texts && Approved(ReviewKey(n), t.texts[OutputField(n)])
    ensures Position(n) < 13 && Follow(LiveEdge(n), t) == To(LiveNodes[Position(n) + 1])
  {
    match n
    case PoReviewStories => StoriesApproved(n, t);
    case DesignDocReview => DesignApproved(n, t);
    case CodeReviewer => CodeApproved(n, t);
    case SecurityReview => SecurityApproved(n, t);
    case TestCaseReview => TestCasesApproved(n, t);
    case QaTesting => QaApproved(n, t);
  }

  /** A fixed edge leads to the next stage of the fourteen-stage path, or to the end after the last. */
  lemma DirectAdvances(n: Stage)
    requires LiveEdge(n).Direct?
    ensures LiveEdge(n).target == if Position(n) < 13 then To(LiveNodes[Position(n) + 1]) else End
  {
  }

  /** A review that approves whatever it is shown approves what it recorded. */
  lemma ReviewApproves(env: Env, n: Stage, step: nat, s: GraphState, t: GraphState)
    requires LiveEdge(n).Conditional? && ApprovesAt(env, n, ReviewKey(n), step)
    requires Produces(env.wording, n, Gen(env, step, n), s, t)
    ensures OutputField(n) in t.texts && Approved(ReviewKey(n), t.texts[OutputField(n)])
  {
    var p := ReviewAnswer(env, n, step, s, t);
  }

  /** Under `FirstReviewsApprove` each review approves at its position on the path. */
  lemma FirstApproval(env: Env, n: Stage)
    requires FirstReviewsApprove(env) && LiveEdge(n).Conditional?
    ensures ApprovesAt(env, n, ReviewKey(n), Position(n))
  {
  }

  /** The run is `k` stages into the fourteen-stage path. */
  ghost predicate OnHappyPath(c: Config<Stage, Counter>) {
    && |c.trace| <= 14
    && (forall i :: 0 <= i < |c.trace| ==> c.trace[i] == LiveNodes[i])
    && c.at == if |c.trace| < 14 then To(LiveNodes[|c.trace|]) else End
  }

  /** The stage at position `i` of the path has position `i`. */
  lemma PositionAt(i: nat)
    requires i < 14
    ensures |LiveNodes| == 14 && Position(LiveNodes[i]) == i
  {
    Positions();
  }

  /** Where the stage at position `k` of the path leads when its review, if any, approved at step `k`. */
  lemma HappyRoute(env: Env, n: Stage, s: GraphState, t: GraphState)
    requires FirstReviewsApprove(env) && n != GetUserRequirements
    requires Produces(env.wording, n, Gen(env, Position(n), n), s, t)
    ensures Follow(LiveEdge(n), t) == if Position(n) < 13 then To(LiveNodes[Position(n) + 1]) else End
  {
    if LiveEdge(n).Conditional? {
      FirstApproval(env, n);
      ReviewApproves(env, n, Position(n), s, t);
      ApprovedAdvances(n, t);
    } else {
      DirectAdvances(n);
    }
  }

  /** Taking the next stage of the path and moving on to the one after keeps a configuration on the path. */
  lemma HappyNext(c: Config<Stage, Counter>, next: Config<Stage, Counter>)
    requires OnHappyPath(c) && |c.trace| < 14
    requires next.trace == c.trace + [c.at.node]
    requires next.at == if |c.trace| < 13 then To(LiveNodes[|c.trace| + 1]) else End
    ensures OnHappyPath(next)
  {
  }

  /** One step along the fourteen-stage path when the reviews approve on their first visit. */
  lemma HappyStep(env: Env, live: bool, c: Config<Stage, Counter>) returns (next: Config<Stage, Counter>)
    requires FirstReviewsApprove(env) && Sane(env, live, c) && OnHappyPath(c) && |c.trace| < 14
    ensures StepFrom(LiveGraph(), LiveExec(env, live), Decide, RecursionLimit, c) == Continue(next)
    ensures Sane(env, live, next) && OnHappyPath(next)
  {
    var n := c.at.node;
    PositionAt(|c.trace|);
    next := SaneStep(env, live, c);
    if n == GetUserRequirements {
      DirectAdvances(n);
    } else {
      HappyRoute(env, n, c.state, next.state);
    }
    HappyNext(c, next);
  }

  /** From a point on the fourteen-stage path, the run finishes having run exactly those stages. */
  lemma {:induction false} HappyFrom(env: Env, live: bool, c: Config<Stage, Counter>)
    requires FirstReviewsApprove(env) && Sane(env, live, c) && OnHappyPath(c)
    ensures var r := RunFrom(LiveGraph(), LiveExec(env, live), Decide, RecursionLimit, c);
      && r.outcome.Finished? && |r.trace| == 14 && (forall i :: 0 <= i < 14 ==> r.trace[i] == LiveNodes[i])
      && Tallied(r.outcome.state, r.trace) && Logged(env, live, r.outcome.state, r.trace, r.notified)
    decreases 14 - |c.trace|
  {
    if |c.trace| < 14 {
      var next := HappyStep(env, live, c);
      HappyFrom(env, live, next);
    }
  }

  /** In a sequence without repetitions every element occurs once. */
  lemma {:induction false} CountDistinct<T>(s: seq<T>, x: T)
    requires forall i, j :: 0 <= i < j < |s| ==> s[i] != s[j]
    ensures multiset(s)[x] == if x in s then 1 else 0
  {
    if s != [] {
      CountDistinct(s[1..], x);
      assert s == [s[0]] + s[1..];
      assert x == s[0] ==> x !in s[1..];
    }
  }

  /** A trace that agrees with the fourteen stages position by position runs each stage once. */
  lemma VisitedOnce(trace: seq<Stage>)
    requires |trace| == 14 && forall i :: 0 <= i < 14 ==> trace[i] == LiveNodes[i]
    ensures forall x: Stage :: multiset(trace)[x] == 1
    ensures trace == LiveNodes
  {
    Positions();
    forall x: Stage ensures multiset(trace)[x] == 1 {
      CountDistinct(trace, x);
      assert trace[Position(x)] == x;
    }
  }

  /** A trace that ran every stage once leaves every counter at 1, except the QA one. */
  lemma OnceEach(s: GraphState, trace: seq<Stage>)
    requires Tallied(s, trace) && forall x: Stage :: multiset(trace)[x] == 1
    ensures forall k: Counter :: s.counters[k] == if k == QaTestingIteration then 0 else 1
  {
    forall k: Counter ensures s.counters[k] == if k == QaTestingIteration then 0 else 1 {
      assert s.counters[k] == Tally(trace, k);
    }
  }

  /** What a run that went along the fourteen stages and ended leaves behind. */
  lemma HappyFacts(env: Env, live: bool, r: Run<Stage, Counter>)
    requires r.outcome.Finished? && |r.trace| == 14 && (forall i :: 0 <= i < 14 ==> r.trace[i] == LiveNodes[i])
    requires Tallied(r.outcome.state, r.trace) && Logged(env, live, r.outcome.state, r.trace, r.notified)
    ensures r.trace == LiveNodes && Complete(r.outcome.state)
    ensures forall k: Counter :: r.outcome.state.counters[k] == if k == QaTestingIteration then 0 else 1
    ensures |GetMessages(r.outcome.state)| == 40
    ensures |r.notified| == if live then 14 else 0
  {
    VisitedOnce(r.trace);
    OnceEach(r.outcome.state, r.trace);
  }

  /**
   * If every review approves on its first visit, the run visits the fourteen
   * stages once each, in order, and ends; each counted stage ran once,
   * `qa_testing_iteration` is still 0, and the transcript holds the greeting
   * and thirteen exchanges: 40 entries.
   */
  lemma HappyPath(env: Env, live: bool)
    requires FirstReviewsApprove(env)
    ensures var r := LiveRun(env, live);
      && r.outcome.Finished? && r.trace == LiveNodes && Complete(r.outcome.state)
      && (forall k: Counter :: r.outcome.state.counters[k] == if k == QaTestingIteration then 0 else 1)
      && |GetMessages(r.outcome.state)| == 40
      && |r.notified| == (if live then 14 else 0)
  {
    StartSane(env, live);
    HappyFrom(env, live, Start(LiveGraph(), InitialState()));
    HappyFacts(env, live, LiveRun(env, live));
  }

  /** QA never passes: the cleaned QA reply never carries its marker. */
  ghost predicate QaNeverPasses(env: Env) {
    forall step: nat, p :: !Approved(QaTestingKey, Cleaned(QaTesting, env.oracle(step, QaTesting, p)))
  }

  /** The run has not reached deployment and is not at the end. */
  ghost predicate BeforeDeployment(c: Config<Stage, Counter>) {
    && c.at.To? && c.at.node !in {Deployment, MonitoringFeedback, MaintenanceUpdates}
    && Deployment !in c.trace
  }

  /** Short of QA, every edge stays short of deployment, whatever the record. */
  lemma StaysBeforeDeployment(n: Stage, t: GraphState)
    requires n !in {QaTesting, Deployment, MonitoringFeedback, MaintenanceUpdates}
    ensures Follow(LiveEdge(n), t).To?
    ensures Follow(LiveEdge(n), t).node !in {Deployment, MonitoringFeedback, MaintenanceUpdates}
  {
    match n
    case GetUserRequirements =>
    case GenerateUserStories =>
    case PoReviewStories =>
    case CreateDesignDoc =>
    case DesignDocReview =>
    case Coder =>
    case CodeReviewer =>
    case SecurityReview =>
    case WriteTestCases =>
    case TestCaseReview =>
  }

  /** A QA result without the QA marker sends the run back to the coder. */
  lemma QaRejectLoops(t: GraphState)
    requires QaTestingResult in t.texts && !Approved(QaTestingKey, t.texts[QaTestingResult])
    ensures Follow(LiveEdge(QaTesting), t) == To(Coder)
  {
  }

  /** When QA never passes, the QA stage sends the run back to the coder. */
  lemma QaAnswerLoops(env: Env, step: nat, s: GraphState, t: GraphState)
    requires QaNeverPasses(env)
    requires Produces(env.wording, QaTesting, Gen(env, step, QaTesting), s, t)
    ensures Follow(LiveEdge(QaTesting), t) == To(Coder)
  {
    var p := ReviewAnswer(env, QaTesting, step, s, t);
    assert !Approved(QaTestingKey, Cleaned(QaTesting, env.oracle(step, QaTesting, p)));
    QaRejectLoops(t);
  }

  /** A step that leaves the run short of deployment keeps it there. */
  lemma BeforeNext(c: Config<Stage, Counter>, next: Config<Stage, Counter>)
    requires BeforeDeployment(c) && next.trace == c.trace + [c.at.node]
    requires next.at.To? && next.at.node !in {Deployment, MonitoringFeedback, MaintenanceUpdates}
    ensures BeforeDeployment(next)
  {
  }

  /** One step while QA keeps failing. */
  lemma LoopStep(env: Env, live: bool, c: Config<Stage, Counter>) returns (next: Config<Stage, Counter>)
    requires QaNeverPasses(env) && Sane(env, live, c) && BeforeDeployment(c) && |c.trace| < RecursionLimit
    ensures StepFrom(LiveGraph(), LiveExec(env, live), Decide, RecursionLimit, c) == Continue(next)
    ensures Sane(env, live, next) && BeforeDeployment(next)
  {
    next := SaneStep(env, live, c);
    var n := c.at.node;
    if n == QaTesting {
      QaAnswerLoops(env, |c.trace|, c.state, next.state);
    } else {
      StaysBeforeDeployment(n, next.state);
    }
    BeforeNext(c, next);
  }

  /** While QA keeps failing the run never leaves the loop, so it ends at the recursion limit. */
  lemma {:induction false} LoopFrom(env: Env, live: bool, c: Config<Stage, Counter>)
    requires QaNeverPasses(env) && Sane(env, live, c) && BeforeDeployment(c) && |c.trace| <= RecursionLimit
    ensures var r := RunFrom(LiveGraph(), LiveExec(env, live), Decide, RecursionLimit, c);
      r.outcome.RecursionLimitReached? && |r.trace| == RecursionLimit && Deployment !in r.trace
    decreases RecursionLimit - |c.trace|
  {
    if |c.trace| < RecursionLimit {
      var next := LoopStep(env, live, c);
      LoopFrom(env, live, next);
    }
  }

  /**
   * If QA never passes, no counter stops the loop back to the coder: the run
   * runs a full hundred stages, never deploys, and ends with the
   * recursion-limit error.
   */
  lemma QaFailureHitsLimit(env: Env, live: bool)
    requires QaNeverPasses(env)
    ensures var r := LiveRun(env, live);
      r.outcome.RecursionLimitReached? && |r.trace| == RecursionLimit && Deployment !in r.trace
  {
    StartSane(env, live);
    LoopFrom(env, live, Start(LiveGraph(), InitialState()));
  }

  /** Every review approves whenever it is asked. */
  ghost predicate ReviewsAlwaysApprove(env: Env) {
    && (forall step: nat :: ApprovesAt(env, PoReviewStories, UserStoriesKey, step))
    && (forall step: nat :: ApprovesAt(env, DesignDocReview, DesignDocKey, step))
    && (forall step: nat :: ApprovesAt(env, CodeReviewer, CodeReviewKey, step))
    && (forall step: nat :: ApprovesAt(env, SecurityReview, SecurityReviewKey, step))
    && (forall step: nat :: ApprovesAt(env, TestCaseReview, TestCaseReviewKey, step))
  }

  /** The six stages of the loop QA failures drive, from the coder to QA. */
  const QaLoop: seq<Stage> := [Coder, CodeReviewer, SecurityReview, WriteTestCases, TestCaseReview, QaTesting]

  /** The `i`-th stage run when every review approves and QA always fails: five stages, then the loop forever. */
  function LoopPath(i: nat): Stage {
    if i < 5 then LiveNodes[i] else QaLoop[(i - 5) % 6]
  }

  /** The first `k` stages of that path. */
  function LoopPrefix(k: nat): seq<Stage> {
    seq(k, i requires 0 <= i => LoopPath(i))
  }

  /** The stage after `n` on that path. */
  function LoopSuccessor(n: Stage): Stage {
    match n
    case QaTesting => Coder
    case _ => if Position(n) < 13 then LiveNodes[Position(n) + 1] else n
  }

  /** The loop's stages sit at positions 5 to 10. */
  lemma QaLoopPositions()
    ensures |QaLoop| == 6 && forall j :: 0 <= j < 6 ==> QaLoop[j] == LiveNodes[5 + j]
  {
  }

  /** The path follows `LoopSuccessor` and never reaches deployment. */
  lemma LoopPathStep(i: nat)
    ensures LoopPath(i + 1) == LoopSuccessor(LoopPath(i))
    ensures LoopPath(i) !in {Deployment, MonitoringFeedback, MaintenanceUpdates}
  {
    QaLoopPositions();
    var p := if i < 5 then i else 5 + (i - 5) % 6;
    assert LoopPath(i) == LiveNodes[p];
    PositionAt(p);
    PositionAt(p + 1);
    if i >= 5 {
      var j := (i - 5) % 6;
      assert (i + 1 - 5) % 6 == if j == 5 then 0 else j + 1;
    }
  }

  /** Under `ReviewsAlwaysApprove` each review other than QA approves at every step. */
  lemma AlwaysApproves(env: Env, n: Stage, step: nat)
    requires ReviewsAlwaysApprove(env) && LiveEdge(n).Conditional? && n != QaTesting
    ensures ApprovesAt(env, n, ReviewKey(n), step)
  {
    match n
    case PoReviewStories =>
    case DesignDocReview =>
    case CodeReviewer =>
    case SecurityReview =>
    case TestCaseReview =>
  }

  /** What the next stage does on the loop path: a review approves, QA rejects, a fixed edge advances. */
  lemma LoopRoute(env: Env, n: Stage, step: nat, s: GraphState, t: GraphState)
    requires ReviewsAlwaysApprove(env) && QaNeverPasses(env)
    requires n != GetUserRequirements && n !in {Deployment, MonitoringFeedback, MaintenanceUpdates}
    requires Produces(env.wording, n, Gen(env, step, n), s, t)
    ensures Follow(LiveEdge(n), t) == To(LoopSuccessor(n))
  {
    if n == QaTesting {
      QaAnswerLoops(env, step, s, t);
    } else if LiveEdge(n).Conditional? {
      AlwaysApproves(env, n, step);
      ReviewApproves(env, n, step, s, t);
      ApprovedAdvances(n, t);
    } else {
      DirectAdvances(n);
    }
  }

  /** The run has followed the loop path so far. */
  ghost predicate OnLoopPath(c: Config<Stage, Counter>) {
    && (forall i :: 0 <= i < |c.trace| ==> c.trace[i] == LoopPath(i))
    && c.at == To(LoopPath(|c.trace|))
  }

  /** Taking the path's next stage and moving on to the one after keeps a configuration on the path. */
  lemma LoopNext(c: Config<Stage, Counter>, next: Config<Stage, Counter>)
    requires OnLoopPath(c) && next.trace == c.trace + [c.at.node]
    requires next.at == To(LoopPath(|c.trace| + 1))
    ensures OnLoopPath(next)
  {
  }

  /** One step along the loop path. */
  lemma LoopPathStepRun(env: Env, live: bool, c: Config<Stage, Counter>) returns (next: Config<Stage, Counter>)
    requires ReviewsAlwaysApprove(env) && QaNeverPasses(env)
    requires Sane(env, live, c) && OnLoopPath(c) && |c.trace| < RecursionLimit
    ensures StepFrom(LiveGraph(), LiveExec(env, live), Decide, RecursionLimit, c) == Continue(next)
    ensures Sane(env, live, next) && OnLoopPath(next)
  {
    var n := c.at.node;
    LoopPathStep(|c.trace|);
    next := SaneStep(env, live, c);
    if n == GetUserRequirements {
      DirectAdvances(n);
    } else {
      LoopRoute(env, n, |c.trace|, c.state, next.state);
    }
    LoopNext(c, next);
  }

  /** From a point on the loop path, the run stays on it to the recursion limit. */
  lemma {:induction false} LoopPathFrom(env: Env, live: bool, c: Config<Stage, Counter>)
    requires ReviewsAlwaysApprove(env) && QaNeverPasses(env)
    requires Sane(env, live, c) && OnLoopPath(c) && |c.trace| <= RecursionLimit
    ensures var r := RunFrom(LiveGraph(), LiveExec(env, live), Decide, RecursionLimit, c);
      && r.outcome.RecursionLimitReached? && |r.trace| == RecursionLimit
      && (forall i :: 0 <= i < RecursionLimit ==> r.trace[i] == LoopPath(i))
      && Tallied(r.outcome.state, r.trace)
    decreases RecursionLimit - |c.trace|
  {
    if |c.trace| < RecursionLimit {
      var next := LoopPathStepRun(env, live, c);
      LoopPathFrom(env, live, next);
    }
  }

  /** The five stages before the loop followed by `q` rounds of it. */
  function Rounds(q: nat): seq<Stage> {
    if q == 0 then LiveNodes[..5] else Rounds(q - 1) + QaLoop
  }

  /** None of the loop's stages is among the five stages before it. */
  lemma BeforeLoop(j: nat)
    requires j < 6
    ensures multiset(LiveNodes[..5])[QaLoop[j]] == 0
  {
    QaLoopPositions();
    PositionAt(5 + j);
    forall i | 0 <= i < 5 ensures LiveNodes[..5][i] != QaLoop[j] {
      PositionAt(i);
    }
  }

  /** Counting in a concatenation adds the counts of its parts. */
  lemma CountAppend<T>(a: seq<T>, b: seq<T>, x: T)
    ensures multiset(a + b)[x] == multiset(a)[x] + multiset(b)[x]
  {
  }

  /** Each stage of the loop occurs in it once. */
  lemma LoopOnce(j: nat)
    requires j < 6
    ensures multiset(QaLoop)[QaLoop[j]] == 1
  {
    CountDistinct(QaLoop, QaLoop[j]);
  }

  /** After the five stages before the loop and `q` rounds of it, each loop stage ran `q` times. */
  lemma {:induction false} LoopRounds(q: nat, j: nat)
    requires j < 6
    ensures multiset(Rounds(q))[QaLoop[j]] == q
  {
    if q == 0 {
      BeforeLoop(j);
    } else {
      LoopRounds(q - 1, j);
      LoopOnce(j);
      CountAppend(Rounds(q - 1), QaLoop, QaLoop[j]);
    }
  }

  /** Six times `q`, plus a remainder below six, leaves that remainder. */
  lemma RoundMod(q: nat, i: nat)
    requires i < 6
    ensures (6 * q + i) % 6 == i
  {
    var d, r := (6 * q + i) / 6, (6 * q + i) % 6;
    assert 6 * d + r == 6 * q + i;
    assert 6 * (d - q) == i - r;
  }

  /** `q` rounds after the first five stages, the path is at slot `i` of the loop. */
  lemma RoundAt(q: nat, i: nat)
    requires i < 6
    ensures LoopPath(5 + 6 * q + i) == QaLoop[i]
  {
    RoundMod(q, i);
  }

  /** One more round of the loop appends its six stages to the path. */
  lemma OneRound(q: nat)
    ensures LoopPrefix(5 + 6 * q + 6) == LoopPrefix(5 + 6 * q) + QaLoop
  {
    forall i | 0 <= i < 6 ensures LoopPath(5 + 6 * q + i) == QaLoop[i] {
      RoundAt(q, i);
    }
  }

  /** The path's first `5 + 6 * q` stages are the five before the loop and `q` rounds. */
  lemma {:induction false} RoundsOnPath(q: nat)
    ensures LoopPrefix(5 + 6 * q) == Rounds(q)
  {
    if q > 0 {
      RoundsOnPath(q - 1);
      OneRound(q - 1);
      assert 5 + 6 * (q - 1) + 6 == 5 + 6 * q;
    }
  }

  /** Five stages into a round, the path has run the loop's first five stages once more. */
  lemma PartRound(q: nat)
    ensures LoopPrefix(5 + 6 * q + 5) == LoopPrefix(5 + 6 * q) + QaLoop[..5]
  {
    forall i | 0 <= i < 5 ensures LoopPath(5 + 6 * q + i) == QaLoop[i] {
      RoundAt(q, i);
    }
  }

  /** Five stages into round `q + 1`, each of the loop's first five stages has run `q + 1` times. */
  lemma PartRoundCount(q: nat, j: nat)
    requires j < 5
    ensures multiset(LoopPrefix(5 + 6 * q + 5))[QaLoop[j]] == q + 1
  {
    PartRound(q);
    RoundsOnPath(q);
    LoopRounds(q, j);
    CountDistinct(QaLoop[..5], QaLoop[j]);
    assert QaLoop[..5][j] == QaLoop[j];
    CountAppend(Rounds(q), QaLoop[..5], QaLoop[j]);
  }

  /** A hundred stages along the loop path run the coder, the security review and `write_test_cases` 16 times each. */
  lemma LoopTraceCounts(trace: seq<Stage>)
    requires |trace| == RecursionLimit && forall i :: 0 <= i < RecursionLimit ==> trace[i] == LoopPath(i)
    ensures multiset(trace)[Coder] == 16 && multiset(trace)[SecurityReview] == 16
    ensures multiset(trace)[WriteTestCases] == 16
  {
    assert trace == LoopPrefix(5 + 6 * 15 + 5);
    PartRoundCount(15, 0);
    PartRoundCount(15, 2);
    PartRoundCount(15, 3);
  }

  /** What a run that stayed on the loop path to the recursion limit leaves behind. */
  lemma LoopFacts(r: Run<Stage, Counter>)
    requires r.outcome.RecursionLimitReached? && |r.trace| == RecursionLimit
    requires forall i :: 0 <= i < RecursionLimit ==> r.trace[i] == LoopPath(i)
    requires Tallied(r.outcome.state, r.trace)
    ensures multiset(r.trace)[WriteTestCases] == 16 && multiset(r.trace)[Coder] == 16
    ensures multiset(r.trace)[SecurityReview] == 16
    ensures Complete(r.outcome.state)
    ensures r.outcome.state.counters[TestCaseReviewIteration] == 16
    ensures r.outcome.state.counters[CodeReviewIteration] == 16
    ensures r.outcome.state.counters[SecurityReviewIteration] == 16
  {
    LoopTraceCounts(r.trace);
    assert r.outcome.state.counters[TestCaseReviewIteration] == Tally(r.trace, TestCaseReviewIteration);
    assert r.outcome.state.counters[CodeReviewIteration] == Tally(r.trace, CodeReviewIteration);
    assert r.outcome.state.counters[SecurityReviewIteration] == Tally(r.trace, SecurityReviewIteration);
  }

  /**
   * With every review approving but QA always failing, the run goes around
   * the QA loop until the recursion limit: `write_test_cases`, the coder and the
   * security review each run 16 times, so `test_case_review_iteration`,
   * `code_review_iteration` and `security_review_iteration` end at 16, above
   * the ten-iteration ceiling; the ceiling bounds only the retries of each
   * review, not the visits the QA loop makes.
   */
  lemma TestCasesPastCeiling(env: Env, live: bool)
    requires ReviewsAlwaysApprove(env) && QaNeverPasses(env)
    ensures var r := LiveRun(env, live);
      && r.outcome.RecursionLimitReached? && Complete(r.outcome.state)
      && multiset(r.trace)[WriteTestCases] == 16 && multiset(r.trace)[Coder] == 16
      && r.outcome.state.counters[TestCaseReviewIteration] == 16 > MaxIterations
      && r.outcome.state.counters[CodeReviewIteration] == 16
      && r.outcome.state.counters[SecurityReviewIteration] == 16
  {
    StartSane(env, live);
    LoopPathFrom(env, live, Start(LiveGraph(), InitialState()));
    LoopFacts(LiveRun(env, live));
  }
}
