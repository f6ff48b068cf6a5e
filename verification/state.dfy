/**
 * The shared record threaded through the workflow (`GraphState`), the
 * iteration ceiling and the approval marker phrases.
 */
module State {
  import opened Wrappers
  import opened PyStr

  /** Per-stage retry ceiling. */
  const MaxIterations: int := 10

  /** The keys of the marker table: the six reviewed stages. */
  datatype MarkerKey = UserStoriesKey | DesignDocKey | CodeReviewKey | SecurityReviewKey | TestCaseReviewKey | QaTestingKey

  /** The approval marker phrase of each review (the phrase table). */
  function Marker(k: MarkerKey): string {
    match k
    case UserStoriesKey => "here is my approval for all user stories"
    case DesignDocKey => "go ahead"
    case CodeReviewKey => "no additional review comments"
    case SecurityReviewKey => "no additional security review comments"
    case TestCaseReviewKey => "no additional test case review comments"
    case QaTestingKey => "qa testing passed"
  }

  /** `marker in text.lower()`: the review text carries the approval marker of `k`. */
  predicate Approved(k: MarkerKey, text: string) {
    Contains(Lower(text), Marker(k))
  }

  /** One transcript entry: the three message kinds a stage records. */
  datatype Message = Human(content: string) | System(content: string) | AI(content: string)

  /** The fourteen text fields of the record. */
  datatype TextField =
    | UserRequirement | GeneratedUserStories | PoReviewComment
    | DesignDoc | DesignDocReviewComments
    | GeneratedCode | CodeReviewComments | SecurityReviewComments
    | GeneratedTestCases | TestCaseReviewComments | QaTestingResult
    | DeploymentPlan | MonitoringPlan | MaintenancePlan

  const AllTextFields: set<TextField> := {
    UserRequirement, GeneratedUserStories, PoReviewComment,
    DesignDoc, DesignDocReviewComments,
    GeneratedCode, CodeReviewComments, SecurityReviewComments,
    GeneratedTestCases, TestCaseReviewComments, QaTestingResult,
    DeploymentPlan, MonitoringPlan, MaintenancePlan
  }

  /** The dictionary key of a text field. */
  function TextKey(f: TextField): string {
    match f
    case UserRequirement => "user_requirement"
    case GeneratedUserStories => "generated_user_stories"
    case PoReviewComment => "po_review_comment"
    case DesignDoc => "design_doc"
    case DesignDocReviewComments => "design_doc_review_comments"
    case GeneratedCode => "generated_code"
    case CodeReviewComments => "code_review_comments"
    case SecurityReviewComments => "security_review_comments"
    case GeneratedTestCases => "generated_test_cases"
    case TestCaseReviewComments => "test_case_review_comments"
    case QaTestingResult => "qa_testing_result"
    case DeploymentPlan => "deployment_plan"
    case MonitoringPlan => "monitoring_plan"
    case MaintenancePlan => "maintenance_plan"
  }

  /** The six iteration counters of the record. */
  datatype Counter =
    | StoriesCorrectionIteration | DesignDocReviewIteration | CodeReviewIteration
    | SecurityReviewIteration | TestCaseReviewIteration | QaTestingIteration

  const AllCounters: set<Counter> := {
    StoriesCorrectionIteration, DesignDocReviewIteration, CodeReviewIteration,
    SecurityReviewIteration, TestCaseReviewIteration, QaTestingIteration
  }

  /** The dictionary key of a counter. */
  function CounterKey(c: Counter): string {
    match c
    case StoriesCorrectionIteration => "stories_correction_iteration"
    case DesignDocReviewIteration => "design_doc_review_iteration"
    case CodeReviewIteration => "code_review_iteration"
    case SecurityReviewIteration => "security_review_iteration"
    case TestCaseReviewIteration => "test_case_review_iteration"
    case QaTestingIteration => "qa_testing_iteration"
  }

  /**
   * A workflow record, as a dictionary whose keys may be absent: the text
   * fields, the integer counters (their key type `C` differs between the two
   * versions of the workflow) and the `messages` transcript.
   */
  datatype Record<C(==)> = Record(
    texts: map<TextField, string>,
    counters: map<C, int>,
    messages: Option<seq<Message>>)

  /** The record of the live workflow. */
  type GraphState = Record<Counter>

  /** The error a stage raises: indexing a missing key, or a file it cannot open. */
  datatype NodeError = KeyError(key: string) | FileNotFound(name: string)

  /** Every key is present. */
  ghost predicate Complete<C(!new)>(s: Record<C>) {
    && (forall f: TextField :: f in s.texts)
    && (forall c: C :: c in s.counters)
    && s.messages.Some?
  }

  /**
   * How the graph engine applies a stage's returned dictionary: every
   * returned key overwrites the record's, every other key is kept.
   */
  function Merge<C(==)>(s: Record<C>, u: Record<C>): (r: Record<C>)
    ensures r.texts.Keys == s.texts.Keys + u.texts.Keys
    ensures forall f :: f in u.texts ==> r.texts[f] == u.texts[f]
    ensures forall f :: f in s.texts && f !in u.texts ==> r.texts[f] == s.texts[f]
    ensures r.counters.Keys == s.counters.Keys + u.counters.Keys
    ensures forall c :: c in u.counters ==> r.counters[c] == u.counters[c]
    ensures forall c :: c in s.counters && c !in u.counters ==> r.counters[c] == s.counters[c]
    ensures r.messages == if u.messages.Some? then u.messages else s.messages
  {
    Record(s.texts + u.texts, s.counters + u.counters,
           if u.messages.Some? then u.messages else s.messages)
  }

  /** `state["f"]` for a text field. */
  function Index<C(==)>(s: Record<C>, f: TextField): (r: Result<string, NodeError>) {
    if f in s.texts then Success(s.texts[f]) else Failure(KeyError(TextKey(f)))
  }

  /** `state[key]` for a counter whose dictionary key is `key`. */
  function IndexCounter<C(==)>(s: Record<C>, c: C, key: string): (r: Result<int, NodeError>) {
    if c in s.counters then Success(s.counters[c]) else Failure(KeyError(key))
  }

  /** `state["messages"]`. */
  function IndexMessages<C(==)>(s: Record<C>): (r: Result<seq<Message>, NodeError>) {
    if s.messages.Some? then Success(s.messages.value) else Failure(KeyError("messages"))
  }

  /** `state.get("f", default)` for a text field. */
  function GetText<C(==)>(s: Record<C>, f: TextField, default: string): string {
    if f in s.texts then s.texts[f] else default
  }

  /** `state.get("c", default)` for a counter. */
  function GetCounter<C(==)>(s: Record<C>, c: C, default: int): int {
    if c in s.counters then s.counters[c] else default
  }

  /** `state.get("messages", [])`. */
  function GetMessages<C(==)>(s: Record<C>): seq<Message> {
    s.messages.GetOr([])
  }

  /** Every field of `fs` is present: indexing them in order raises nothing. */
  predicate Present<C(==)>(s: Record<C>, fs: seq<TextField>) {
    forall i :: 0 <= i < |fs| ==> fs[i] in s.texts
  }

  /** The field whose `state["f"]` raises first when the fields of `fs` are indexed in order. */
  function FirstAbsent<C(==)>(s: Record<C>, fs: seq<TextField>): (r: TextField)
    requires !Present(s, fs)
    ensures r !in s.texts
    ensures exists i :: 0 <= i < |fs| && fs[i] == r && Present(s, fs[..i])
  {
    if fs[0] !in s.texts then
      assert Present(s, fs[..0]);
      fs[0]
    else
      var r := FirstAbsent(s, fs[1..]);
      ghost var i :| 0 <= i < |fs[1..]| && fs[1..][i] == r && Present(s, fs[1..][..i]);
      assert fs[..i + 1] == [fs[0]] + fs[1..][..i];
      r
  }

  /** `state["f"]` for each field of `fs` in turn: the values, or the error of the first absent one. */
  function IndexAll<C(==)>(s: Record<C>, fs: seq<TextField>): (r: Result<seq<string>, NodeError>)
    ensures r.Failure? <==> !Present(s, fs)
    ensures r.Failure? ==> r.error == KeyError(TextKey(FirstAbsent(s, fs)))
    ensures r.Success? ==> |r.value| == |fs| && forall i :: 0 <= i < |fs| ==> r.value[i] == s.texts[fs[i]]
  {
    if fs == [] then Success([])
    else
      var v :- Index(s, fs[0]);
      var rest :- IndexAll(s, fs[1..]);
      Success([v] + rest)
  }

  /**
   * `t` is `s` with text field `f` set, the counter `bump` (if any) raised by
   * one from its value or from 0 when absent, and every other field and
   * counter unchanged.
   */
  ghost predicate Frame<C(!new)>(s: Record<C>, t: Record<C>, f: TextField, bump: Option<C>) {
    && t.texts.Keys == s.texts.Keys + {f}
    && (forall g :: g in s.texts && g != f ==> t.texts[g] == s.texts[g])
    && t.counters.Keys == s.counters.Keys + (if bump.Some? then {bump.value} else {})
    && (forall c :: c in s.counters && Some(c) != bump ==> t.counters[c] == s.counters[c])
    && (bump.Some? ==> t.counters[bump.value] == GetCounter(s, bump.value, 0) + 1)
  }

  /**
   * `{**s, f: out, bump: s.get(bump, 0) + 1, "messages": messages}`: the
   * dictionary a stage returns when it copies the whole record.
   */
  function Rewrite<C(!new)>(s: Record<C>, f: TextField, out: string, bump: Option<C>, messages: seq<Message>): (u: Record<C>)
    ensures Merge(s, u) == u
    ensures Frame(s, u, f, bump)
    ensures u.texts[f] == out && u.messages == Some(messages)
  {
    var counters := if bump.Some? then s.counters[bump.value := GetCounter(s, bump.value, 0) + 1] else s.counters;
    Record(s.texts[f := out], counters, Some(messages))
  }

  /**
   * Merging an answer that sets `f` to `out`, raises `bump` from the value
   * in the record and otherwise only repeats the record's own values
   * changes nothing but `f` and `bump`.
   */
  lemma MergeEcho<C(!new)>(s: Record<C>, u: Record<C>, f: TextField, out: string, bump: Option<C>)
    requires f in u.texts && u.texts[f] == out
    requires forall g :: g in u.texts && g != f ==> g in s.texts && u.texts[g] == s.texts[g]
    requires bump.Some? ==> bump.value in u.counters && u.counters[bump.value] == GetCounter(s, bump.value, 0) + 1
    requires forall c :: c in u.counters && Some(c) != bump ==> c in s.counters && u.counters[c] == s.counters[c]
    ensures Frame(s, Merge(s, u), f, bump)
    ensures Merge(s, u).texts[f] == out
  {
    var t := Merge(s, u);
    assert t.texts.Keys == s.texts.Keys + {f};
    assert t.counters.Keys == s.counters.Keys + (if bump.Some? then {bump.value} else {});
  }

  /** The one transcript entry a run starts with. */
  const Greeting: string := "Getting requirements from file"

  /**
   * The shape every counted review shares: an approved review advances; an
   * unapproved one retries while the counter is below the ceiling and is
   * forced forward once it reaches it.
   */
  function Gate<N(==)>(approved: bool, count: int, advance: N, retry: N): (r: N)
    requires advance != retry
    ensures r == advance || r == retry
    ensures r == retry <==> !approved && count < MaxIterations
  {
    if approved then advance else if count < MaxIterations then retry else advance
  }

  /** A dictionary key of a record: a text field, a counter or `messages`. */
  datatype Key<C> = TextKeyOf(field: TextField) | CounterKeyOf(counter: C) | MessagesKey

  /** Key `k` is in the record. */
  predicate Has<C(==)>(s: Record<C>, k: Key<C>) {
    match k
    case TextKeyOf(f) => f in s.texts
    case CounterKeyOf(c) => c in s.counters
    case MessagesKey => s.messages.Some?
  }

  /** The dictionary key of `k`, given the names of the counters. */
  function KeyName<C>(k: Key<C>, counterKey: C -> string): string {
    match k
    case TextKeyOf(f) => TextKey(f)
    case CounterKeyOf(c) => counterKey(c)
    case MessagesKey => "messages"
  }

  /** The first of `keys` missing from the record, if any: the one whose `state[key]` raises when they are indexed in order. */
  function Missing<C(==)>(s: Record<C>, keys: seq<Key<C>>): (r: Option<Key<C>>)
    ensures r.None? <==> forall i :: 0 <= i < |keys| ==> Has(s, keys[i])
    ensures r.Some? ==> r.value in keys && !Has(s, r.value)
    ensures r.Some? ==> exists i :: 0 <= i < |keys| && keys[i] == r.value && forall j :: 0 <= j < i ==> Has(s, keys[j])
  {
    if keys == [] then None
    else if !Has(s, keys[0]) then Some(keys[0])
    else
      var r := Missing(s, keys[1..]);
      if r.Some? then
        ghost var i :| 0 <= i < |keys[1..]| && keys[1..][i] == r.value && forall j :: 0 <= j < i ==> Has(s, keys[1..][j]);
        assert keys[i + 1] == r.value && forall j :: 0 <= j < i + 1 ==> Has(s, keys[j]);
        r
      else r
  }

  // ---- Facts about the constants and the record shape ----

  /** No marker is empty and every marker is already lower-case. */
  lemma MarkerLower(k: MarkerKey)
    ensures Marker(k) != [] && IsLower(Marker(k))
  {
    match k
    case UserStoriesKey => StoriesMarkerLower();
    case DesignDocKey => assert IsLower("go ahead");
    case CodeReviewKey => CodeMarkerLower();
    case SecurityReviewKey => SecurityMarkerLower();
    case TestCaseReviewKey => TestCaseMarkerLower();
    case QaTestingKey => assert IsLower("qa testing passed");
  }

  /** The product owner's marker is lower case. */
  lemma StoriesMarkerLower()
    ensures IsLower(Marker(UserStoriesKey))
  {
    assert IsLower("here is my approval for all user stories");
  }

  /** The code reviewer's marker is lower case. */
  lemma CodeMarkerLower()
    ensures IsLower(Marker(CodeReviewKey))
  {
    assert IsLower("no additional review comments");
  }

  /** The security reviewer's marker is lower case. */
  lemma SecurityMarkerLower()
    ensures IsLower(Marker(SecurityReviewKey))
  {
    assert IsLower("no additional security review comments");
  }

  /** The test case reviewer's marker is lower case. */
  lemma TestCaseMarkerLower()
    ensures IsLower(Marker(TestCaseReviewKey))
  {
    assert IsLower("no additional test case review comments");
  }

  /**
   * Because every marker is lower-case, the approval test ignores case:
   * texts that agree after lower-casing are approved alike, and a text
   * approves exactly when its lower-cased form does.
   */
  lemma ApprovalIgnoresCase(key: MarkerKey, a: string, b: string)
    requires Lower(a) == Lower(b)
    ensures Approved(key, a) == Approved(key, b)
    ensures Approved(key, a) == Approved(key, Lower(a))
  {
    LowerIdempotent(a);
  }

  /** The marker itself, in any mixture of cases, approves; the empty text never does. */
  lemma MarkerApproves(key: MarkerKey, text: string)
    requires Lower(text) == Marker(key)
    ensures Approved(key, text)
    ensures !Approved(key, "")
  {
    MarkerLower(key);
    ContainsSelf(Marker(key));
    EmptyContainsNothing(Marker(key));
  }

  /** The record has 14 text fields and 6 counters, and the enumerations are exhaustive. */
  lemma RecordShape()
    ensures |AllTextFields| == 14 && forall f: TextField :: f in AllTextFields
    ensures |AllCounters| == 6 && forall c: Counter :: c in AllCounters
  {
    forall f: TextField ensures f in AllTextFields {
      match f
      case UserRequirement => case GeneratedUserStories => case PoReviewComment =>
      case DesignDoc => case DesignDocReviewComments =>
      case GeneratedCode => case CodeReviewComments => case SecurityReviewComments =>
      case GeneratedTestCases => case TestCaseReviewComments => case QaTestingResult =>
      case DeploymentPlan => case MonitoringPlan => case MaintenancePlan =>
    }
    forall c: Counter ensures c in AllCounters {
      match c
      case StoriesCorrectionIteration => case DesignDocReviewIteration => case CodeReviewIteration =>
      case SecurityReviewIteration => case TestCaseReviewIteration => case QaTestingIteration =>
    }
  }

  /** Applying a returned dictionary never removes a key: completeness is kept. */
  lemma MergeKeepsComplete<C(!new)>(s: Record<C>, u: Record<C>)
    requires Complete(s)
    ensures Complete(Merge(s, u))
  {
  }
}
