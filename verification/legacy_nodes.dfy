/**
 * The older standalone version of the workflow: its model table, its
 * delimiter extractor and its fifteen node functions. Its record has five
 * counters (the design loop counts in `design_doc_review_count`, and there is
 * no QA counter), every node indexes the keys it reads directly, so a record
 * without one of them raises, and a failed QA is answered by a separate
 * `fix_code_after_qa` node.
 */
module LegacyNodes {
  import opened Wrappers
  import opened PyStr
  import opened State
  import opened Common

  // ---- The model table ----

  /** The table `load_llm_models` searches: one single-key dictionary per entry, in order. */
  const LlmModels: seq<(string, string)> := [
    ("model_deepseek", "deepseek-r1-distill-qwen-32b"),
    ("model_llama", "llama-3.2-1b-preview"),
    ("model_qwen_coder", "qwen-2.5-coder-32b"),
    ("model_qwen", "qwen-2.5-32b"),
    ("model_mixtral", "mixtral-8x7b-32768"),
    ("model_openai", "gpt-4")]

  /** The value of the first entry of `table` whose key is `name`, or "" when no entry has that key. */
  function FirstValue(table: seq<(string, string)>, name: string): (r: string)
    ensures (forall i :: 0 <= i < |table| ==> table[i].0 != name) ==> r == ""
    ensures forall i :: 0 <= i < |table| && table[i].0 == name && (forall j :: 0 <= j < i ==> table[j].0 != name)
                        ==> r == table[i].1
  {
    if table == [] then ""
    else if table[0].0 == name then table[0].1
    else
      var r := FirstValue(table[1..], name);
      assert forall i :: 1 <= i < |table| ==> table[i] == table[1..][i - 1];
      r
  }

  /** `load_llm_models(model_name)`: the first matching entry's model id, "" for an unknown name or for `None`. */
  function LoadLlmModels(name: Option<string>): (r: string) {
    if name.None? then "" else FirstValue(LlmModels, name.value)
  }

  /** Every key of the table yields its own model id. */
  lemma ModelLookup()
    ensures forall i :: 0 <= i < |LlmModels| ==> LoadLlmModels(Some(LlmModels[i].0)) == LlmModels[i].1
  {
    ModelKeysDistinct();
    forall i | 0 <= i < |LlmModels| ensures LoadLlmModels(Some(LlmModels[i].0)) == LlmModels[i].1 {
    }
  }

  /** A name yields a non-empty model id exactly when it is one of the six keys. */
  lemma ModelTable(name: Option<string>)
    ensures LoadLlmModels(name) != "" <==> name.Some? && exists i :: 0 <= i < |LlmModels| && LlmModels[i].0 == name.value
  {
    if name.Some? {
      if exists i :: 0 <= i < |LlmModels| && LlmModels[i].0 == name.value {
        var i :| 0 <= i < |LlmModels| && LlmModels[i].0 == name.value;
        ModelLookup();
        ModelIdsNonEmpty();
      } else {
        assert FirstValue(LlmModels, name.value) == "";
      }
    }
  }

  /** Every model id in the table is non-empty. */
  lemma ModelIdsNonEmpty()
    ensures forall i :: 0 <= i < |LlmModels| ==> |LlmModels[i].1| > 0
  {
  }

  /** No two entries of the table share a key (their keys even differ in length). */
  lemma ModelKeysDistinct()
    ensures forall i, j :: 0 <= i < j < |LlmModels| ==> LlmModels[i].0 != LlmModels[j].0
  {
    assert forall i, j :: 0 <= i < j < |LlmModels| ==> |LlmModels[i].0| != |LlmModels[j].0|;
  }

  // ---- The delimiter extractor ----

  /**
   * This version's `extract_content_after_pattern`: `None`, not the text
   * itself, when the delimiter does not occur; otherwise the same suffix the
   * live version returns.
   */
  function ExtractOrNone(text: string): (r: Option<string>)
    ensures r.None? <==> !Contains(text, ThinkDelimiter)
    ensures r.Some? ==> r.value == ExtractContentAfterPattern(text)
  {
    FindContains(text, ThinkDelimiter);
    var position := Find(text, ThinkDelimiter);
    if position == -1 then None else Some(text[position + |ThinkDelimiter|..])
  }

  // ---- The record ----

  /** The five counters of this version's record. */
  datatype LegacyCounter = StoriesCount | DesignDocReviewCount | CodeCount | SecurityCount | TestCaseCount

  const AllLegacyCounters: set<LegacyCounter> := {StoriesCount, DesignDocReviewCount, CodeCount, SecurityCount, TestCaseCount}

  /** The dictionary key of a counter. */
  function LegacyCounterKey(c: LegacyCounter): string {
    match c
    case StoriesCount => "stories_correction_iteration"
    case DesignDocReviewCount => "design_doc_review_count"
    case CodeCount => "code_review_iteration"
    case SecurityCount => "security_review_iteration"
    case TestCaseCount => "test_case_review_iteration"
  }

  /** This version's record: the same fourteen text fields, five counters and the transcript. */
  type LegacyState = Record<LegacyCounter>

  /** The record has the fourteen text fields and five counters, and the counter enumeration is exhaustive. */
  lemma LegacyShape()
    ensures |AllLegacyCounters| == 5 && forall c: LegacyCounter :: c in AllLegacyCounters
  {
    forall c: LegacyCounter ensures c in AllLegacyCounters {
      match c
      case StoriesCount => case DesignDocReviewCount => case CodeCount =>
      case SecurityCount => case TestCaseCount =>
    }
  }

  // ---- The nodes ----

  /** The fifteen nodes, in registration order. */
  datatype Stage =
    | GetUserRequirements | GenerateUserStories | PoReviewStories
    | CreateDesignDoc | DesignDocReview
    | Coder | CodeReviewer | SecurityReview
    | WriteTestCases | TestCaseReview | QaTesting | FixCodeAfterQa
    | Deployment | MonitoringFeedback | MaintenanceUpdates

  /**
   * What the nodes depend on beyond the record: the generator (it may answer
   * differently at each step), the prompt wording, and the contents of
   * `req_build.md`, `None` when it cannot be opened.
   */
  datatype LegacyEnv = LegacyEnv(oracle: (nat, Stage, seq<Message>) -> string, wording: Wording<Stage>, requirements: Option<string>)

  /** The file the first node reads. */
  const RequirementsFile: string := "req_build.md"

  /** The generator as node `n`, run as the `step`-th node, sees it. */
  function Gen(env: LegacyEnv, step: nat, n: Stage): seq<Message> -> string {
    p => env.oracle(step, n, p)
  }

  /** The field a node writes. */
  function Output(n: Stage): TextField {
    match n
    case GetUserRequirements => UserRequirement
    case GenerateUserStories => GeneratedUserStories
    case PoReviewStories => PoReviewComment
    case CreateDesignDoc => DesignDoc
    case DesignDocReview => DesignDocReviewComments
    case Coder => GeneratedCode
    case CodeReviewer => CodeReviewComments
    case SecurityReview => SecurityReviewComments
    case WriteTestCases => GeneratedTestCases
    case TestCaseReview => TestCaseReviewComments
    case QaTesting => QaTestingResult
    case FixCodeAfterQa => GeneratedCode
    case Deployment => DeploymentPlan
    case MonitoringFeedback => MonitoringPlan
    case MaintenanceUpdates => MaintenancePlan
  }

  /** The counter a node raises (`+= 1` on the value it read), if any. */
  function Bumps(n: Stage): Option<LegacyCounter> {
    match n
    case GenerateUserStories => Some(StoriesCount)
    case CreateDesignDoc => Some(DesignDocReviewCount)
    case Coder => Some(CodeCount)
    case SecurityReview => Some(SecurityCount)
    case WriteTestCases => Some(TestCaseCount)
    case _ => None
  }

  /** The nodes that return `{**state, ...}`, a copy of the whole record. */
  predicate Spreads(n: Stage) {
    n in {QaTesting, FixCodeAfterQa, Deployment, MonitoringFeedback, MaintenanceUpdates}
  }

  /** The keys a node indexes before it builds its answer, in order: what its prompt uses, and `messages`. */
  function Prelude(n: Stage): seq<Key<LegacyCounter>> {
    match n
    case GetUserRequirements => []
    case GenerateUserStories =>
      [TextKeyOf(UserRequirement), TextKeyOf(PoReviewComment), CounterKeyOf(StoriesCount), MessagesKey]
    case PoReviewStories =>
      [TextKeyOf(UserRequirement), TextKeyOf(GeneratedUserStories), MessagesKey]
    case CreateDesignDoc =>
      [TextKeyOf(UserRequirement), TextKeyOf(GeneratedUserStories), CounterKeyOf(DesignDocReviewCount),
       TextKeyOf(DesignDocReviewComments), MessagesKey]
    case DesignDocReview =>
      [TextKeyOf(UserRequirement), TextKeyOf(GeneratedUserStories), TextKeyOf(DesignDoc), MessagesKey]
    case Coder =>
      [TextKeyOf(UserRequirement), TextKeyOf(GeneratedUserStories), TextKeyOf(DesignDoc), TextKeyOf(CodeReviewComments),
       CounterKeyOf(CodeCount), TextKeyOf(SecurityReviewComments), MessagesKey]
    case CodeReviewer =>
      [TextKeyOf(UserRequirement), TextKeyOf(GeneratedUserStories), TextKeyOf(DesignDoc), TextKeyOf(CodeReviewComments),
       TextKeyOf(GeneratedCode), MessagesKey]
    case SecurityReview =>
      [TextKeyOf(UserRequirement), TextKeyOf(GeneratedUserStories), TextKeyOf(DesignDoc), TextKeyOf(GeneratedCode),
       CounterKeyOf(SecurityCount), MessagesKey]
    case WriteTestCases =>
      [TextKeyOf(UserRequirement), TextKeyOf(GeneratedUserStories), TextKeyOf(DesignDoc), TextKeyOf(SecurityReviewComments),
       TextKeyOf(TestCaseReviewComments), CounterKeyOf(TestCaseCount), MessagesKey]
    case TestCaseReview =>
      [TextKeyOf(UserRequirement), TextKeyOf(GeneratedUserStories), TextKeyOf(DesignDoc), TextKeyOf(GeneratedTestCases),
       TextKeyOf(SecurityReviewComments), MessagesKey]
    case QaTesting =>
      [TextKeyOf(UserRequirement), TextKeyOf(GeneratedCode), TextKeyOf(GeneratedTestCases), MessagesKey]
    case FixCodeAfterQa =>
      [TextKeyOf(UserRequirement), TextKeyOf(GeneratedCode), TextKeyOf(QaTestingResult), MessagesKey]
    case Deployment =>
      [TextKeyOf(UserRequirement), TextKeyOf(GeneratedCode), MessagesKey]
    case MonitoringFeedback =>
      [TextKeyOf(UserRequirement), TextKeyOf(GeneratedCode), TextKeyOf(DeploymentPlan), MessagesKey]
    case MaintenanceUpdates =>
      [TextKeyOf(UserRequirement), TextKeyOf(GeneratedCode), MessagesKey]
  }

  /**
   * The keys a node that lists its answer's keys copies into it by indexing
   * the record, in the order the dictionary lists them (its output and its
   * counter are set from its own values instead).
   */
  function Copied(n: Stage): seq<Key<LegacyCounter>> {
    match n
    case GenerateUserStories =>
      [TextKeyOf(UserRequirement), TextKeyOf(PoReviewComment), CounterKeyOf(DesignDocReviewCount),
       TextKeyOf(DesignDoc), TextKeyOf(DesignDocReviewComments)]
    case PoReviewStories =>
      [TextKeyOf(UserRequirement), TextKeyOf(GeneratedUserStories), CounterKeyOf(StoriesCount),
       CounterKeyOf(DesignDocReviewCount), TextKeyOf(DesignDoc), TextKeyOf(DesignDocReviewComments)]
    case CreateDesignDoc =>
      [TextKeyOf(UserRequirement), TextKeyOf(GeneratedUserStories), CounterKeyOf(StoriesCount),
       TextKeyOf(PoReviewComment), TextKeyOf(DesignDocReviewComments)]
    case DesignDocReview =>
      [TextKeyOf(UserRequirement), TextKeyOf(GeneratedUserStories), CounterKeyOf(StoriesCount),
       TextKeyOf(PoReviewComment), TextKeyOf(DesignDoc), CounterKeyOf(DesignDocReviewCount)]
    case Coder =>
      [TextKeyOf(UserRequirement), TextKeyOf(GeneratedUserStories), CounterKeyOf(StoriesCount),
       TextKeyOf(PoReviewComment), TextKeyOf(DesignDoc), TextKeyOf(DesignDocReviewComments),
       CounterKeyOf(DesignDocReviewCount), TextKeyOf(CodeReviewComments), TextKeyOf(SecurityReviewComments)]
    case CodeReviewer =>
      [TextKeyOf(UserRequirement), TextKeyOf(GeneratedUserStories), CounterKeyOf(StoriesCount),
       TextKeyOf(PoReviewComment), TextKeyOf(DesignDoc), TextKeyOf(DesignDocReviewComments),
       CounterKeyOf(DesignDocReviewCount), TextKeyOf(GeneratedCode), CounterKeyOf(CodeCount)]
    case SecurityReview =>
      [TextKeyOf(UserRequirement), TextKeyOf(GeneratedUserStories), CounterKeyOf(StoriesCount),
       TextKeyOf(PoReviewComment), TextKeyOf(DesignDoc), TextKeyOf(DesignDocReviewComments),
       CounterKeyOf(DesignDocReviewCount), TextKeyOf(GeneratedCode), TextKeyOf(CodeReviewComments),
       CounterKeyOf(CodeCount)]
    case WriteTestCases =>
      [TextKeyOf(UserRequirement), TextKeyOf(GeneratedUserStories), CounterKeyOf(StoriesCount),
       TextKeyOf(PoReviewComment), TextKeyOf(DesignDoc), TextKeyOf(DesignDocReviewComments),
       CounterKeyOf(DesignDocReviewCount), TextKeyOf(GeneratedCode), TextKeyOf(CodeReviewComments),
       CounterKeyOf(CodeCount), TextKeyOf(SecurityReviewComments), CounterKeyOf(SecurityCount)]
    case TestCaseReview =>
      [TextKeyOf(UserRequirement), TextKeyOf(GeneratedUserStories), CounterKeyOf(StoriesCount),
       TextKeyOf(PoReviewComment), TextKeyOf(DesignDoc), TextKeyOf(DesignDocReviewComments),
       CounterKeyOf(DesignDocReviewCount), TextKeyOf(GeneratedCode), TextKeyOf(CodeReviewComments),
       CounterKeyOf(CodeCount), TextKeyOf(SecurityReviewComments), CounterKeyOf(SecurityCount),
       TextKeyOf(GeneratedTestCases)]
    case _ => []
  }

  /** Every key a node indexes, in order. */
  function Reads(n: Stage): seq<Key<LegacyCounter>> {
    Prelude(n) + Copied(n)
  }

  /** `str(i)`. */
  function Decimal(i: int): string
    decreases if i < 0 then 1 - i else i
  {
    if i < 0 then "-" + Decimal(-i)
    else if i < 10 then ["0123456789"[i]]
    else Decimal(i / 10) + ["0123456789"[i % 10]]
  }

  /** The values of `keys`, as the prompt interpolates them. */
  function Rendered(s: LegacyState, keys: seq<Key<LegacyCounter>>): seq<string>
    requires forall i :: 0 <= i < |keys| ==> Has(s, keys[i])
  {
    if keys == [] then []
    else
      assert Has(s, keys[0]);
      var first := match keys[0]
        case TextKeyOf(f) => [s.texts[f]]
        case CounterKeyOf(c) => [Decimal(s.counters[c])]
        case MessagesKey => [];
      first + Rendered(s, keys[1..])
  }

  /**
   * The indexed keys a node's human prompt interpolates, in the order it
   * interpolates them. Only `create_design_doc_node` puts a counter into its
   * prompt; the other counters a node indexes are logged, not sent.
   */
  function PromptKeys(n: Stage): seq<Key<LegacyCounter>> {
    match n
    case GetUserRequirements => []
    case GenerateUserStories => [TextKeyOf(UserRequirement), TextKeyOf(PoReviewComment)]
    case PoReviewStories => [TextKeyOf(GeneratedUserStories), TextKeyOf(UserRequirement)]
    case CreateDesignDoc =>
      [TextKeyOf(GeneratedUserStories), TextKeyOf(UserRequirement), TextKeyOf(DesignDocReviewComments),
       CounterKeyOf(DesignDocReviewCount)]
    case DesignDocReview => [TextKeyOf(DesignDoc), TextKeyOf(GeneratedUserStories), TextKeyOf(UserRequirement)]
    case Coder =>
      [TextKeyOf(UserRequirement), TextKeyOf(GeneratedUserStories), TextKeyOf(DesignDoc),
       TextKeyOf(CodeReviewComments), TextKeyOf(SecurityReviewComments)]
    case CodeReviewer =>
      [TextKeyOf(GeneratedCode), TextKeyOf(UserRequirement), TextKeyOf(GeneratedUserStories), TextKeyOf(DesignDoc)]
    case SecurityReview =>
      [TextKeyOf(GeneratedCode), TextKeyOf(UserRequirement), TextKeyOf(GeneratedUserStories), TextKeyOf(DesignDoc)]
    case WriteTestCases =>
      [TextKeyOf(UserRequirement), TextKeyOf(GeneratedUserStories), TextKeyOf(DesignDoc),
       TextKeyOf(SecurityReviewComments), TextKeyOf(TestCaseReviewComments)]
    case TestCaseReview =>
      [TextKeyOf(GeneratedTestCases), TextKeyOf(UserRequirement), TextKeyOf(GeneratedUserStories),
       TextKeyOf(DesignDoc), TextKeyOf(SecurityReviewComments)]
    case QaTesting => [TextKeyOf(GeneratedTestCases), TextKeyOf(GeneratedCode), TextKeyOf(UserRequirement)]
    case FixCodeAfterQa => [TextKeyOf(GeneratedCode), TextKeyOf(QaTestingResult), TextKeyOf(UserRequirement)]
    case Deployment => [TextKeyOf(GeneratedCode), TextKeyOf(UserRequirement)]
    case MonitoringFeedback => [TextKeyOf(GeneratedCode), TextKeyOf(DeploymentPlan), TextKeyOf(UserRequirement)]
    case MaintenanceUpdates => [TextKeyOf(GeneratedCode), TextKeyOf(UserRequirement)]
  }

  /** Indexing a node's prelude succeeded, so every key its prompt interpolates is present. */
  lemma PromptKeysPresent(s: LegacyState, n: Stage)
    requires forall i :: 0 <= i < |Prelude(n)| ==> Has(s, Prelude(n)[i])
    ensures forall i :: 0 <= i < |PromptKeys(n)| ==> Has(s, PromptKeys(n)[i])
  {
    assert forall k :: k in PromptKeys(n) ==> k in Prelude(n);
    forall i | 0 <= i < |PromptKeys(n)| ensures Has(s, PromptKeys(n)[i]) {
      assert PromptKeys(n)[i] in Prelude(n);
      var j :| 0 <= j < |Prelude(n)| && Prelude(n)[j] == PromptKeys(n)[i];
    }
  }

  /** The values a node's prompt is built from: its prompt keys, and the maintenance node's monitoring plan, read with a default. */
  function Inputs(n: Stage, s: LegacyState): seq<string>
    requires forall i :: 0 <= i < |PromptKeys(n)| ==> Has(s, PromptKeys(n)[i])
  {
    Rendered(s, PromptKeys(n)) + if n == MaintenanceUpdates then [GetText(s, MonitoringPlan, "")] else []
  }

  /** Rendering keys that are all text fields reads only the texts of the record. */
  lemma {:induction false} RenderedTexts(s: LegacyState, t: LegacyState, keys: seq<Key<LegacyCounter>>)
    requires forall i :: 0 <= i < |keys| ==> keys[i].TextKeyOf? && Has(s, keys[i])
    requires s.texts == t.texts
    ensures forall i :: 0 <= i < |keys| ==> Has(t, keys[i])
    ensures Rendered(s, keys) == Rendered(t, keys)
  {
    if keys != [] {
      RenderedTexts(s, t, keys[1..]);
    }
  }

  /**
   * Every prompt but the design document's is a function of the texts alone:
   * two records with the same texts, whatever their counters and transcripts,
   * give the node the same prompt.
   */
  lemma OnlyDesignPromptCounts(n: Stage, s: LegacyState, t: LegacyState)
    requires n != CreateDesignDoc && s.texts == t.texts
    requires forall i :: 0 <= i < |PromptKeys(n)| ==> Has(s, PromptKeys(n)[i])
    ensures forall i :: 0 <= i < |PromptKeys(n)| ==> Has(t, PromptKeys(n)[i])
    ensures Inputs(n, s) == Inputs(n, t)
  {
    RenderedTexts(s, t, PromptKeys(n));
  }

  /** Every key a node copies into its answer is in the record. */
  predicate CopiedPresent(s: LegacyState, n: Stage) {
    && (forall f :: TextKeyOf(f) in Copied(n) ==> f in s.texts)
    && (forall c :: CounterKeyOf(c) in Copied(n) ==> c in s.counters)
  }

  /**
   * The answer of a node that lists its keys: the copied keys, its output,
   * its counter one above the value it read, and the new transcript.
   */
  function Listed(s: LegacyState, n: Stage, out: string, messages: seq<Message>): (u: LegacyState)
    requires CopiedPresent(s, n)
    ensures Output(n) in u.texts && u.texts[Output(n)] == out
    ensures forall g :: g in u.texts && g != Output(n) ==> g in s.texts && u.texts[g] == s.texts[g]
    ensures Bumps(n).Some? ==> Bumps(n).value in u.counters && u.counters[Bumps(n).value] == GetCounter(s, Bumps(n).value, 0) + 1
    ensures forall c :: c in u.counters && Some(c) != Bumps(n) ==> c in s.counters && u.counters[c] == s.counters[c]
    ensures u.messages == Some(messages)
  {
    var texts := map f | f in AllTextFields && TextKeyOf(f) in Copied(n) :: s.texts[f];
    var counters := map c | c in AllLegacyCounters && CounterKeyOf(c) in Copied(n) :: s.counters[c];
    Record(texts[Output(n) := out],
           if Bumps(n).Some? then counters[Bumps(n).value := GetCounter(s, Bumps(n).value, 0) + 1] else counters,
           Some(messages))
  }

  /** Merging a listed answer changes only the node's output and counter: every copied value is the record's own. */
  lemma ListedFrame(s: LegacyState, n: Stage, out: string, messages: seq<Message>)
    requires CopiedPresent(s, n)
    ensures Frame(s, Merge(s, Listed(s, n, out, messages)), Output(n), Bumps(n))
    ensures Merge(s, Listed(s, n, out, messages)).texts[Output(n)] == out
    ensures Merge(s, Listed(s, n, out, messages)).messages == Some(messages)
  {
    MergeEcho(s, Listed(s, n, out, messages), Output(n), out, Bumps(n));
  }

  /** Indexing every key a node reads succeeded, so the prompt's keys and the copied keys are present. */
  lemma ReadsPresent(s: LegacyState, n: Stage)
    requires forall i :: 0 <= i < |Reads(n)| ==> Has(s, Reads(n)[i])
    ensures forall i :: 0 <= i < |Prelude(n)| ==> Has(s, Prelude(n)[i])
    ensures CopiedPresent(s, n)
  {
    var a, b := Prelude(n), Copied(n);
    assert forall i :: 0 <= i < |a| ==> Reads(n)[i] == a[i];
    forall k | k in b ensures Has(s, k) {
      var j :| 0 <= j < |b| && b[j] == k;
      assert Reads(n)[|a| + j] == k;
    }
    forall f | TextKeyOf(f) in b ensures f in s.texts {
      assert Has(s, TextKeyOf(f));
    }
    forall c | CounterKeyOf(c) in b ensures c in s.counters {
      assert Has(s, CounterKeyOf(c));
    }
  }

  /**
   * `t` is what a generating node `n` leaves: only its output field and its
   * counter changed, and the transcript extended by its prompt pair and its
   * tagged answer, the answer being the trimmed reply to that prompt.
   */
  ghost predicate Produces(w: Wording<Stage>, n: Stage, gen: seq<Message> -> string, s: LegacyState, t: LegacyState) {
    && Frame(s, t, Output(n), Bumps(n))
    && t.messages.Some?
    && Said(w, n, gen, Strip, GetMessages(s), t.messages.value, t.texts[Output(n)])
  }

  /**
   * `get_user_requirements_node`: raises when `req_build.md` cannot be
   * opened; otherwise returns only `user_requirement`, the file's contents,
   * and leaves the transcript alone.
   */
  function GetUserRequirementsNode(requirements: Option<string>, s: LegacyState): (r: Result<LegacyState, NodeError>)
    ensures r.Failure? <==> requirements.None?
    ensures r.Failure? ==> r.error == FileNotFound(RequirementsFile)
    ensures r.Success? ==>
      r.value.messages.None? && Merge(s, r.value) == s.(texts := s.texts[UserRequirement := requirements.value])
  {
    if requirements.None? then Failure(FileNotFound(RequirementsFile))
    else Success(Record(map[UserRequirement := requirements.value], map[], None))
  }

  /**
   * Every other node: it raises the `KeyError` of the first key it indexes
   * that is missing; otherwise the merged record differs from the input only
   * in the node's output field and counter, and the transcript gains the
   * node's three messages.
   */
  function GeneratingNode(env: LegacyEnv, step: nat, n: Stage, s: LegacyState): (r: Result<LegacyState, NodeError>)
    requires n != GetUserRequirements
    ensures r.Failure? <==> Missing(s, Reads(n)).Some?
    ensures r.Failure? ==> r.error == KeyError(KeyName(Missing(s, Reads(n)).value, LegacyCounterKey))
    ensures r.Success? ==> Produces(env.wording, n, Gen(env, step, n), s, Merge(s, r.value))
    ensures r.Success? ==>
      && (forall i :: 0 <= i < |PromptKeys(n)| ==> Has(s, PromptKeys(n)[i]))
      && Prompted(env.wording, n, Inputs(n, s), s, Merge(s, r.value))
  {
    match Missing(s, Reads(n))
    case Some(k) => Failure(KeyError(KeyName(k, LegacyCounterKey)))
    case None =>
      ReadsPresent(s, n);
      PromptKeysPresent(s, n);
      var t := Converse(env.wording, n, Inputs(n, s), Gen(env, step, n), Strip, GetMessages(s));
      if Spreads(n) then
        Success(Rewrite(s, Output(n), t.output, Bumps(n), t.messages))
      else
        ListedFrame(s, n, t.output, t.messages);
        Success(Listed(s, n, t.output, t.messages))
  }

  /** The node function registered under `n`, run as the `step`-th node. */
  function RunNode(env: LegacyEnv, step: nat, n: Stage, s: LegacyState): Result<LegacyState, NodeError> {
    if n == GetUserRequirements then GetUserRequirementsNode(env.requirements, s)
    else GeneratingNode(env, step, n, s)
  }

  /** `fix_code_after_qa_node` changes only `generated_code` (and the transcript), and raises no counter. */
  lemma FixChangesOnlyCode(env: LegacyEnv, step: nat, s: LegacyState)
    requires RunNode(env, step, FixCodeAfterQa, s).Success?
    ensures Frame(s, Merge(s, RunNode(env, step, FixCodeAfterQa, s).value), GeneratedCode, None)
    ensures GetMessages(s) < GetMessages(Merge(s, RunNode(env, step, FixCodeAfterQa, s).value))
  {
    var t := Merge(s, RunNode(env, step, FixCodeAfterQa, s).value);
    assert Produces(env.wording, FixCodeAfterQa, Gen(env, step, FixCodeAfterQa), s, t);
    assert GetMessages(t)[..|GetMessages(s)|] == GetMessages(s);
  }

  /** Every node that raises a counter indexes it first. */
  lemma IndexesItsCounter(n: Stage)
    requires Bumps(n).Some?
    ensures CounterKeyOf(Bumps(n).value) in Reads(n)
  {
    assert Reads(n) == Prelude(n) + Copied(n);
    match n
    case GenerateUserStories => assert Prelude(n)[2] == CounterKeyOf(StoriesCount);
    case CreateDesignDoc => assert Prelude(n)[2] == CounterKeyOf(DesignDocReviewCount);
    case Coder => assert Prelude(n)[4] == CounterKeyOf(CodeCount);
    case SecurityReview => assert Prelude(n)[4] == CounterKeyOf(SecurityCount);
    case WriteTestCases => assert Prelude(n)[5] == CounterKeyOf(TestCaseCount);
  }

  /**
   * A node that raises a counter needs it in the record (a missing one is a
   * `KeyError`, not a zero) and raises it by one from the value it indexed.
   */
  lemma RaisesIndexedCounter(env: LegacyEnv, step: nat, n: Stage, s: LegacyState)
    requires Bumps(n).Some? && RunNode(env, step, n, s).Success?
    ensures Bumps(n).value in s.counters
    ensures Merge(s, RunNode(env, step, n, s).value).counters[Bumps(n).value] == s.counters[Bumps(n).value] + 1
  {
    var c := Bumps(n).value;
    IndexesItsCounter(n);
    var i :| 0 <= i < |Reads(n)| && Reads(n)[i] == CounterKeyOf(c);
    assert Has(s, Reads(n)[i]);
    assert Frame(s, Merge(s, RunNode(env, step, n, s).value), Output(n), Bumps(n));
  }

  /** A record with every key has every key a node indexes. */
  lemma CompleteHas(s: LegacyState, keys: seq<Key<LegacyCounter>>)
    requires Complete(s)
    ensures forall i :: 0 <= i < |keys| ==> Has(s, keys[i])
  {
  }

  /**
   * On a record with every key, every node but the first returns, and the
   * merged record keeps every key; the first returns when the file can be read.
   */
  lemma NodeKeepsKeys(env: LegacyEnv, step: nat, n: Stage, s: LegacyState)
    requires Complete(s) && (n == GetUserRequirements ==> env.requirements.Some?)
    ensures RunNode(env, step, n, s).Success?
    ensures Complete(Merge(s, RunNode(env, step, n, s).value))
  {
    CompleteHas(s, Reads(n));
    var t := Merge(s, RunNode(env, step, n, s).value);
    if n != GetUserRequirements {
      assert Frame(s, t, Output(n), Bumps(n));
      forall c: LegacyCounter ensures c in t.counters {
        assert c in s.counters;
      }
    }
  }

  /** A node's answer is the trimmed generator reply to the prompt it recorded. */
  lemma AnswerFromOracle(env: LegacyEnv, step: nat, n: Stage, s: LegacyState, t: LegacyState)
    requires Produces(env.wording, n, Gen(env, step, n), s, t)
    ensures var h := GetMessages(s);
      t.texts[Output(n)] == Strip(env.oracle(step, n, t.messages.value[|h|..|h| + 2]))
  {
  }
}
