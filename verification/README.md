# SDLC workflow state machine in Dafny

This project models the orchestration core of `ai_agentic_sdlc`: a fixed
graph of software-lifecycle stages run by langgraph over one shared record.
The record holds fourteen text artefacts, the iteration counters and a message
transcript. Each stage reads some fields, sends a two-message prompt to a
language model, trims the reply and returns the fields it writes together with
the transcript extended by the prompt and a tagged answer. Review stages are
followed by a condition that either advances (the review contains its
approval phrase), retries the producing stage (counter below
`MAX_ITERATIONS = 10`), or advances anyway at the ceiling. The QA condition has
no counter. A run starts from a fixed initial record and stops at `END`, on a
raised `KeyError`/missing file, or at the recursion limit of 100 stage steps.

Two variants are modelled:

* the live one: the record in `src/state/state.py`, the stage functions in
  `src/nodes/workflow_nodes.py`, the helpers in `src/nodes/common.py`, the graph
  with its live callback in `src/graph/workflow.py` and the entry point
  `src/ui/run_workflow.py` (plus the callback-free runner and result projection
  at the end of `src/nodes/workflow_nodes.py`);
* the older standalone script `code_hack_modified.py`. It has its own record
  (five counters; the design loop counts in `design_doc_review_count`; no QA
  counter), nodes that index every key they read directly, a
  `fix_code_after_qa_node` that answers a failed QA, a model table and an
  extractor that returns `None`.

The language model is a response oracle `(step, stage, prompt) -> string`. The
prompt wording is kept abstract (a `Wording` record of functions), and the
requirements file read is an `Option<string>`. langgraph itself is the generic
`Engine` module:

* a returned dictionary overwrites its keys and leaves the rest (`State.Merge`);
* langgraph follows every edge registered from a node; the model follows the
  first registered edge (`Engine.RuleFor`). The two agree here because both
  graphs register exactly one edge per node (`Workflow.EdgeTable`,
  `LegacyWorkflow.EdgeTable`);
* the run is a step function (`Engine.StepFrom`), and `Engine.RunFrom`
  iterates it under the limit;
* `Engine.Invoke` is the same run as a `while` loop, proved equal to
  `RunFrom`;
* the builder is a class whose methods append to its fields.

Modules:

| file | module | contents |
|---|---|---|
| `wrappers.dfy` | `Wrappers` | `Option`, `Result` |
| `pystr.dfy` | `PyStr` | `str.strip`, ASCII `str.lower`, `str.find`, `in` |
| `state.dfy` | `State` | the record, the markers, `Merge`, the frame predicate, the review gate, key indexing |
| `common.dfy` | `Common` | the delimiter extractor, the live-callback wrapper, one prompt/answer exchange |
| `engine.dfy` | `Engine` | graph, builder class, step function, run, `invoke` loop |
| `nodes.dfy` | `WorkflowNodes` | the fourteen live stage functions |
| `workflow.dfy` | `Workflow` | the six live conditions, the builder calls, the edge table |
| `run_workflow.dfy` | `RunWorkflow` | initial state, the run, result projection, the run invariant |
| `run_properties.dfy` | `RunProperties` | the approving run, the failing-QA run, the test-case loop past its ceiling |
| `legacy_nodes.dfy` | `LegacyNodes` | model table, `None` extractor, the fifteen standalone nodes |
| `legacy_workflow.dfy` | `LegacyWorkflow` | the standalone conditions, builder calls and edge table |
| `legacy_run.dfy` | `LegacyRun` | the standalone run, its invariant, its QA/fix loop |

Behaviour of the code worth knowing:

* `qa_testing_node` never increments `qa_testing_iteration`. It only requires
  the key to be present. In every run the counter stays 0 (`RunWorkflow.LiveRunSafe`).
* On the all-approving run, the transcript has 1 + 13 × 3 = 40 entries (the
  greeting, and no exchange for the requirements stage). Every counter ends at
  1 except the QA counter, which stays 0 (`RunProperties.HappyPath`).
* In the live graph a failed QA returns to `coder`, and an approving security
  review then re-enters `write_test_cases`. So `write_test_cases` is not bounded
  by the ceiling: with approving reviews and a failing QA it runs 16 times in
  100 steps (`RunProperties.TestCasesPastCeiling`). In the standalone graph
  the QA loop goes through `fix_code_after_qa_node`, and there
  `write_test_cases` stays within 10 runs (`LegacyRun.LegacyRunSafe`).

## Model

| member | source | states |
|---|---|---|
| PyStr.Strip | src/nodes/workflow_nodes.py:50 | `str.strip()`: the result is the contiguous middle of the input; everything cut off on either side is whitespace, and the result neither starts nor ends with whitespace |
| PyStr.Find | src/nodes/common.py:28 | `text.find(pattern)` is -1 exactly when the pattern occurs nowhere, and otherwise is its least occurrence |
| PyStr.FindContains | src/nodes/common.py:28-29 | `find` reports a position exactly when the pattern is a substring |
| State.Merge | src/nodes/workflow_nodes.py:18-26 | merging a returned dictionary: its keys overwrite, every other key keeps its value, and the transcript is replaced only when returned |
| State.IndexAll | src/nodes/workflow_nodes.py:353-355 | indexing several keys in order fails exactly when one is absent, with the `KeyError` of the first absent one, and otherwise yields their values |
| State.Rewrite | src/nodes/workflow_nodes.py:377-381 | a `{**state, f: out, ...}` dictionary already is the merged record, and it differs from the input only in `f`, the bumped counter and the transcript |
| State.Gate | src/graph/workflow.py:82-93 | a review decision returns the advance or the retry target, and retries exactly when unapproved and the counter is below 10 |
| State.Missing | code_hack_modified.py:113-115 | indexing keys one after another reports a key exactly when some key is absent, and the key it reports is the first absent one, the one whose `state[...]` raises |
| State.MarkerLower | src/state/state.py:7-14 | each of the six approval phrases is non-empty and already lower-case |
| State.ApprovalIgnoresCase | src/graph/workflow.py:85 | whether a review approves depends only on the lower-cased text, so the marker test is case-insensitive |
| State.MarkerApproves | src/state/state.py:7-14 | a review consisting of the phrase in any case approves, and an empty review never does |
| State.RecordShape | src/state/state.py:16-37 | the record has exactly 14 text fields and 6 counters |
| State.MergeKeepsComplete | src/ui/run_workflow.py:16-38 | a record that has every key keeps every key after any merge |
| Common.ExtractContentAfterPattern | src/nodes/common.py:26-31 | the result is a suffix of the text; it is the whole text when the delimiter is absent, and otherwise starts right after the delimiter's first occurrence |
| Common.ExtractDropsPreamble | src/nodes/common.py:26-31 | round trip: a reasoning preamble without `<`, the delimiter and an answer come back as exactly the answer, even when the answer repeats the delimiter |
| Common.WithLiveCallback | src/nodes/common.py:34-40 | the wrapped stage returns exactly what the stage returns; with an observer and a returning stage the observer is called once with the returned transcript (empty when absent), otherwise never |
| Common.Converse | src/nodes/workflow_nodes.py:41-57 | the new transcript is the old one followed by the system prompt, the human instruction and the tagged answer, and the answer is the cleaned reply to exactly those two prompt messages |
| Engine.RuleFor | src/graph/workflow.py:157-201 | the edge used after a node is the first one registered for it, and there is none exactly when no edge leaves the node |
| Engine.Start | src/ui/run_workflow.py:46 | a run starts at the entry node with the input record and an empty trace |
| Engine.StepFrom | src/ui/run_workflow.py:46-49 | one step: `END` finishes with the current record; 100 steps taken stops at the limit; otherwise the node runs, its dictionary is merged, the node is appended to the trace, its notifications are appended, and the edge picks the next target from the merged record |
| Engine.RunFrom | src/ui/run_workflow.py:46-49 | a run only extends the trace and the notifications it starts from, never exceeds the limit, and stops at the limit only after 100 steps |
| Engine.Invoke | src/ui/run_workflow.py:46-49 | the `invoke` loop computes exactly the run, in at most 100 steps |
| Engine.StateGraph.constructor | src/graph/workflow.py:34 | a new builder has no nodes, no entry and no edges |
| Engine.StateGraph.AddNode | src/graph/workflow.py:38-79 | registering a node appends it and changes nothing else |
| Engine.StateGraph.AddStartEdge | src/graph/workflow.py:157 | the edge from `START` sets the entry node and changes nothing else |
| Engine.StateGraph.AddEdge | src/graph/workflow.py:159-161 | a fixed edge is appended to the rules and changes nothing else |
| Engine.StateGraph.AddConditionalEdges | src/graph/workflow.py:163-166 | a conditional edge is appended to the rules and changes nothing else |
| Engine.StateGraph.Compile | src/graph/workflow.py:204 | compiling succeeds exactly when the builder is well formed, yields its entry, nodes and rules, and fails without an entry |
| WorkflowNodes.Cleaned | src/nodes/workflow_nodes.py:50-51 | only the user-stories and PO-review replies go through the extractor after `strip()`; every other reply is only stripped |
| WorkflowNodes.OnlyFirstWritesRequirement | src/nodes/workflow_nodes.py:18-26 | `user_requirement` is the output of the requirements stage and of no other |
| WorkflowNodes.Spread | src/nodes/workflow_nodes.py:131-136 | a stage returning `{**state, ...}` changes only its output, its counter (by one) and the transcript, which grows by the three entries of its exchange |
| WorkflowNodes.GetUserRequirementsNode | src/nodes/workflow_nodes.py:18-26 | only `user_requirement` changes, to the file contents or "No requirements found"; no counter and no transcript entry |
| WorkflowNodes.GenerateUserStoriesNode | src/nodes/workflow_nodes.py:29-68 | raises exactly when `user_requirement` is absent; its prompt is built from `user_requirement` and `po_review_comment` (absent as ""); bumps `stories_correction_iteration` from its value or 0; writes the defaulted fields back; on a record that has them it is an ordinary generating stage |
| WorkflowNodes.PoReviewStoriesNode | src/nodes/workflow_nodes.py:71-100 | raises exactly when a key it indexes is absent, naming the first; otherwise its prompt is built from the stories and the requirement, and it changes only `po_review_comment` and the transcript |
| WorkflowNodes.CreateDesignDocNode | src/nodes/workflow_nodes.py:103-136 | as above; prompt from the stories, the requirement and `design_doc_review_comments` (absent as ""); writes `design_doc` and bumps `design_doc_review_iteration` by one |
| WorkflowNodes.DesignDocReviewNode | src/nodes/workflow_nodes.py:139-168 | as above; prompt from the design document, the stories and the requirement; writes `design_doc_review_comments`, no counter |
| WorkflowNodes.CoderNode | src/nodes/workflow_nodes.py:171-206 | as above; prompt from the requirement, the stories, the design document, and the code review, security review and QA result (each absent as ""); writes `generated_code` and bumps `code_review_iteration` by one |
| WorkflowNodes.CodeReviewerNode | src/nodes/workflow_nodes.py:209-239 | as above; prompt from the code, the requirement, the stories and the design document; writes `code_review_comments`, no counter |
| WorkflowNodes.SecurityReviewNode | src/nodes/workflow_nodes.py:242-275 | as above; prompt from the code, the requirement, the stories and the design document; writes `security_review_comments` and bumps `security_review_iteration` by one |
| WorkflowNodes.WriteTestCasesNode | src/nodes/workflow_nodes.py:278-313 | as above; prompt from the requirement, the stories, the design document, and the security and test-case reviews (absent as ""); writes `generated_test_cases` and bumps `test_case_review_iteration` by one |
| WorkflowNodes.TestCaseReviewNode | src/nodes/workflow_nodes.py:316-347 | as above; prompt from the test cases, the requirement, the stories, the design document and the security review (absent as ""); writes `test_case_review_comments`, no counter |
| WorkflowNodes.QaTestingNode | src/nodes/workflow_nodes.py:350-381 | raises also when `qa_testing_iteration` is absent; prompt from the test cases, the code and the requirement; writes `qa_testing_result` and leaves every counter, that one included, unchanged |
| WorkflowNodes.DeploymentNode | src/nodes/workflow_nodes.py:417-446 | raises exactly when a key it indexes is absent; otherwise its prompt is built from the code and the requirement, and it changes only `deployment_plan` and the transcript |
| WorkflowNodes.MonitoringFeedbackNode | src/nodes/workflow_nodes.py:449-479 | as above; prompt from the code, the deployment plan and the requirement; writes `monitoring_plan` |
| WorkflowNodes.MaintenanceUpdatesNode | src/nodes/workflow_nodes.py:482-512 | as above; prompt from the code, the requirement and `monitoring_plan` (absent as ""); writes `maintenance_plan` |
| WorkflowNodes.StageEffect | src/nodes/workflow_nodes.py:18-512 | on a record with every key, every stage returns and the merged record keeps every key; the requirements stage only sets the requirement; every other stage is a generating stage |
| WorkflowNodes.AnswerFromOracle | src/nodes/workflow_nodes.py:47-51 | the text a stage records is the cleaned oracle answer to the very prompt pair it recorded |
| Workflow.ReviewConditionStories | src/graph/workflow.py:82-93 | returns `create_design_doc` or `generate_user_stories`, and retries exactly when the comment (absent as "") lacks the phrase and the counter (absent as 0) is below 10 |
| Workflow.ReviewConditionDesignDoc | src/graph/workflow.py:94-106 | the same for the design document: `coder` or `create_design_doc` |
| Workflow.ReviewConditionCodeReview | src/graph/workflow.py:107-119 | the same for the code review: `security_review` or `coder` |
| Workflow.ReviewConditionSecurityReview | src/graph/workflow.py:120-132 | the same for the security review, which retries at `coder`: `write_test_cases` or `coder` |
| Workflow.ReviewConditionTestcaseReview | src/graph/workflow.py:133-145 | the same for the test cases: `qa_testing` or `write_test_cases` |
| Workflow.QaTestingCondition | src/graph/workflow.py:146-154 | returns `deployment` exactly when the result contains its phrase, and `coder` otherwise |
| Workflow.Decide | src/graph/workflow.py:163-197 | every live condition returns a node and never raises |
| Workflow.AddLiveNodes | src/graph/workflow.py:38-79 | registers the fourteen stages in order, leaving the entry and the edges alone |
| Workflow.AddLiveBuildNodes | src/graph/workflow.py:38-60 | registers the first eight stages |
| Workflow.AddLiveReleaseNodes | src/graph/workflow.py:62-79 | registers the last six stages |
| Workflow.AddLiveEdges | src/graph/workflow.py:159-201 | registers the fourteen edges in order, leaving the entry and the nodes alone |
| Workflow.AddLiveBuildEdges | src/graph/workflow.py:159-185 | registers the first eight edges |
| Workflow.AddLiveReleaseEdges | src/graph/workflow.py:187-201 | registers the last six edges |
| Workflow.BuildWorkflowGraph | src/graph/workflow.py:31-207 | building the graph yields exactly the live graph |
| Workflow.LiveGraphCompiles | src/graph/workflow.py:204 | compiling the filled builder yields the live graph |
| Workflow.LiveNext | src/graph/workflow.py:157-201 | the edge taken after each stage is its entry in the edge table |
| Workflow.EdgeTable | src/graph/workflow.py:157-201 | every stage has exactly one outgoing edge, and `maintenance_updates` → `END` is the only exit |
| Workflow.OnlyExit | src/graph/workflow.py:201 | the run can reach `END` only from `maintenance_updates` |
| Workflow.LiveGraphWellFormed | src/graph/workflow.py:38-201 | the stages are registered once each, and every edge leaves and reaches a registered stage |
| Workflow.QaIgnoresCounters | src/graph/workflow.py:146-154 | the QA decision does not depend on any counter |
| Workflow.ApprovalAdvances | src/graph/workflow.py:85-87 | a review containing its phrase advances, whatever its counter |
| Workflow.ForcedAdvance | src/graph/workflow.py:88-92 | a counter at 10 or more advances, whatever the review says |
| Workflow.AbsentKeys | src/graph/workflow.py:85-89 | an absent comment counts as unapproved and an absent counter as 0, so the stories are redone |
| RunWorkflow.InitialState | src/ui/run_workflow.py:16-38 | the initial record has every key, all texts "", all counters 0, and the transcript is the one greeting |
| RunWorkflow.RunWorkflow | src/ui/run_workflow.py:15-50 | the entry point returns exactly the run of the live graph from the initial record under the limit of 100 |
| RunWorkflow.ProjectResult | src/nodes/workflow_nodes.py:706-728 | the result projection raises exactly when a result key is absent, naming the first, and returns a record with every key unchanged |
| RunWorkflow.RunWorkflowStandalone | src/nodes/workflow_nodes.py:667-728 | the callback-free runner returns a result exactly when the run finished, and that result is the final record |
| RunWorkflow.SaneStep | src/nodes/workflow_nodes.py:18-512 | every step from a record satisfying the run invariant (counters equal visit counts, transcript length, placement of visits) continues and keeps the invariant |
| RunWorkflow.RunKeeps | src/ui/run_workflow.py:46-49 | the invariant holds to the end of every run |
| RunWorkflow.LiveRunSafe | src/ui/run_workflow.py:15-50 | every run finishes or hits the limit, never raises, takes 1 to 100 steps, fetches the requirements first and once, and produces stories and design documents at most 10 times each; every counter equals the visits of its stage and the QA counter stays 0; the transcript has 3·steps − 2 entries and starts with the greeting; with a callback there is one notification per step |
| RunProperties.ApprovedAdvances | src/graph/workflow.py:82-154 | after an approving review the run goes to the next stage of the list |
| RunProperties.DirectAdvances | src/graph/workflow.py:157-201 | a fixed edge goes to the next stage of the list, or to `END` after the last |
| RunProperties.HappyPath | src/graph/workflow.py:157-201 | when every first review approves, the run visits the fourteen stages once each, in order, and finishes; every counter is 1 except the QA counter (0); the transcript has 40 entries; with a callback there are 14 notifications |
| RunProperties.StaysBeforeDeployment | src/graph/workflow.py:157-201 | from any stage before QA the next stage is never deployment or later |
| RunProperties.QaRejectLoops | src/graph/workflow.py:146-154 | an unapproved QA result sends the run back to `coder` |
| RunProperties.QaFailureHitsLimit | src/graph/workflow.py:146-154 | if QA never passes, every run hits the limit at 100 steps and never reaches deployment |
| RunProperties.TestCasesPastCeiling | src/graph/workflow.py:120-154 | with approving reviews and a failing QA, `coder`, `security_review` and `write_test_cases` each run 16 times, so `test_case_review_iteration` ends at 16, above the ceiling |
| LegacyNodes.FirstValue | code_hack_modified.py:42-43 | the value of the first entry with the key, and "" when no entry has it |
| LegacyNodes.ModelLookup | code_hack_modified.py:33-46 | each of the six model keys yields its own model id |
| LegacyNodes.ModelTable | code_hack_modified.py:26-46 | a name yields a non-empty model id exactly when it is one of the six keys (`None` yields "") |
| LegacyNodes.ModelKeysDistinct | code_hack_modified.py:33-40 | no two table entries share a key |
| LegacyNodes.ExtractOrNone | code_hack_modified.py:94-107 | `None` exactly when the delimiter is absent, and otherwise the same suffix as the live extractor |
| LegacyNodes.LegacyShape | code_hack_modified.py:49-70 | this record has exactly five counters |
| LegacyNodes.GetUserRequirementsNode | code_hack_modified.py:82-91 | raises `FileNotFoundError` for `req_build.md` exactly when the file cannot be read; otherwise only `user_requirement` changes, with no transcript entry |
| LegacyNodes.GeneratingNode | code_hack_modified.py:110-783 | a generating node raises exactly when a key it indexes is absent, naming the first; otherwise its prompt is built from the values the node's f-string interpolates, in order (the maintenance node adds the monitoring plan read with a default), and it changes only its output, its counter (by one) and the transcript (three entries appended, the answer the stripped reply) |
| LegacyNodes.PromptKeysPresent | code_hack_modified.py:110-783 | every key a node's prompt interpolates is among the keys it indexes first, so a node that got past its indexing has every prompt value |
| LegacyNodes.OnlyDesignPromptCounts | code_hack_modified.py:223 | every prompt but `create_design_doc_node`'s depends on the text fields alone: two records with the same texts give the same prompt values whatever their counters |
| LegacyNodes.FixChangesOnlyCode | code_hack_modified.py:622-661 | `fix_code_after_qa_node` changes only `generated_code` and the transcript, bumps no counter, and the old transcript is a proper prefix of the new |
| LegacyNodes.RaisesIndexedCounter | code_hack_modified.py:110-520 | a node that raises a counter (`stories_correction_iteration`, `design_doc_review_count`, `code_review_iteration`, `security_review_iteration`, `test_case_review_iteration`) needs it in the record and raises it by one from the value it indexed |
| LegacyNodes.NodeKeepsKeys | code_hack_modified.py:82-783 | on a record with every key, every node returns (the first when the file is readable) and the merged record keeps every key |
| LegacyNodes.AnswerFromOracle | code_hack_modified.py:130-139 | the text a node records is the stripped oracle answer to the prompt pair it recorded |
| LegacyWorkflow.CountedReview | code_hack_modified.py:819-917 | a counted condition raises when its counter (or an indexed comment) is absent; it returns the advance or the retry target, and retries exactly when unapproved and the counter is below 10 |
| LegacyWorkflow.QaTestingCondition | code_hack_modified.py:927-933 | raises without `qa_testing_result`; returns `deployment_node` exactly when the result contains the phrase, else `fix_code_after_qa_node` |
| LegacyWorkflow.Decide | code_hack_modified.py:819-939 | a condition that returns picks a node, and on a record with every key it always returns |
| LegacyWorkflow.StoriesConditionNeedsCounter | code_hack_modified.py:819-826 | the stories condition raises on a missing `stories_correction_iteration` before looking at the review |
| LegacyWorkflow.AddLegacyNodes | code_hack_modified.py:792-806 | registers the fifteen nodes in order, leaving the entry and the edges alone |
| LegacyWorkflow.AddLegacyBuildNodes | code_hack_modified.py:792-799 | registers the first eight nodes |
| LegacyWorkflow.AddLegacyReleaseNodes | code_hack_modified.py:800-806 | registers the last seven nodes |
| LegacyWorkflow.AddLegacyEdges | code_hack_modified.py:813-944 | registers the fifteen edges in order, leaving the entry and the nodes alone |
| LegacyWorkflow.AddLegacyBuildEdges | code_hack_modified.py:813-897 | registers the first eight edges |
| LegacyWorkflow.AddLegacyReleaseEdges | code_hack_modified.py:902-944 | registers the last seven edges |
| LegacyWorkflow.BuildLegacyGraph | code_hack_modified.py:788-947 | building the script's graph yields exactly the standalone graph |
| LegacyWorkflow.LegacyGraphCompiles | code_hack_modified.py:947 | compiling the filled builder yields the standalone graph |
| LegacyWorkflow.LegacyNext | code_hack_modified.py:811-944 | the edge taken after each node is its entry in the edge table |
| LegacyWorkflow.FixedEdges | code_hack_modified.py:941-944 | only `maintenance_updates_node` exits, and only the fix node returns unconditionally to QA |
| LegacyWorkflow.EdgeTable | code_hack_modified.py:811-944 | every node has exactly one outgoing edge; the exit and the fix → QA edge are as above |
| LegacyWorkflow.LegacyGraphWellFormed | code_hack_modified.py:792-944 | the nodes are registered once each, and every edge leaves and reaches a registered node |
| LegacyRun.LegacyInitialState | code_hack_modified.py:964-985 | the initial record has every key, all texts "", all five counters 0, and the greeting |
| LegacyRun.ProjectLegacyResult | code_hack_modified.py:990-1011 | the projection raises exactly when a result key is absent, naming the first, and returns a record with every key unchanged |
| LegacyRun.RunLegacyWorkflow | code_hack_modified.py:953-1011 | the script's runner returns a result exactly when the run finished, and that result is the final record |
| LegacyRun.MissingRequirementsFails | code_hack_modified.py:87-89 | without a readable requirements file the run fails at its first node with `FileNotFoundError` and takes no step |
| LegacyRun.OnlyFirstWritesRequirement | code_hack_modified.py:82-91 | no node but the first writes `user_requirement` |
| LegacyRun.SaneStep | code_hack_modified.py:110-783 | every step from a record satisfying the standalone run invariant continues and keeps it |
| LegacyRun.RunKeeps | code_hack_modified.py:988 | the invariant holds to the end of every run |
| LegacyRun.LegacyRunSafe | code_hack_modified.py:953-988 | with a readable file every run finishes or hits the limit, never raises, takes 1 to 100 steps, fetches the requirements first and once, and produces stories, design documents and test cases at most 10 times each; every counter equals the visits of its stage; the transcript has 3·steps − 2 entries and starts with the greeting; the requirement is the file contents |
| LegacyRun.StaysBeforeDeployment | code_hack_modified.py:811-944 | from any node before QA, and from the fix node, the next node is never deployment or later |
| LegacyRun.QaAnswerLoops | code_hack_modified.py:927-933 | a QA answer without the phrase sends the run to the fix node |
| LegacyRun.LegacyQaFailureHitsLimit | code_hack_modified.py:927-941 | if QA never passes, every run with a readable file hits the limit at 100 steps and never reaches deployment |

## Left out

- Prompt wording and the language-model clients (`src/llms/factory.py`, `ChatGroq` and the other clients in `code_hack_modified.py`): foreign calls. The generator is an oracle from step, stage and prompt pair to a reply, and the prompt texts are abstract functions of the values they interpolate.
- `timer`, logging and `print`: wall-clock and output side effects only.
- `read_file` and `open` for `req_build.md`: file I/O. The file contents are an `Option<string>` parameter. `None` stands for "cannot be read": the live node falls back to "No requirements found", and the standalone node raises.
- The Streamlit front ends, their persistence and their message filters: UI only.
- Module-level effects of `code_hack_modified.py`: `load_dotenv` and the environment writes, `get_user_requirements_test`, the mermaid display and the run at import time.
- The `recursion_hook` entry of the `invoke` configuration (src/ui/run_workflow.py:42-48): langgraph does not call it, so the model does not either.
- langgraph's raising of `GraphRecursionError` is modelled as the outcome `RecursionLimitReached` carrying the last record. The runners then return no result. The exact super-step accounting of langgraph is taken as "at most 100 node executions".
- Node names as strings and the compiled graph object: nodes are identified by a `Stage` value and a compiled graph by its entry, nodes and rules. langgraph's further compile-time checks are summarised as `Engine.StateGraph.WellFormed`.
- The duplicate builder in src/nodes/workflow_nodes.py:515-664 registers the same nodes and edges as src/graph/workflow.py. Both use the one `Workflow.LiveGraph`, and the builder methods model the latter.
- `PyStr.Lower` maps ASCII letters only, and `PyStr.IsSpace` lists the code points Python's `str.isspace()` accepts below U+3001. Non-ASCII case mapping is not modelled.
- LegacyWorkflow.CountedReview: the standalone conditions compare against phrase literals passed through `.lower()`. The model uses the shared marker table instead. These literals equal the lower-cased table entries, but that equality is not proved.
- LegacyNodes.GeneratingNode: the prompt is pinned down as the wording applied to the interpolated values, with `design_doc_review_count` written in decimal. The fixed text around the values is an abstract wording function, because the literal f-string text is not modelled.
- WorkflowNodes.GenerateUserStoriesNode: it states the generating-stage frame only on records that already hold the fields it writes back. On other records its contract gives the written-back defaults and the bumped counter instead.
