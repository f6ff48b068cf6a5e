/**
 * Helpers shared by the stage functions: stripping a reasoning preamble,
 * wrapping a stage so that a live observer sees its transcript, and the
 * three-message exchange every generating stage records.
 */
module Common {
  import opened Wrappers
  import opened PyStr
  import opened State

  /** The line that closes a reasoning model's `<think>` preamble. */
  const ThinkDelimiter: string := "\n</think>\n\n"

  /**
   * `extract_content_after_pattern`: everything after the first occurrence of
   * the delimiter, or the whole text when it does not occur.
   */
  function ExtractContentAfterPattern(text: string): (r: string)
    ensures |r| <= |text| && r == text[|text| - |r|..]
    ensures !Contains(text, ThinkDelimiter) ==> r == text
    ensures Contains(text, ThinkDelimiter) ==>
      && |r| + |ThinkDelimiter| <= |text|
      && OccursAt(text, ThinkDelimiter, |text| - |r| - |ThinkDelimiter|)
      && forall j :: 0 <= j < |text| - |r| - |ThinkDelimiter| ==> !OccursAt(text, ThinkDelimiter, j)
  {
    var position := Find(text, ThinkDelimiter);
    if position == -1 then text else text[position + |ThinkDelimiter|..]
  }

  /**
   * A reply whose preamble has no `<` loses exactly the preamble and the
   * delimiter: the answer after it comes back intact, even if the answer
   * itself contains the delimiter again.
   */
  lemma {:induction false} ExtractDropsPreamble(preamble: string, answer: string)
    requires '<' !in preamble
    ensures ExtractContentAfterPattern(preamble + ThinkDelimiter + answer) == answer
  {
    var text := preamble + ThinkDelimiter + answer;
    assert OccursAt(text, ThinkDelimiter, |preamble|) by {
      assert text[|preamble|..|preamble| + |ThinkDelimiter|] == ThinkDelimiter;
    }
    forall j | 0 <= j < |preamble|
      ensures !OccursAt(text, ThinkDelimiter, j)
    {
      // An occurrence at `j` would put the delimiter's `<` at `j + 1`,
      // which is either inside the preamble or the delimiter's own first `\n`.
      assert text[j + 1] == if j + 1 < |preamble| then preamble[j + 1] else ThinkDelimiter[0];
    }
    var position := Find(text, ThinkDelimiter);
    assert position == |preamble|;
    assert text[position + |ThinkDelimiter|..] == answer;
  }

  /** What a wrapped stage produced, together with the transcripts the live observer was shown. */
  datatype Notified<T> = Notified(result: T, calls: seq<seq<Message>>)

  /**
   * `with_live_callback(fn, live_callback)`: run the stage; when an observer is
   * attached and the stage returned, show it the `messages` of the returned
   * dictionary (empty when it has none). A stage that raises shows nothing.
   */
  function WithLiveCallback<C(==)>(fn: Record<C> -> Result<Record<C>, NodeError>, live: bool, s: Record<C>)
    : (r: Notified<Result<Record<C>, NodeError>>)
    ensures r.result == fn(s)
    ensures !live ==> r == Notified(fn(s), [])
    ensures |r.calls| == (if live && fn(s).Success? then 1 else 0)
    ensures |r.calls| == 1 ==> r.calls[0] == GetMessages(fn(s).value)
  {
    var out := fn(s);
    if live && out.Success? then Notified(out, [GetMessages(out.value)]) else Notified(out, [])
  }

  /**
   * The prompt texts, kept abstract: the system role of a stage, its task
   * text built from the interpolated field values, and the tag that prefixes
   * the recorded answer.
   */
  datatype Wording<!N> = Wording(role: N -> string, task: (N, seq<string>) -> string, tag: N -> string)

  /** The two prompt messages a stage sends. */
  function Prompt<N>(w: Wording<N>, n: N, inputs: seq<string>): (p: seq<Message>)
    ensures |p| == 2 && p[0].System? && p[1].Human?
  {
    [System(w.role(n)), Human(w.task(n, inputs))]
  }

  /**
   * Transcript `m` is history `h` followed by the prompt pair of stage `n` and
   * the tagged answer `out`, and `out` is the cleaned generator reply to
   * exactly the two prompt messages recorded.
   */
  ghost predicate Said<N>(w: Wording<N>, n: N, gen: seq<Message> -> string, clean: string -> string,
                          h: seq<Message>, m: seq<Message>, out: string) {
    && |m| == |h| + 3 && m[..|h|] == h
    && m[|h|] == System(w.role(n)) && m[|h| + 1].Human?
    && m[|h| + 2] == AI(w.tag(n) + out)
    && out == clean(gen(m[|h|..|h| + 2]))
  }

  /**
   * The human message that record `t` holds right after the transcript of `s`
   * is stage `n`'s task built from exactly the values `inputs`.
   */
  ghost predicate Prompted<N, C>(w: Wording<N>, n: N, inputs: seq<string>, s: Record<C>, t: Record<C>) {
    && t.messages.Some? && |GetMessages(s)| + 1 < |t.messages.value|
    && t.messages.value[|GetMessages(s)| + 1] == Human(w.task(n, inputs))
  }

  /** The cleaned answer of one generator call and the transcript that records it. */
  datatype Turn = Turn(output: string, messages: seq<Message>)

  /**
   * One generating exchange: send the prompt, clean the reply, and append the
   * prompt and the tagged answer to the history.
   */
  function Converse<N>(w: Wording<N>, n: N, inputs: seq<string>, gen: seq<Message> -> string,
                       clean: string -> string, history: seq<Message>): (t: Turn)
    ensures Said(w, n, gen, clean, history, t.messages, t.output)
    ensures t.messages[|history| + 1] == Human(w.task(n, inputs))
  {
    var prompt := Prompt(w, n, inputs);
    var output := clean(gen(prompt));
    var messages := history + prompt + [AI(w.tag(n) + output)];
    assert messages[|history|..|history| + 2] == prompt;
    Turn(output, messages)
  }
}
