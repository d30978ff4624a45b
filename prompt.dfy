/** The pure text work of `RAGChatBot` (src/rag_chat_bot.py): the context
    built from the search results and the prompt that wraps the user's
    question in it. The template's wording is not modelled; its three fixed
    parts are opaque constants placed around the context and the query. */
module Prompt {
  import opened Wrappers
  import opened Text
  import opened Vectorizer

  /** The instruction and the heading that precede the context. */
  const Preamble: string := "Answer the question from the reference information below.\n\nReference information:\n"
  /** The heading between the context and the user's question. */
  const Middle: string := "\n\nUser question: "
  /** The cue after the question. */
  const Tail: string := "\n\nAnswer:"

  /** The texts of the search results, in result order. */
  function ResultTexts(results: seq<SearchResult>): (texts: seq<string>)
    ensures |texts| == |results|
  {
    if results == [] then []
    else ResultTexts(results[..|results| - 1]) + [results[|results| - 1].text]
  }

  /** What `get_relevant_context` returns for the outcome of
      `search_similar`: the result texts joined by newlines, or `""` when
      the search raised. */
  function ContextOf(found: Result<seq<SearchResult>>): string
  {
    match found
    case Failure(_) => ""
    case Success(results) => Join(ResultTexts(results), "\n")
  }

  /** `generate_prompt_with_context(query, context)`. */
  function GeneratePromptWithContext(query: string, context: string): (prompt: string)
    ensures |prompt| == |Preamble| + |context| + |Middle| + |query| + |Tail|
    ensures prompt[..|Preamble|] == Preamble
    ensures prompt[|Preamble|..|Preamble| + |context|] == context
    ensures prompt[|Preamble| + |context|..|Preamble| + |context| + |Middle|] == Middle
    ensures prompt[|prompt| - |Tail| - |query|..|prompt| - |Tail|] == query
    ensures prompt[|prompt| - |Tail|..] == Tail
  {
    Preamble + context + Middle + query + Tail
  }

  /** Text `i` of the results is the text of result `i`. */
  lemma {:induction false} ResultTextsAt(results: seq<SearchResult>)
    ensures forall i :: 0 <= i < |results| ==> ResultTexts(results)[i] == results[i].text
  {
    if results != [] {
      ResultTextsAt(results[..|results| - 1]);
    }
  }

  /** The context depends on the result texts only: ids and distances are
      dropped. */
  lemma ContextIgnoresIdsAndDistances(a: seq<SearchResult>, b: seq<SearchResult>)
    requires |a| == |b|
    requires forall i :: 0 <= i < |a| ==> a[i].text == b[i].text
    ensures ContextOf(Success(a)) == ContextOf(Success(b))
  {
    ResultTextsAt(a);
    ResultTextsAt(b);
    assert ResultTexts(a) == ResultTexts(b);
  }

  /** Splitting a non-empty context on newlines gives back the result
      texts, in result order, when no text holds a newline. */
  lemma ContextSplitsIntoTexts(results: seq<SearchResult>)
    requires |results| >= 1
    requires forall i :: 0 <= i < |results| ==> '\n' !in results[i].text
    ensures Split(ContextOf(Success(results)), '\n') == ResultTexts(results)
  {
    ResultTextsAt(results);
    SplitJoin(ResultTexts(results), '\n');
  }

  /** With an empty context the prompt is the question between the fixed
      parts alone. */
  lemma EmptyContextPrompt(query: string)
    ensures GeneratePromptWithContext(query, "") == Preamble + Middle + query + Tail
  {
    assert Preamble + "" == Preamble;
  }

  /** For a given context, the prompt determines the question. */
  lemma PromptDeterminesQuery(q1: string, q2: string, context: string)
    requires GeneratePromptWithContext(q1, context) == GeneratePromptWithContext(q2, context)
    ensures q1 == q2
  {
    var p := GeneratePromptWithContext(q1, context);
    assert |q1| == |q2|;
    assert q1 == p[|p| - |Tail| - |q1|..|p| - |Tail|];
  }
}
