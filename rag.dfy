/** `RAGChatBot` (src/rag_chat_bot.py:113-225): the chat loop whose user
    entries carry context retrieved from a `TextVectorizer`. */
module Rag {
  import opened Wrappers
  import opened Text
  import opened Services
  import opened Intent
  import opened Vectorizer
  import opened Prompt
  import opened Chat

  class RagChatBot {
    /** The vectorizer whose table and index the context comes from. */
    const vectorizer: TextVectorizer

    /** Loading the configuration and the saved index is not modelled: the
        bot is built over a vectorizer that already holds them. */
    constructor (vectorizer: TextVectorizer)
      ensures this.vectorizer == vectorizer
    {
      this.vectorizer := vectorizer;
    }

    /** The search behind the context for `query`. */
    function Found(query: string, k: int, embedder: seq<string> -> EmbedAnswer, nearest: NearestSearch): Result<seq<SearchResult>>
      reads vectorizer
    {
      Search(vectorizer.rows, vectorizer.index, query, k, embedder, nearest)
    }

    /** `get_relevant_context(query, k)`: the texts of the search results
        joined by newlines, or `""` with an error message when the search
        raises. */
    method GetRelevantContext(query: string, k: int, embedder: seq<string> -> EmbedAnswer, nearest: NearestSearch)
      returns (context: string, log: seq<Event>)
      ensures context == ContextOf(Found(query, k, embedder, nearest))
      ensures log == [Retrieve(query)] + EmbedLog(embedder([query]))
                     + (if Found(query, k, embedder, nearest).Failure? then [Say(ContextError)] else [])
    {
      var found, searchLog := vectorizer.SearchSimilar(query, k, embedder, nearest);
      log := [Retrieve(query)] + searchLog;
      if found.Failure? {
        return "", log + [Say(ContextError)];
      }
      var results := found.value;
      var contextParts: seq<string> := [];
      var j := 0;
      while j < |results|
        invariant 0 <= j <= |results|
        invariant contextParts == ResultTexts(results[..j])
      {
        assert results[..j + 1][..j] == results[..j];
        contextParts := contextParts + [results[j].text];
        j := j + 1;
      }
      assert results[..j] == results;
      context := Join(contextParts, "\n");
    }

    /** The body of the augmented loop for one line. */
    method TakeTurn(messages: seq<Message>, line: Line) returns (next: seq<Message>, log: seq<Event>, exit: Option<Exit>)
      requires |messages| >= 1
      ensures Turned(next, log, exit) == Turn(Rag(vectorizer.rows, vectorizer.index), messages, line)
    {
      ghost var command := Parse(line.raw);
      assert Turn(Rag(vectorizer.rows, vectorizer.index), messages, line) == Dispatch(Rag(vectorizer.rows, vectorizer.index), messages, line, command);
      var userInput := Strip(line.raw);
      if Lower(userInput) == "quit" {
        return messages, [Say(Bye)], Some(UserQuit);
      }
      if Lower(userInput) == "clear" {
        return [messages[0]], [Say(Cleared)], None;
      }
      if userInput == "" {
        return messages, [], None;
      }
      assert command == Utterance(userInput);
      log := Asked(userInput, line.intent);
      if CheckFarewellIntent(line.intent) {
        return messages, log + [Say(FarewellReply)], Some(SaidFarewell);
      }
      var context, contextLog := GetRelevantContext(userInput, ContextSize, line.embedder, line.nearest);
      var promptWithContext := GeneratePromptWithContext(userInput, context);
      next := messages + [Message(User, promptWithContext)];
      var replyLog;
      next, replyLog := StreamReply(next, line.service);
      log := log + contextLog + replyLog;
      exit := None;
    }

    /** `chat_with_gpt()` of the bot: the banner, then one augmented turn
        per input line until `quit`, a farewell, or the end of the input. */
    method ChatWithGpt(lines: seq<Line>) returns (messages: seq<Message>, log: seq<Event>, exit: Exit)
      ensures Ended(messages, log, exit) == Run(Rag(vectorizer.rows, vectorizer.index), RagSystem, lines)
    {
      var variant := Rag(vectorizer.rows, vectorizer.index);
      messages := [Message(System, RagSystem)];
      log := [Say(Welcome)];
      var j := 0;
      while j < |lines|
        invariant 0 <= j <= |lines| && |messages| >= 1
        invariant Resume(variant, messages, log, lines[j..]) == Run(variant, RagSystem, lines)
      {
        var next, turnLog, stop := TakeTurn(messages, lines[j]);
        ResumeStep(variant, messages, log, lines[j..], Turned(next, turnLog, stop));
        assert lines[j..][1..] == lines[j + 1..];
        log := log + turnLog;
        messages := next;
        if stop.Some? {
          return messages, log, stop.value;
        }
        j := j + 1;
      }
      exit := EndOfInput;
    }
  }

  /** In the augmented loop a turn that gets past the farewell check
      consults the store exactly once, after the classifier, and its user
      entry is the prompt wrapping the stripped input in the retrieved
      context; a failed search leaves the context empty. */
  lemma RagUserEntry(rows: map<int, string>, index: seq<Vector>, messages: seq<Message>, line: Line)
    requires |messages| >= 1
    requires Parse(line.raw).Utterance? && !CheckFarewellIntent(line.intent)
    ensures var u := Strip(line.raw);
            var found := Search(rows, index, u, ContextSize, line.embedder, line.nearest);
            var t := Turn(Rag(rows, index), messages, line);
            && messages + [Message(User, GeneratePromptWithContext(u, ContextOf(found)))] <= t.messages
            && (found.Failure? ==> GeneratePromptWithContext(u, ContextOf(found)) == Preamble + Middle + u + Tail)
            && Asked(u, line.intent) + [Retrieve(u)] <= t.log
            && Retrieves(t.log) == 1
  {
    var variant := Rag(rows, index);
    var u := Parse(line.raw).text;
    var entry := Augment(variant, line, u);
    RagEntryShape(rows, index, line, u);
    var history := messages + [Message(User, entry.content)];
    var reply := Exchange(history, line.service);
    UtteranceTurn(variant, messages, line, u, entry, reply);
    ExchangeExtends(history, line.service);
    PrefixThrough(Asked(u, line.intent), entry.log, reply.log, Retrieve(u));
    EmptyContextPrompt(u);
    RagRetrievesOnce(rows, index, messages, line);
  }

  /** The augmented turn consults the store exactly once. */
  lemma RagRetrievesOnce(rows: map<int, string>, index: seq<Vector>, messages: seq<Message>, line: Line)
    requires |messages| >= 1
    requires Parse(line.raw).Utterance? && !CheckFarewellIntent(line.intent)
    ensures Retrieves(Turn(Rag(rows, index), messages, line).log) == 1
  {
    var variant := Rag(rows, index);
    var u := Parse(line.raw).text;
    var entry := Augment(variant, line, u);
    RagEntryShape(rows, index, line, u);
    var history := messages + [Message(User, entry.content)];
    var reply := Exchange(history, line.service);
    UtteranceTurn(variant, messages, line, u, entry, reply);
    ExchangeRetrievesNothing(history, line.service);
    RetrievedOnce(Asked(u, line.intent), entry.log, reply.log, u);
  }

  /** The classifier call, then an entry log whose only retrieval is its
      first event, then an exchange: the store is consulted once. */
  lemma RetrievedOnce(asked: seq<Event>, entry: seq<Event>, reply: seq<Event>, u: string)
    requires forall e :: e in asked ==> !e.Retrieve?
    requires entry != [] && entry[0] == Retrieve(u) && forall e :: e in entry[1..] ==> !e.Retrieve?
    requires Retrieves(reply) == 0
    ensures Retrieves(asked + entry + reply) == 1
  {
    RetrievesNone(asked);
    RetrievesNone(entry[1..]);
    assert entry == [Retrieve(u)] + entry[1..];
    assert [Retrieve(u)][..0] == [];
    RetrievesAppend([Retrieve(u)], entry[1..]);
    RetrievesAppend(asked, entry);
    RetrievesAppend(asked + entry, reply);
  }

  /** The augmented user entry, and the retrieval at the head of its log. */
  lemma RagEntryShape(rows: map<int, string>, index: seq<Vector>, line: Line, u: string)
    ensures var entry := Augment(Rag(rows, index), line, u);
            && entry.content == GeneratePromptWithContext(u, ContextOf(Search(rows, index, u, ContextSize, line.embedder, line.nearest)))
            && |entry.log| >= 1 && entry.log[0] == Retrieve(u)
            && (forall e :: e in entry.log[1..] ==> !e.Retrieve?)
  {
    var found := Search(rows, index, u, ContextSize, line.embedder, line.nearest);
    var entry := Augment(Rag(rows, index), line, u);
    assert entry.log[1..] == EmbedLog(line.embedder([u])) + (if found.Failure? then [Say(ContextError)] else []);
  }

  /** A sequence followed by one whose head is `x` starts with `x`. */
  lemma PrefixThrough<T>(a: seq<T>, b: seq<T>, c: seq<T>, x: T)
    requires |b| >= 1 && b[0] == x
    ensures a + [x] <= a + b + c
  {
    assert (a + b + c)[..|a| + 1] == a + [x];
  }
}
