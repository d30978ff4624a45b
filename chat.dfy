/** The console chat loop `chat_with_gpt` (src/rag_chat_bot.py:53-110, and
    its copy in lec1_streamchat.py:60-117) and the turn-by-turn
    specification it shares with the retrieval-augmented loop of
    `RAGChatBot`.

    Each input line comes with the answers the outside world gives while
    it is handled: the farewell classifier's reply, the completion
    service's answer to each attempt, and, for the augmented loop, the
    query embedding and the index search. */
module Chat {
  import opened Wrappers
  import opened Text
  import opened Services
  import opened Retry
  import opened Intent
  import opened Vectorizer
  import opened Prompt

  /** One line typed at the `你: ` prompt, with the oracles consulted while
      it is handled. */
  datatype Line = Line(
    raw: string,
    intent: IntentReply,
    service: nat -> Completion,
    embedder: seq<string> -> EmbedAnswer,
    nearest: NearestSearch)

  /** What the stripped input asks for, in the order the loop tests it. */
  datatype Command = Quit | Clear | Skip | Utterance(text: string)

  /** Why a session ended. Running out of input is this model's own end:
      the source's loop would catch the `EOFError` and ask again. */
  datatype Exit = UserQuit | SaidFarewell | EndOfInput

  /** Which of the two loops runs: the plain one, or the augmented one over
      the vectorizer's table and index. */
  datatype Variant = Plain | Rag(rows: map<int, string>, index: seq<Vector>)

  /** The content of the user entry and the events producing it. */
  datatype Augmented = Augmented(content: string, log: seq<Event>)

  /** The conversation after a completion exchange. */
  datatype Exchanged = Exchanged(messages: seq<Message>, log: seq<Event>)

  /** The conversation after one input line; `exit` is set when the loop
      breaks. */
  datatype Turned = Turned(messages: seq<Message>, log: seq<Event>, exit: Option<Exit>)

  /** The conversation when the loop is left. */
  datatype Ended = Ended(messages: seq<Message>, log: seq<Event>, exit: Exit)

  /** `create_chat_completion(messages)` is called with its defaults. */
  const Retries: int := 3
  const Delay: nat := 2
  /** `get_relevant_context(query)` asks for three results. */
  const ContextSize: int := 3

  /** The system entries of the two loops; their wording is not modelled. */
  const PlainSystem: string := "You are a helpful AI assistant who gives accurate, useful answers."
  const RagSystem: string := "You are a knowledgeable AI assistant who answers from the context provided and says so when it is not enough."

  /** `user_input = input(...).strip()` and the tests on it. */
  function Parse(raw: string): (c: Command)
    ensures c.Utterance? ==> c.text == Strip(raw) && c.text != ""
  {
    var input := Strip(raw);
    if Lower(input) == "quit" then Quit
    else if Lower(input) == "clear" then Clear
    else if input == "" then Skip
    else Utterance(input)
  }

  /** The non-`None` fragments of a stream, in order. */
  function Fragments(chunks: seq<Chunk>): seq<string>
  {
    if chunks == [] then []
    else
      var init := Fragments(chunks[..|chunks| - 1]);
      match chunks[|chunks| - 1].content
      case Some(piece) => init + [piece]
      case None => init
  }

  /** Each fragment printed as it arrives. */
  function Shows(fragments: seq<string>): seq<Event>
  {
    if fragments == [] then [] else Shows(fragments[..|fragments| - 1]) + [Show(fragments[|fragments| - 1])]
  }

  /** The classifier call for input `u`, with the error it prints when it
      fails. */
  function Asked(u: string, intent: IntentReply): seq<Event>
  {
    [Classify(u)] + (if IntentRaised(intent) then [Say(IntentError)] else [])
  }

  /** What the user entry holds: the input itself, or in the augmented loop
      the prompt wrapping it in the context retrieved for it. */
  function Augment(variant: Variant, line: Line, u: string): Augmented
  {
    match variant
    case Plain => Augmented(u, [])
    case Rag(rows, index) =>
      var found := Search(rows, index, u, ContextSize, line.embedder, line.nearest);
      Augmented(GeneratePromptWithContext(u, ContextOf(found)),
                [Retrieve(u)] + EmbedLog(line.embedder([u])) + (if found.Failure? then [Say(ContextError)] else []))
  }

  /** The streamed reply to `history`, as far as it gets: the retry loop,
      the `ChatGPT: ` prefix, one printed fragment per non-`None` chunk, and
      the assistant entry once the stream is drained. An exception from the
      retry loop or from the stream goes to the loop's handler, which leaves
      the history as it was; a `None` from the retry loop raises on the
      first iteration, before any chunk. */
  function Exchange(history: seq<Message>, service: nat -> Completion): Exchanged
  {
    var run := Attempts(history, service, Retries, Delay, 0);
    match run.outcome
    case Raised(_) => Exchanged(history, run.log + [Say(TurnError)])
    case _ =>
      var stream := if run.outcome.Returned? then run.outcome.stream else Stream([], true);
      var fragments := Fragments(stream.chunks);
      var shown := run.log + [Say(ReplyPrefix)] + Shows(fragments);
      if stream.broken then Exchanged(history, shown + [Say(TurnError)])
      else Exchanged(history + [Message(Assistant, Concat(fragments))], shown + [Say(ReplyEnd)])
  }

  /** One pass of the `while True` loop. */
  function Turn(variant: Variant, messages: seq<Message>, line: Line): (t: Turned)
    requires |messages| >= 1
    ensures |t.messages| >= 1 && t.messages[0] == messages[0]
  {
    Dispatch(variant, messages, line, Parse(line.raw))
  }

  /** What the loop does with the parsed input `command` of `line`. */
  function Dispatch(variant: Variant, messages: seq<Message>, line: Line, command: Command): (t: Turned)
    requires |messages| >= 1
    ensures |t.messages| >= 1 && t.messages[0] == messages[0]
  {
    match command
    case Quit => Turned(messages, [Say(Bye)], Some(UserQuit))
    case Clear => Turned([messages[0]], [Say(Cleared)], None)
    case Skip => Turned(messages, [], None)
    case Utterance(u) =>
      var asked := Asked(u, line.intent);
      if CheckFarewellIntent(line.intent) then Turned(messages, asked + [Say(FarewellReply)], Some(SaidFarewell))
      else
        var entry := Augment(variant, line, u);
        var reply := Exchange(messages + [Message(User, entry.content)], line.service);
        Turned(reply.messages, asked + entry.log + reply.log, None)
  }

  /** The loop over the remaining input, from history `messages` on. */
  function Session(variant: Variant, messages: seq<Message>, lines: seq<Line>): (r: Ended)
    requires |messages| >= 1
    ensures |r.messages| >= 1 && r.messages[0] == messages[0]
    decreases |lines|
  {
    if lines == [] then Ended(messages, [], EndOfInput)
    else
      var t := Turn(variant, messages, lines[0]);
      match t.exit
      case Some(e) => Ended(t.messages, t.log, e)
      case None =>
        var rest := Session(variant, t.messages, lines[1..]);
        Ended(rest.messages, t.log + rest.log, rest.exit)
  }

  /** A whole run: the banner, then the loop from the system entry alone. */
  function Run(variant: Variant, system: string, lines: seq<Line>): Ended
  {
    var e := Session(variant, [Message(System, system)], lines);
    Ended(e.messages, [Say(Welcome)] + e.log, e.exit)
  }

  /** What is left of the run once `log` has been printed and the history
      is `messages`, with `lines` still to be read. */
  function Resume(variant: Variant, messages: seq<Message>, log: seq<Event>, lines: seq<Line>): Ended
    requires |messages| >= 1
  {
    var e := Session(variant, messages, lines);
    Ended(e.messages, log + e.log, e.exit)
  }

  /** One turn of the loop: it either ends the run or leaves the rest of
      the input to the next turn. */
  lemma ResumeStep(variant: Variant, messages: seq<Message>, log: seq<Event>, lines: seq<Line>, t: Turned)
    requires |messages| >= 1 && lines != []
    requires t == Turn(variant, messages, lines[0])
    ensures t.exit.Some? ==> Resume(variant, messages, log, lines) == Ended(t.messages, log + t.log, t.exit.value)
    ensures t.exit.None? ==> Resume(variant, messages, log, lines) == Resume(variant, t.messages, log + t.log, lines[1..])
  {
    if t.exit.None? {
      var rest := Session(variant, t.messages, lines[1..]).log;
      assert log + (t.log + rest) == log + t.log + rest;
    }
  }

  // Imperative model of the loop

  /** `stream = create_chat_completion(messages)` and the `for chunk in
      stream` loop that prints and collects the fragments. */
  method StreamReply(history: seq<Message>, service: nat -> Completion)
    returns (messages: seq<Message>, log: seq<Event>)
    ensures Exchanged(messages, log) == Exchange(history, service)
  {
    var outcome, attempts := CreateChatCompletion(history, service, Retries, Delay);
    if outcome.Raised? {
      return history, attempts + [Say(TurnError)];
    }
    var stream := if outcome.Returned? then outcome.stream else Stream([], true);
    var fullResponse, shown := DrainStream(stream.chunks);
    log := attempts + [Say(ReplyPrefix)] + shown;
    if stream.broken {
      return history, log + [Say(TurnError)];
    }
    messages := history + [Message(Assistant, fullResponse)];
    log := log + [Say(ReplyEnd)];
  }

  /** The `for chunk in stream` loop: each non-`None` fragment is printed
      as it arrives and appended to `full_response`. */
  method DrainStream(chunks: seq<Chunk>) returns (fullResponse: string, shown: seq<Event>)
    ensures fullResponse == Concat(Fragments(chunks))
    ensures shown == Shows(Fragments(chunks))
  {
    fullResponse, shown := "", [];
    var j := 0;
    while j < |chunks|
      invariant 0 <= j <= |chunks|
      invariant fullResponse == Concat(Fragments(chunks[..j]))
      invariant shown == Shows(Fragments(chunks[..j]))
    {
      FragmentsSnoc(chunks, j);
      var chunk := chunks[j];
      ghost var fragments := Fragments(chunks[..j]);
      if chunk.content.Some? {
        var content := chunk.content.value;
        assert Fragments(chunks[..j + 1]) == fragments + [content];
        assert (fragments + [content])[..|fragments|] == fragments;
        shown := shown + [Show(content)];
        fullResponse := fullResponse + content;
      } else {
        assert Fragments(chunks[..j + 1]) == fragments + [] == fragments;
      }
      j := j + 1;
    }
    assert chunks[..j] == chunks;
  }

  /** Chunk `j` adds its content to the fragments before it, or nothing
      when it is `None`. */
  lemma FragmentsSnoc(chunks: seq<Chunk>, j: nat)
    requires j < |chunks|
    ensures Fragments(chunks[..j + 1]) ==
            Fragments(chunks[..j]) + (if chunks[j].content.Some? then [chunks[j].content.value] else [])
  {
    assert chunks[..j + 1][..j] == chunks[..j];
  }

  /** The body of the plain loop for one line. */
  method TakeTurn(messages: seq<Message>, line: Line) returns (next: seq<Message>, log: seq<Event>, exit: Option<Exit>)
    requires |messages| >= 1
    ensures Turned(next, log, exit) == Turn(Plain, messages, line)
  {
    ghost var command := Parse(line.raw);
    assert Turn(Plain, messages, line) == Dispatch(Plain, messages, line, command);
    var userInput := Strip(line.raw);
    if Lower(userInput) == "quit" {
      return messages, [Say(Bye)], Some(UserQuit);
    }
    if Lower(userInput) == "clear" {
      return [messages[0]], [Say(Cleared)], None;
    }
    if userInput == "" {
      return messages, [], None;
    }
    assert command == Utterance(userInput);
    log := Asked(userInput, line.intent);
    if CheckFarewellIntent(line.intent) {
      return messages, log + [Say(FarewellReply)], Some(SaidFarewell);
    }
    next := messages + [Message(User, userInput)];
    var replyLog;
    next, replyLog := StreamReply(next, line.service);
    log := log + replyLog;
    exit := None;
  }

  /** `chat_with_gpt()`: the banner, then one turn per input line until
      `quit`, a farewell, or the end of the input. */
  method ChatWithGpt(lines: seq<Line>) returns (messages: seq<Message>, log: seq<Event>, exit: Exit)
    ensures Ended(messages, log, exit) == Run(Plain, PlainSystem, lines)
  {
    messages := [Message(System, PlainSystem)];
    log := [Say(Welcome)];
    var j := 0;
    while j < |lines|
      invariant 0 <= j <= |lines| && |messages| >= 1
      invariant Resume(Plain, messages, log, lines[j..]) == Run(Plain, PlainSystem, lines)
    {
      var next, turnLog, stop := TakeTurn(messages, lines[j]);
      ResumeStep(Plain, messages, log, lines[j..], Turned(next, turnLog, stop));
      assert lines[j..][1..] == lines[j + 1..];
      log := log + turnLog;
      messages := next;
      if stop.Some? {
        return messages, log, stop.value;
      }
      j := j + 1;
    }
    exit := EndOfInput;
  }

  // Properties of the loop

  /** `quit` is recognised in any case, with any whitespace around it. */
  lemma ParseQuitIff(raw: string)
    ensures Parse(raw) == Quit <==> exists w1, t, w2 :: Padded(raw, w1, t, w2) && Lower(t) == "quit"
  {
    StrippedLowerIff(raw, "quit");
  }

  /** So is `clear`. */
  lemma ParseClearIff(raw: string)
    ensures Parse(raw) == Clear <==> exists w1, t, w2 :: Padded(raw, w1, t, w2) && Lower(t) == "clear"
  {
    StrippedLowerIff(raw, "clear");
  }

  /** An input is skipped exactly when it is whitespace only. */
  lemma ParseSkipIff(raw: string)
    ensures Parse(raw) == Skip <==> AllSpace(raw)
  {
    StripEmptyIff(raw);
  }

  /** No event of the log calls out: no classifier call, no retrieval, no
      completion request. */
  predicate NoCalls(log: seq<Event>)
  {
    forall e :: e in log ==> !e.Classify? && !e.Retrieve? && !e.Request?
  }

  /** `quit`, `clear` and blank input are handled before the classifier is
      consulted and call nothing: `quit` ends the loop leaving the history
      as it is, `clear` cuts it back to the system entry whatever its
      length, and blank input changes nothing. */
  lemma CommandsCallNothing(variant: Variant, messages: seq<Message>, line: Line)
    requires |messages| >= 1
    requires !Parse(line.raw).Utterance?
    ensures var t := Turn(variant, messages, line);
            && NoCalls(t.log)
            && (Parse(line.raw) == Quit ==> t.messages == messages && t.exit == Some(UserQuit))
            && (Parse(line.raw) == Clear ==> t.messages == [messages[0]] && t.exit.None?)
            && (Parse(line.raw) == Skip ==> t.messages == messages && t.log == [] && t.exit.None?)
  {
  }

  /** A farewell ends the loop with the history untouched, after the
      classifier call and before any retrieval or completion request. */
  lemma FarewellEndsTurn(variant: Variant, messages: seq<Message>, line: Line)
    requires |messages| >= 1
    requires Parse(line.raw).Utterance? && CheckFarewellIntent(line.intent)
    ensures var t := Turn(variant, messages, line);
            && t.messages == messages && t.exit == Some(SaidFarewell)
            && t.log == [Classify(Parse(line.raw).text), Say(FarewellReply)]
  {
  }

  /** The text printed by the `Show` events of a log, in order. */
  function ShownText(log: seq<Event>): string
  {
    if log == [] then ""
    else ShownText(log[..|log| - 1]) + (if log[|log| - 1].Show? then log[|log| - 1].fragment else "")
  }

  lemma {:induction false} ShownTextAppend(a: seq<Event>, b: seq<Event>)
    ensures ShownText(a + b) == ShownText(a) + ShownText(b)
    decreases |b|
  {
    if b == [] {
      assert a + b == a;
    } else {
      assert (a + b)[..|a + b| - 1] == a + b[..|b| - 1];
      ShownTextAppend(a, b[..|b| - 1]);
    }
  }

  /** How many times a log consults the store. */
  function Retrieves(log: seq<Event>): nat
  {
    if log == [] then 0
    else Retrieves(log[..|log| - 1]) + (if log[|log| - 1].Retrieve? then 1 else 0)
  }

  lemma {:induction false} RetrievesAppend(a: seq<Event>, b: seq<Event>)
    ensures Retrieves(a + b) == Retrieves(a) + Retrieves(b)
    decreases |b|
  {
    if b == [] {
      assert a + b == a;
    } else {
      assert (a + b)[..|a + b| - 1] == a + b[..|b| - 1];
      RetrievesAppend(a, b[..|b| - 1]);
    }
  }

  /** A log without `Retrieve` events does not consult the store. */
  lemma {:induction false} RetrievesNone(log: seq<Event>)
    requires forall e :: e in log ==> !e.Retrieve?
    ensures Retrieves(log) == 0
  {
    if log != [] {
      var init := log[..|log| - 1];
      assert forall e :: e in init ==> e in log;
      RetrievesNone(init);
    }
  }

  /** The retry loop only calls, warns and sleeps. */
  lemma {:induction false} AttemptsRetrieveNothing(messages: seq<Message>, service: nat -> Completion, retries: int, delay: nat, a: nat)
    ensures forall e :: e in Attempts(messages, service, retries, delay, a).log ==> !e.Retrieve?
    decreases retries - a
  {
    if a < retries && service(a).Refused? && a != retries - 1 {
      AttemptsRetrieveNothing(messages, service, retries, delay, a + 1);
    }
  }

  lemma {:induction false} ShowsOnly(fragments: seq<string>)
    ensures forall e :: e in Shows(fragments) ==> e.Show?
  {
    if fragments != [] {
      ShowsOnly(fragments[..|fragments| - 1]);
    }
  }

  /** The exchange with the completion service never consults the store. */
  lemma ExchangeRetrievesNothing(history: seq<Message>, service: nat -> Completion)
    ensures Retrieves(Exchange(history, service).log) == 0
  {
    var run := Attempts(history, service, Retries, Delay, 0);
    var stream := if run.outcome.Returned? then run.outcome.stream else Stream([], true);
    AttemptsRetrieveNothing(history, service, Retries, Delay, 0);
    ShowsOnly(Fragments(stream.chunks));
    RetrievesNone(Exchange(history, service).log);
  }

  /** The fragments printed are the fragments returned. */
  lemma {:induction false} ShownFragments(fragments: seq<string>)
    ensures ShownText(Shows(fragments)) == Concat(fragments)
  {
    if fragments != [] {
      var init := fragments[..|fragments| - 1];
      ShownFragments(init);
      ShownTextAppend(Shows(init), [Show(fragments[|fragments| - 1])]);
      assert [Show(fragments[|fragments| - 1])][..0] == [];
    }
  }

  /** The retry loop prints no fragment. */
  lemma {:induction false} AttemptsShowNothing(messages: seq<Message>, service: nat -> Completion, retries: int, delay: nat, a: nat)
    ensures ShownText(Attempts(messages, service, retries, delay, a).log) == ""
    decreases retries - a
  {
    if a < retries && service(a).Refused? && a != retries - 1 {
      AttemptsShowNothing(messages, service, retries, delay, a + 1);
      var tries := [Request(messages), Say(RetryWarning), Sleep(delay)];
      ShownTextAppend(tries, Attempts(messages, service, retries, delay, a + 1).log);
      ShownTextAppend(tries[..2], [Sleep(delay)]);
      ShownTextAppend(tries[..1], [Say(RetryWarning)]);
      assert tries[..2] == tries[..1] + [Say(RetryWarning)];
      assert tries == tries[..2] + [Sleep(delay)];
    } else if a < retries {
      assert [Request(messages)][..0] == [];
    }
  }

  /** The assistant's reply is the concatenation of the non-`None`
      fragments, chunk after chunk. */
  lemma {:induction false} FragmentsAppend(a: seq<Chunk>, b: seq<Chunk>)
    ensures Concat(Fragments(a + b)) == Concat(Fragments(a)) + Concat(Fragments(b))
    decreases |b|
  {
    if b == [] {
      assert a + b == a;
    } else {
      var init, last := b[..|b| - 1], b[|b| - 1];
      assert (a + b)[..|a + b| - 1] == a + init;
      FragmentsAppend(a, init);
      FragmentsLast(a + b);
      FragmentsLast(b);
      ConcatAppend(Fragments(a + init), Piece(last));
      ConcatAppend(Fragments(init), Piece(last));
    }
  }

  /** What one chunk contributes to the fragments. */
  function Piece(c: Chunk): seq<string>
  {
    match c.content
    case Some(piece) => [piece]
    case None => []
  }

  lemma FragmentsLast(chunks: seq<Chunk>)
    requires chunks != []
    ensures Fragments(chunks) == Fragments(chunks[..|chunks| - 1]) + Piece(chunks[|chunks| - 1])
  {
    assert Fragments(chunks[..|chunks| - 1]) + [] == Fragments(chunks[..|chunks| - 1]);
  }

  /** One chunk contributes its content, or nothing when it is `None`. */
  lemma FragmentOfChunk(c: Chunk)
    ensures Concat(Fragments([c])) == (if c.content.Some? then c.content.value else "")
  {
    assert [c][..0] == [];
    if c.content.Some? {
      assert Fragments([c]) == [c.content.value];
      assert [c.content.value][..0] == [];
    }
  }

  /** The classifier call and the retrieval print no fragment. */
  lemma BeforeExchangeShowsNothing(variant: Variant, line: Line, u: string)
    ensures ShownText(Asked(u, line.intent) + Augment(variant, line, u).log) == ""
  {
    var log := Asked(u, line.intent) + Augment(variant, line, u).log;
    assert forall e :: e in log ==> !e.Show?;
    ShowsNothing(log);
  }

  /** A log without `Show` events prints no reply text. */
  lemma {:induction false} ShowsNothing(log: seq<Event>)
    requires forall e :: e in log ==> !e.Show?
    ensures ShownText(log) == ""
  {
    if log != [] {
      var init := log[..|log| - 1];
      assert forall e :: e in init ==> e in log;
      ShowsNothing(init);
    }
  }

  /** An exchange whose first successful attempt streams to the end adds
      the assistant entry holding all the fragments in order, and prints
      exactly that text. */
  lemma SuccessfulExchange(history: seq<Message>, service: nat -> Completion, i: nat)
    requires i < Retries && service(i).Opened? && !service(i).stream.broken
    requires forall j :: 0 <= j < i ==> service(j).Refused?
    ensures var r := Exchange(history, service);
            var reply := Concat(Fragments(service(i).stream.chunks));
            r.messages == history + [Message(Assistant, reply)] && ShownText(r.log) == reply
  {
    ReturnsFirstSuccess(history, service, Retries, Delay, i);
    var run := Attempts(history, service, Retries, Delay, 0);
    var fragments := Fragments(service(i).stream.chunks);
    AttemptsShowNothing(history, service, Retries, Delay, 0);
    ShownReply(run.log, fragments);
  }

  /** The text printed by a drained reply after attempts that printed none
      is the concatenated fragments. */
  lemma ShownReply(attempts: seq<Event>, fragments: seq<string>)
    requires ShownText(attempts) == ""
    ensures ShownText(attempts + [Say(ReplyPrefix)] + Shows(fragments) + [Say(ReplyEnd)]) == Concat(fragments)
  {
    ShownFragments(fragments);
    assert [Say(ReplyPrefix)][..0] == [];
    assert [Say(ReplyEnd)][..0] == [];
    ShownTextAppend(attempts, [Say(ReplyPrefix)]);
    ShownTextAppend(attempts + [Say(ReplyPrefix)], Shows(fragments));
    ShownTextAppend(attempts + [Say(ReplyPrefix)] + Shows(fragments), [Say(ReplyEnd)]);
  }

  /** A turn whose first successful attempt streams to the end appends
      exactly two entries, the user entry and then the assistant entry
      holding all the fragments in order; the text printed for the reply is
      that same text. */
  lemma SuccessfulTurn(variant: Variant, messages: seq<Message>, line: Line, i: nat)
    requires |messages| >= 1
    requires Parse(line.raw).Utterance? && !CheckFarewellIntent(line.intent)
    requires i < Retries && line.service(i).Opened? && !line.service(i).stream.broken
    requires forall j :: 0 <= j < i ==> line.service(j).Refused?
    ensures var u := Parse(line.raw).text;
            var t := Turn(variant, messages, line);
            var reply := Concat(Fragments(line.service(i).stream.chunks));
            && t.messages == messages + [Message(User, Augment(variant, line, u).content), Message(Assistant, reply)]
            && t.exit.None?
            && ShownText(t.log) == reply
  {
    var u := Parse(line.raw).text;
    var entry := Augment(variant, line, u);
    var history := messages + [Message(User, entry.content)];
    var before := Asked(u, line.intent) + entry.log;
    var reply := Exchange(history, line.service);
    UtteranceTurn(variant, messages, line, u, entry, reply);
    SuccessfulExchange(history, line.service, i);
    BeforeExchangeShowsNothing(variant, line, u);
    ShownTextAppend(before, reply.log);
    AppendPair(messages, Message(User, entry.content), Message(Assistant, Concat(Fragments(line.service(i).stream.chunks))));
  }

  lemma AppendPair<T>(s: seq<T>, a: T, b: T)
    ensures s + [a] + [b] == s + [a, b]
  {
  }

  /** A turn past the farewell check: the classifier call, the user entry
      with the events producing it, then the exchange over the history
      extended with that entry. */
  lemma UtteranceTurn(variant: Variant, messages: seq<Message>, line: Line, u: string, entry: Augmented, reply: Exchanged)
    requires |messages| >= 1
    requires Parse(line.raw) == Utterance(u) && !CheckFarewellIntent(line.intent)
    requires entry == Augment(variant, line, u)
    requires reply == Exchange(messages + [Message(User, entry.content)], line.service)
    ensures Turn(variant, messages, line) == Turned(reply.messages, Asked(u, line.intent) + entry.log + reply.log, None)
  {
    assert Turn(variant, messages, line) == Dispatch(variant, messages, line, Utterance(u));
  }

  /** When every attempt raises, the user entry stays, no assistant entry
      is added, the handler's message is printed and the loop goes on. */
  lemma FailedTurnKeepsUserEntry(variant: Variant, messages: seq<Message>, line: Line)
    requires |messages| >= 1
    requires Parse(line.raw).Utterance? && !CheckFarewellIntent(line.intent)
    requires forall j :: 0 <= j < Retries ==> line.service(j).Refused?
    ensures var t := Turn(variant, messages, line);
            && t.messages == messages + [Message(User, Augment(variant, line, Parse(line.raw).text).content)]
            && t.exit.None?
            && t.log != [] && t.log[|t.log| - 1] == Say(TurnError)
  {
    var u := Parse(line.raw).text;
    var entry := Augment(variant, line, u);
    var history := messages + [Message(User, entry.content)];
    var reply := Exchange(history, line.service);
    UtteranceTurn(variant, messages, line, u, entry, reply);
    ExchangeRaised(history, line.service);
    LastOfAppend(Asked(u, line.intent) + entry.log, reply.log);
  }

  /** When every attempt raises, the exchange keeps the history and ends
      with the handler's message. */
  lemma ExchangeRaised(history: seq<Message>, service: nat -> Completion)
    requires forall j :: 0 <= j < Retries ==> service(j).Refused?
    ensures var r := Exchange(history, service);
            r.messages == history && r.log != [] && r.log[|r.log| - 1] == Say(TurnError)
  {
    RaisesOnlyAfterLastFailure(history, service, Retries, Delay);
  }

  /** A stream that breaks off: the exchange keeps the history and ends
      with the handler's message. */
  lemma ExchangeBroken(history: seq<Message>, service: nat -> Completion, i: nat)
    requires i < Retries && service(i).Opened? && service(i).stream.broken
    requires forall j :: 0 <= j < i ==> service(j).Refused?
    ensures var r := Exchange(history, service);
            r.messages == history && r.log != [] && r.log[|r.log| - 1] == Say(TurnError)
  {
    ReturnsFirstSuccess(history, service, Retries, Delay, i);
  }

  lemma LastOfAppend(a: seq<Event>, b: seq<Event>)
    requires b != []
    ensures (a + b)[|a + b| - 1] == b[|b| - 1]
  {
  }

  /** A stream that breaks off keeps the user entry and the fragments
      already printed, and adds no assistant entry. */
  lemma BrokenStreamKeepsUserEntry(variant: Variant, messages: seq<Message>, line: Line, i: nat)
    requires |messages| >= 1
    requires Parse(line.raw).Utterance? && !CheckFarewellIntent(line.intent)
    requires i < Retries && line.service(i).Opened? && line.service(i).stream.broken
    requires forall j :: 0 <= j < i ==> line.service(j).Refused?
    ensures var t := Turn(variant, messages, line);
            && t.messages == messages + [Message(User, Augment(variant, line, Parse(line.raw).text).content)]
            && t.exit.None?
            && t.log != [] && t.log[|t.log| - 1] == Say(TurnError)
  {
    var u := Parse(line.raw).text;
    var entry := Augment(variant, line, u);
    var history := messages + [Message(User, entry.content)];
    var reply := Exchange(history, line.service);
    UtteranceTurn(variant, messages, line, u, entry, reply);
    ExchangeBroken(history, line.service, i);
    LastOfAppend(Asked(u, line.intent) + entry.log, reply.log);
  }

  /** An exchange keeps the history it was given and adds at most the
      assistant entry. */
  lemma ExchangeExtends(history: seq<Message>, service: nat -> Completion)
    ensures var r := Exchange(history, service);
            r.messages == history || (exists reply :: r.messages == history + [Message(Assistant, reply)])
  {
    var r := Exchange(history, service);
    if r.messages != history {
      var reply := r.messages[|r.messages| - 1].content;
      assert r.messages == history + [Message(Assistant, reply)];
    }
  }

  /** A turn that gets past the farewell check appends the user entry first:
      the stripped input in the plain loop, and in the augmented loop the
      prompt built from it and the context retrieved for it. */
  lemma UserEntryAppended(variant: Variant, messages: seq<Message>, line: Line)
    requires |messages| >= 1
    requires Parse(line.raw).Utterance? && !CheckFarewellIntent(line.intent)
    ensures var u := Strip(line.raw);
            var content := match variant
              case Plain => u
              case Rag(rows, index) =>
                GeneratePromptWithContext(u, ContextOf(Search(rows, index, u, ContextSize, line.embedder, line.nearest)));
            messages + [Message(User, content)] <= Turn(variant, messages, line).messages
  {
    var u := Parse(line.raw).text;
    var entry := Augment(variant, line, u);
    var history := messages + [Message(User, entry.content)];
    var reply := Exchange(history, line.service);
    UtteranceTurn(variant, messages, line, u, entry, reply);
    ExchangeExtends(history, line.service);
  }

  /** Apart from `clear`, a turn only appends to the history, at most two
      entries. */
  lemma TurnAppendsOnly(variant: Variant, messages: seq<Message>, line: Line)
    requires |messages| >= 1
    requires Parse(line.raw) != Clear
    ensures var t := Turn(variant, messages, line);
            messages <= t.messages && |t.messages| <= |messages| + 2
  {
    match Parse(line.raw)
    case Quit =>
    case Skip =>
    case Utterance(u) =>
      if !CheckFarewellIntent(line.intent) {
        var entry := Augment(variant, line, u);
        var history := messages + [Message(User, entry.content)];
        UtteranceTurn(variant, messages, line, u, entry, Exchange(history, line.service));
        ExchangeExtends(history, line.service);
        assert messages <= history;
      }
  }

  /** Entry `i` of a history is one a turn may leave there: only the first
      entry is the system entry, and an assistant entry always follows a
      user entry. */
  ghost predicate EntryFits(messages: seq<Message>, i: int)
    requires 0 <= i < |messages|
  {
    if i == 0 then messages[0].role == System
    else messages[i].role != System && (messages[i].role == Assistant ==> messages[i - 1].role == User)
  }

  ghost predicate WellFormed(messages: seq<Message>)
  {
    |messages| >= 1 && forall i :: 0 <= i < |messages| ==> EntryFits(messages, i)
  }

  lemma AppendUser(messages: seq<Message>, content: string)
    requires WellFormed(messages)
    ensures WellFormed(messages + [Message(User, content)])
  {
    var m := messages + [Message(User, content)];
    forall i | 0 <= i < |m|
      ensures EntryFits(m, i)
    {
      if i < |messages| {
        assert EntryFits(messages, i);
        if i > 0 {
          assert m[i - 1] == messages[i - 1];
        }
      }
    }
  }

  lemma AppendAssistant(messages: seq<Message>, content: string)
    requires WellFormed(messages) && messages[|messages| - 1].role == User
    ensures WellFormed(messages + [Message(Assistant, content)])
  {
    var m := messages + [Message(Assistant, content)];
    forall i | 0 <= i < |m|
      ensures EntryFits(m, i)
    {
      if i < |messages| {
        assert EntryFits(messages, i);
        if i > 0 {
          assert m[i - 1] == messages[i - 1];
        }
      }
    }
  }

  /** A turn keeps the history well formed. */
  lemma TurnKeepsWellFormed(variant: Variant, messages: seq<Message>, line: Line)
    requires WellFormed(messages)
    ensures WellFormed(Turn(variant, messages, line).messages)
  {
    var command := Parse(line.raw);
    assert Turn(variant, messages, line) == Dispatch(variant, messages, line, command);
    match command
    case Quit =>
    case Skip =>
    case Clear =>
      assert EntryFits(messages, 0);
      assert EntryFits([messages[0]], 0);
    case Utterance(u) =>
      if !CheckFarewellIntent(line.intent) {
        ExchangeKeepsWellFormed(messages, Augment(variant, line, u).content, line.service);
      }
  }

  /** Appending the user entry and exchanging over it keeps the history
      well formed. */
  lemma ExchangeKeepsWellFormed(messages: seq<Message>, content: string, service: nat -> Completion)
    requires WellFormed(messages)
    ensures WellFormed(Exchange(messages + [Message(User, content)], service).messages)
  {
    var history := messages + [Message(User, content)];
    AppendUser(messages, content);
    var reply := Exchange(history, service);
    ExchangeExtends(history, service);
    if reply.messages != history {
      var answer :| reply.messages == history + [Message(Assistant, answer)];
      AppendAssistant(history, answer);
    }
  }

  /** The history stays well formed for the whole session: it always starts
      with the system entry it started with, and only user and assistant
      entries follow. */
  lemma {:induction false} SessionKeepsWellFormed(variant: Variant, messages: seq<Message>, lines: seq<Line>)
    requires WellFormed(messages)
    ensures WellFormed(Session(variant, messages, lines).messages)
    decreases |lines|
  {
    if lines != [] {
      TurnKeepsWellFormed(variant, messages, lines[0]);
      var t := Turn(variant, messages, lines[0]);
      if t.exit.None? {
        SessionKeepsWellFormed(variant, t.messages, lines[1..]);
      }
    }
  }

  /** A run's history begins with its system entry and is well formed. */
  lemma RunWellFormed(variant: Variant, system: string, lines: seq<Line>)
    ensures var r := Run(variant, system, lines);
            r.messages[0] == Message(System, system) && WellFormed(r.messages)
  {
    var start := [Message(System, system)];
    assert EntryFits(start, 0);
    SessionKeepsWellFormed(variant, start, lines);
  }
}
