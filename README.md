# Retrieval-augmented console chat: a Dafny model

This project models the orchestration logic of a small command-line chat
assistant. The assistant talks to a hosted completion API and can add
retrieved context to each question. It has three parts:

- **The console chat loop** (`chat_with_gpt`). It keeps a conversation
  history whose first entry is the system message. Each stripped input line
  is dispatched in a fixed order: `quit`, `clear`, empty input, the farewell
  classifier, and then a normal turn. A normal turn appends the user entry,
  requests a streamed completion through a bounded retry loop
  (`create_chat_completion`), prints and collects the fragments, and
  appends the assistant entry. `lec1_streamchat.py` holds a copy of the
  plain loop, the classifier and the retry loop that is identical line for
  line. One model (`Chat`, `Retry`, `Intent`) covers both copies.
- **The retrieval-augmented loop** (`RAGChatBot`). It runs the same loop,
  but the user entry is a fixed template that wraps the question in the
  newline-joined texts of a similarity search (`Prompt`, `Rag`).
- **The vectorizer** (`TextVectorizer`). It ingests a text file into the
  `ai_context` table, one row per non-blank line. It embeds the records in
  fixed-size batches into an append-only index. A search maps each index
  position `p` back to table id `p + 1` (`Vectorizer`). `Alignment` proves
  when that position-to-id coupling holds. It also proves how one dropped
  batch shifts every later vector.

The external systems are oracles:

- The completion service is a function from attempt number to an opened
  stream or an exception.
- The classifier's reply, the embedding service's answer and
  `index.search`'s hits are values or functions supplied with each input
  line.
- The table is a `map<int, string>` with an auto-increment counter.
- The index is the sequence of vectors added to it.

What the user sees is an event log:

- fixed messages (`Say`), each printed fragment (`Show`)
- classifier calls, retrievals and completion requests
- the retry loop's sleeps

Each loop is a method proved equal to a recursive specification (`Turn`,
`Session`, `Run`, `Attempts`, `Search`, `StoredFrom`). The properties are
lemmas about those specifications.

Two details of the code:

- `process_and_store` sleeps only after a batch whose embedding call
  returned vectors, because the `continue` skips the sleep
  (src/text_vectorizer.py:93-103). The model does not log these sleeps.
- `search_similar` keeps the order `index.search` returns (`LookupAppend`);
  ordering by distance is left to the index oracle.

## Model

| member | source | states |
|---|---|---|
| `Text.Strip` | src/rag_chat_bot.py:64 | `str.strip()` returns a string no longer than its input, with no whitespace at either end |
| `Text.StripCuts` | src/rag_chat_bot.py:64 | stripping removes only whitespace from the two ends: the input is leading whitespace, the result, then trailing whitespace |
| `Text.StripIdempotent` | src/text_vectorizer.py:58 | stripping twice gives the same text as stripping once |
| `Text.StripEmptyIff` | src/text_vectorizer.py:58-59 | a line strips to the empty string exactly when it is all whitespace |
| `Text.StrippedLowerIff` | src/rag_chat_bot.py:66 | `s.strip().lower() == word` holds exactly when `s` is the word in any case, surrounded only by whitespace |
| `Text.SplitJoin` | src/rag_chat_bot.py:147 | splitting a newline join on newlines gives back the parts, when no part contains a newline |
| `Text.ConcatAppend` | src/rag_chat_bot.py:99 | the text built by `+=` over two runs of pieces is the first run's text followed by the second's |
| `Intent.CheckFarewellIntent` | src/rag_chat_bot.py:16-34 | a farewell is reported only when the call returned content; an exception or a `None` content gives `False` |
| `Intent.FarewellIff` | lec1_streamchat.py:37-38 | the reply counts as a farewell exactly when it is `true` in any case, surrounded only by whitespace |
| `Retry.CreateChatCompletion` | src/rag_chat_bot.py:36-51 | the `for attempt in range(retries)` loop returns the outcome and the call/warning/sleep trace of the recursive retry definition |
| `Retry.AttemptsClosedForm` | src/rag_chat_bot.py:40-51 | with `f` the first attempt that succeeds: its stream is returned after `f` failed tries; if none succeeds, the last attempt's exception is raised after `retries - 1` failed tries and one last call |
| `Retry.AttemptsBounded` | lec1_streamchat.py:47-58 | at most `retries` calls are made and exactly one fewer sleeps, since there is no sleep after the last call; with `retries <= 0` nothing is called and `None` is returned |
| `Retry.ReturnsFirstSuccess` | src/rag_chat_bot.py:40-46 | when attempt `i` is the first to succeed, its stream is returned |
| `Retry.RaisesOnlyAfterLastFailure` | lec1_streamchat.py:54-56 | an exception escapes exactly when all `retries` attempts raised, and it is the last attempt's exception |
| `Chat.Parse` | src/rag_chat_bot.py:64-76 | an input that reaches the classifier is the stripped line, and it is non-empty |
| `Chat.ParseQuitIff` | lec1_streamchat.py:71-75 | `quit` is recognised in any case with any surrounding whitespace, and only then |
| `Chat.ParseClearIff` | lec1_streamchat.py:77-80 | `clear` is recognised in any case with any surrounding whitespace, and only then |
| `Chat.ParseSkipIff` | lec1_streamchat.py:82-83 | an input is skipped exactly when it is whitespace only |
| `Chat.Turn` | src/rag_chat_bot.py:61-110 | every pass of the loop keeps the history non-empty and its first entry unchanged |
| `Chat.Dispatch` | src/rag_chat_bot.py:66-104 | whichever of `quit`, `clear`, blank input, farewell or normal turn the parsed input selects, the history stays non-empty and keeps its first entry |
| `Chat.Session` | src/rag_chat_bot.py:55-61 | the first entry of the history at the start of the loop is still the first entry when the loop is left |
| `Chat.StreamReply` | src/rag_chat_bot.py:87-104 | retry, prefix, one printed fragment per non-`None` chunk, then the assistant entry; an exception from the retry loop or the stream leaves the history as given |
| `Chat.DrainStream` | src/rag_chat_bot.py:91-98 | the collected response is the concatenation of the non-`None` fragments in chunk order, and exactly one fragment is printed per non-`None` chunk, in the same order |
| `Chat.TakeTurn` | lec1_streamchat.py:68-117 | one pass of the plain loop yields exactly the history, log and exit of the `Turn` specification |
| `Chat.ChatWithGpt` | lec1_streamchat.py:60-117 | the plain session yields exactly the history, log and exit of the `Run` specification, starting from the system entry |
| `Chat.CommandsCallNothing` | src/rag_chat_bot.py:64-76 | `quit`, `clear` and blank input make no classifier call, retrieval or request; `quit` exits with the history unchanged, `clear` leaves exactly the system entry whatever the prior length, and blank input changes nothing |
| `Chat.FarewellEndsTurn` | src/rag_chat_bot.py:79-81 | a positive farewell check exits with the history unchanged; the log is the classifier call and the closing message, with no retrieval or request |
| `Chat.FragmentsAppend` | src/rag_chat_bot.py:95-99 | the reply collected over two runs of chunks is the first run's reply followed by the second's |
| `Chat.FragmentOfChunk` | lec1_streamchat.py:103-106 | a chunk contributes its content to the reply, or nothing when the content is `None` |
| `Chat.ShownFragments` | lec1_streamchat.py:102-106 | the text printed fragment by fragment is the reply text |
| `Chat.AttemptsShowNothing` | src/rag_chat_bot.py:40-51 | the retry loop prints no reply fragment |
| `Chat.SuccessfulExchange` | src/rag_chat_bot.py:87-104 | when the first successful attempt streams to the end, the assistant entry holds all non-`None` fragments in order, and the printed text is that same text |
| `Chat.ExchangeRaised` | src/rag_chat_bot.py:84-110 | when every attempt raises, the exchange keeps the history and its last event is the handler's message |
| `Chat.ExchangeBroken` | src/rag_chat_bot.py:94-110 | when the stream of the first successful attempt breaks off, the exchange keeps the history and its last event is the handler's message |
| `Chat.SuccessfulTurn` | lec1_streamchat.py:91-111 | a successful turn appends exactly two entries: the user entry, then the assistant entry with the concatenated fragments; it prints exactly that reply |
| `Chat.FailedTurnKeepsUserEntry` | src/rag_chat_bot.py:84-110 | when every attempt raises, the user entry stays, no assistant entry is added, the handler's message is printed and the loop continues |
| `Chat.BrokenStreamKeepsUserEntry` | src/rag_chat_bot.py:95-110 | a stream that raises while it is drained keeps the user entry and adds no assistant entry; the loop continues |
| `Chat.ExchangeExtends` | src/rag_chat_bot.py:87-104 | an exchange keeps the history it was given, and adds at most one assistant entry |
| `Chat.UserEntryAppended` | lec1_streamchat.py:90-91 | after the farewell check the user entry is appended first: the stripped input in the plain loop, the prompt with context in the augmented loop |
| `Chat.TurnAppendsOnly` | src/rag_chat_bot.py:84-104 | apart from `clear`, a turn only appends to the history, and at most two entries |
| `Chat.TurnKeepsWellFormed` | lec1_streamchat.py:78-111 | a turn keeps the history well formed: only the first entry is a system entry, and every assistant entry follows a user entry |
| `Chat.SessionKeepsWellFormed` | lec1_streamchat.py:68-117 | the whole loop keeps the history well formed |
| `Chat.RunWellFormed` | lec1_streamchat.py:62-64 | the history of a run always starts with the system entry it was created with, and is well formed |
| `Prompt.GeneratePromptWithContext` | src/rag_chat_bot.py:152-166 | the prompt is the fixed preamble, the context, the fixed middle, the query and the fixed tail, each in its place |
| `Prompt.PromptDeterminesQuery` | src/rag_chat_bot.py:159-166 | for a given context, two prompts are equal only when their questions are |
| `Prompt.ResultTextsAt` | src/rag_chat_bot.py:144-146 | context part `i` is the text of search result `i` |
| `Prompt.ContextIgnoresIdsAndDistances` | src/rag_chat_bot.py:145-147 | the context depends only on the result texts, in result order; ids and distances are ignored |
| `Prompt.ContextSplitsIntoTexts` | src/rag_chat_bot.py:147 | splitting a non-empty context on newlines gives back the result texts, when none of them contains a newline |
| `Rag.RagChatBot.constructor` | src/rag_chat_bot.py:113-126 | the bot searches through the vectorizer it is given |
| `Rag.RagChatBot.GetRelevantContext` | src/rag_chat_bot.py:134-150 | the context is the newline join of the search results' texts, or `""` when the search raises; the log holds the retrieval, `get_embeddings`' error message when the embedding call raised, and the context error message when the search failed |
| `Rag.RagChatBot.TakeTurn` | src/rag_chat_bot.py:177-225 | one pass of the augmented loop yields exactly the history, log and exit of the `Turn` specification over the bot's table and index |
| `Rag.RagChatBot.ChatWithGpt` | src/rag_chat_bot.py:168-225 | the augmented session yields exactly the history, log and exit of the `Run` specification |
| `Rag.RagUserEntry` | src/rag_chat_bot.py:196-203 | the user entry is the template filled with the stripped input and its context; the store is consulted right after the classifier, and the turn's log holds exactly one retrieval; a failed search leaves the context empty |
| `Rag.RagRetrievesOnce` | src/rag_chat_bot.py:196-203 | a turn past the farewell check consults the store exactly once: `get_relevant_context` is called once, with no retry, and the completion exchange makes no retrieval |
| `Vectorizer.TextVectorizer.constructor` | src/text_vectorizer.py:19-25 | a new vectorizer has an empty index over the table as it stands |
| `Vectorizer.TextVectorizer.SetupDatabase` | src/text_vectorizer.py:31-46 | after the drop and create, the table is empty, ids restart at 1, and the index is untouched |
| `Vectorizer.TextVectorizer.InsertRow` | src/text_vectorizer.py:61-64 | an insert stores the text under a fresh id from the auto-increment counter and returns that id as `lastrowid` |
| `Vectorizer.TextVectorizer.InsertTextsFromFile` | src/text_vectorizer.py:48-71 | one record per non-blank line, in file order, with the stripped text and the id of its own insert; the table gains exactly those rows |
| `Vectorizer.TextVectorizer.IngestLine` | src/text_vectorizer.py:57-65 | one line adds one record numbered after the previous ones, or none when it strips to nothing |
| `Vectorizer.TextVectorizer.ProcessAndStore` | src/text_vectorizer.py:85-103 | the index gains the batch-by-batch vectors of `StoredFrom`, and the table is unchanged; a `batch_size` of 0 raises and a negative one visits nothing |
| `Vectorizer.TextVectorizer.StoreBatches` | src/text_vectorizer.py:87-101 | for a positive step the index gains exactly the batch-by-batch vectors of `StoredFrom`, and the table and id counter are unchanged |
| `Vectorizer.TextVectorizer.SearchSimilar` | src/text_vectorizer.py:113-138 | the loop over the index hits returns the `Search` specification: a failure when the query cannot be embedded, and otherwise the found rows in hit order; `get_embeddings`' error message is logged when the embedding call raises |
| `Vectorizer.GetEmbeddings` | src/text_vectorizer.py:73-83 | a successful call yields all of its vectors; non-empty vectors come only from a successful call, so an exception yields `[]` |
| `Vectorizer.NonBlankLinesAppend` | src/text_vectorizer.py:57-59 | the records of a file are those of its first part followed by those of the rest |
| `Vectorizer.NonBlankLine` | src/text_vectorizer.py:58-59 | one line yields its stripped text, or nothing exactly when it is whitespace only |
| `Vectorizer.NonBlankLinesStripped` | src/text_vectorizer.py:58-65 | every kept text is non-empty and already stripped, and there are no more texts than lines |
| `Vectorizer.NumberedAt` | src/text_vectorizer.py:62-65 | record `p` has id `first + p` and the `p`-th kept text |
| `Vectorizer.NumberedIdsIncrease` | src/text_vectorizer.py:62-65 | with an auto-increment store, record ids strictly increase in read order, and the record texts are the kept texts |
| `Vectorizer.RowsOfNumbered` | src/text_vectorizer.py:61-65 | ingestion writes exactly the ids `first .. first + n - 1`, and id `first + p` holds text `p` |
| `Vectorizer.LookupAppend` | src/text_vectorizer.py:127-133 | hits are looked up one at a time, and result order follows the order the index returned the hits in |
| `Vectorizer.LookupOne` | src/text_vectorizer.py:129-133 | a hit at position `p` yields the row with id `p + 1` and the hit's distance, or nothing when that id is missing |
| `Vectorizer.LookupSound` | src/text_vectorizer.py:127-133 | every result is a table row with that row's own id and text, coming from a hit whose position is the id minus 1; there are no more results than hits |
| `Vectorizer.LookupComplete` | src/text_vectorizer.py:127-133 | every hit whose id `position + 1` is in the table is reported |
| `Vectorizer.LookupSkipsPadding` | src/text_vectorizer.py:129-132 | with ids starting at 1, a padding hit at a negative position yields nothing |
| `Vectorizer.SearchOutcome` | src/text_vectorizer.py:113-120 | the search fails exactly when embedding the query gave no vector; otherwise it returns at most `k` results |
| `Alignment.BatchesCover` | src/text_vectorizer.py:87-88 | the batches cover every record exactly once, in order |
| `Alignment.BatchSizes` | src/text_vectorizer.py:87-88 | every batch is non-empty and holds `batch_size` records, except that the last may hold fewer |
| `Alignment.BatchOffsets` | src/text_vectorizer.py:87-88 | batch `k` is the slice starting at offset `k * batch_size` |
| `Alignment.StoredPerBatch` | src/text_vectorizer.py:87-100 | the vectors added are each batch's embedding result in batch order, and an empty result adds nothing |
| `Alignment.StoredAllFaithful` | src/text_vectorizer.py:87-100 | when every embedding call succeeds, there is one vector per record, and position `p` holds the embedding of record `p`'s text |
| `Alignment.StoredOneDropped` | src/text_vectorizer.py:92-100 | with one dropped batch, earlier vectors stay at their records' positions and later ones move down by the dropped batch's size |
| `Alignment.AlignedWhenAllSucceed` | src/text_vectorizer.py:87-133 | after a fresh table and all embedding calls succeed, the ids are exactly the index positions plus 1, and position `p` holds the embedding of the row with id `p + 1` |
| `Alignment.IngestAndIndex` | src/text_vectorizer.py:142-151 | setting up the table, ingesting the file and storing the vectors with every embedding call succeeding leaves the vectorizer's table ids exactly its index positions plus one, each position holding the embedding of the row read for it |
| `Alignment.ShiftedAfterDrop` | src/text_vectorizer.py:92-129 | when batch `d` is dropped, the index is shorter by that batch's size; positions before `d * batch_size` are read correctly, and every later one is read as a row that number of ids too low |
| `Alignment.DroppedBatchMisaligns` | src/text_vectorizer.py:92-94 | example with lines A, B, C and one record per batch, where the second call fails: position 1 is read as row 2 (B) but holds the embedding of C |

## Left out

- The completion and embedding services, and the classifier's call, are oracles given with each input line. Prompt wording, model names, temperature and token caps are not modelled. The system messages and the template text are opaque constants in a fixed order.
- Only the query embedding fails a search. Store failures in `search_similar` (connection or query errors), which `get_relevant_context` would also turn into `""`, are not modelled. The store is a map with an auto-increment counter. Connections, SQL text, commit and close are I/O against an external store.
- The index's nearest-neighbour computation, float32 conversion and distances are floating-point work inside a library. `index.search` is an oracle returning hits. `Vectorizer.SearchOutcome` assumes that the oracle returns at most `k` hits. An `np.array` of vectors of unequal length, which would raise, is not modelled.
- The schema file is assumed to create `ai_context` with an AUTO_INCREMENT id that starts at 1 (MySQL's default); `Vectorizer.TextVectorizer.SetupDatabase` ends with the counter at 1, and `Alignment.AlignedWhenAllSucceed` and `Alignment.IngestAndIndex` rely on it. The contents of `sql/schema.sql` are not part of this model.
- `save_index`, `load_index`, `load_config` and `load_dotenv` are file I/O and library parsing. The bot is built over a vectorizer that already holds its table and index.
- `Vectorizer.GetEmbeddings`: its error message is logged on the search path (`EmbedError`), but not while `process_and_store` builds the index, whose console output is not modelled.
- Console text, `readline`, the `print`/`time.sleep(1)` after each stored batch, and the sleep durations are not modelled. Only the retry loop's sleeps are logged.
- `KeyboardInterrupt` and `sys.exit(0)` are not modelled, because signals are outside a sequential model.
- The end of input is not modelled as in the code. There, `input()` raises `EOFError`, the loop's handler catches it and asks again for ever. The model ends the session with `EndOfInput` once the input lines run out.
- `str.lower()` is modelled on ASCII letters only. For the comparisons with `true`, `quit` and `clear` this is still exact. Only two non-ASCII characters lower to ASCII letters. The Kelvin sign lowers to `k`, which none of the three words contains. The dotted capital I lowers to `i` followed by a combining dot, which leaves an extra character.
- A stream that raises part way is modelled as the chunks it delivered, followed by an exception. Its fragments are printed, and the handler then reports the error.
