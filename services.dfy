/** The external systems the chat loops and the vectorizer call, seen only
    through their answers, and the trace of observable events a run leaves.

    The completion service, the embedding service and the similarity index
    are not modelled: each call is replaced by the answer it gives, supplied
    by the caller as an oracle value or function. */
module Services {
  import opened Wrappers

  /** An embedding vector; its components are opaque here. */
  type Vector = seq<real>

  datatype Role = System | User | Assistant

  /** One entry of a conversation history: `{"role": ..., "content": ...}`. */
  datatype Message = Message(role: Role, content: string)

  /** One chunk of a streamed reply; `chunk.choices[0].delta.content` may be
      `None`. */
  datatype Chunk = Chunk(content: Option<string>)

  /** A streamed reply: the chunks it delivers and whether iterating it
      raises after the last of them (a connection dropped mid-stream). */
  datatype Stream = Stream(chunks: seq<Chunk>, broken: bool)

  /** The answer to one `client.chat.completions.create(..., stream=True)`
      call: a stream, or an exception. */
  datatype Completion = Opened(stream: Stream) | Refused(error: string)

  /** The answer to the farewell classifier's completion call: an exception,
      or a reply whose `message.content` may be `None`. */
  datatype IntentReply = IntentFailed(error: string) | Answered(content: Option<string>)

  /** The answer to one `client.embeddings.create(input=texts)` call. */
  datatype EmbedAnswer = EmbedFailed(error: string) | Embedded(vectors: seq<Vector>)

  /** One row of `index.search`'s answer: a position in the index (FAISS
      pads with -1 when it has fewer than k vectors) and its distance. */
  datatype Hit = Hit(position: int, distance: real)

  /** The fixed console messages; their wording is not modelled. */
  datatype Notice =
    | Welcome        // the banner printed when a session starts
    | Bye            // printed on `quit`
    | Cleared        // printed on `clear`
    | FarewellReply  // the fixed closing message after a detected farewell
    | ReplyPrefix    // "ChatGPT: " printed before the first fragment
    | ReplyEnd       // the newline printed after the last fragment
    | RetryWarning   // printed before sleeping between attempts
    | IntentError    // printed when the farewell classifier raises
    | EmbedError     // printed by `get_embeddings` when the embedding call raises
    | ContextError   // printed when retrieval raises
    | TurnError      // printed by the loop's `except Exception` handler

  datatype Event =
    | Say(notice: Notice)               // a fixed console message
    | Show(fragment: string)            // one streamed fragment printed as it arrives
    | Classify(text: string)            // the farewell classifier is asked about `text`
    | Retrieve(query: string)           // a similarity search for `query` is started
    | Request(messages: seq<Message>)   // one completion attempt over this history
    | Sleep(seconds: nat)               // `time.sleep(seconds)`
}
