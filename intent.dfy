/** `check_farewell_intent` (src/rag_chat_bot.py:16-34, lec1_streamchat.py:23-41):
    one classifier call per user turn, whose reply is normalised to a
    boolean. The call itself is the oracle `IntentReply`. */
module Intent {
  import opened Wrappers
  import opened Text
  import opened Services

  /** The function ends in its `except` branch: the call raised, or the
      reply's content is `None`, so that `.strip()` raises. */
  predicate IntentRaised(reply: IntentReply)
  {
    !(reply.Answered? && reply.content.Some?)
  }

  /** `response.choices[0].message.content.strip().lower() == 'true'`, and
      `False` on any exception. */
  function CheckFarewellIntent(reply: IntentReply): (farewell: bool)
    ensures farewell ==> !IntentRaised(reply)
  {
    match reply
    case Answered(Some(content)) => Lower(Strip(content)) == "true"
    case _ => false
  }

  /** A reply counts as a farewell exactly when it is `true`, in any mix
      of upper and lower case, with nothing but whitespace around it. */
  lemma FarewellIff(content: string)
    ensures CheckFarewellIntent(Answered(Some(content))) <==>
            exists w1, t, w2 :: Padded(content, w1, t, w2) && Lower(t) == "true"
  {
    StrippedLowerIff(content, "true");
  }
}
