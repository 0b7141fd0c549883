/** The intent node (intent_agent.py): asks the language model to classify
    the user's input and reduces its reply to one of three intents. */
module IntentAgent {
  import opened Text
  import opened Json
  import opened AgentState

  const Intents: set<string> := {"chat", "document", "form"}

  /** `response.content.strip().lower()`. */
  function Normalize(reply: string): (r: string)
    ensures |r| <= |reply|
    ensures r == "" <==> All(reply, IsPyWhitespace)
  {
    ToAsciiLower(Trim(reply, IsPyWhitespace))
  }

  /** The normalised reply when it is one of the intents, else `"chat"`. */
  function Classify(reply: string): (intent: string)
    ensures intent in Intents
    ensures Normalize(reply) in Intents ==> intent == Normalize(reply)
    ensures Normalize(reply) !in Intents ==> intent == "chat"
  {
    var n := Normalize(reply);
    if n in Intents then n else "chat"
  }

  /** An intent written exactly is read as itself, so classifying is
      idempotent. */
  lemma ClassifyFixesIntents(v: string)
    requires v in Intents
    ensures Classify(v) == v
  {
    if v == "chat" { LowerWordFixed(v); }
    else if v == "document" { LowerWordFixed(v); }
    else { LowerWordFixed(v); }
  }

  /** A non-empty word of lower-case letters normalises to itself. */
  lemma LowerWordFixed(v: string)
    requires |v| > 0 && forall i :: 0 <= i < |v| ==> IsAsciiLower(v[i])
    ensures Normalize(v) == v
  {
  }

  lemma ClassifyIdempotent(reply: string)
    ensures Classify(Classify(reply)) == Classify(reply)
  {
    ClassifyFixesIntents(Classify(reply));
  }

  lemma PaddedEdges()
    ensures LeadingCount("  Document\n", IsPyWhitespace) == 2
    ensures SkipBackward("  Document\n", IsPyWhitespace, 11) == 10
  {
  }

  lemma LowerDocument()
    ensures ToAsciiLower("Document") == "document"
  {
  }

  /** Surrounding whitespace and capitals do not matter. */
  lemma PaddedCapitalised()
    ensures Normalize("  Document\n") == "document"
    ensures Classify("  Document\n") == "document"
  {
    PaddedEdges();
    assert Trim("  Document\n", IsPyWhitespace) == "  Document\n"[2..10] == "Document";
    LowerDocument();
  }

  /** `intent_agent`: the language model is a parameter that sees the
      `user_input` entry (the empty string when absent); the returned update
      holds the intent and nothing else. */
  function Run(state: State, ask: Json -> string): (update: State)
    ensures update.Keys == {"intent"}
    ensures update["intent"].JStr? && update["intent"].s in Intents
    ensures update["intent"] == JStr(Classify(ask(Get(state, "user_input", JStr("")))))
  {
    map["intent" := JStr(Classify(ask(Get(state, "user_input", JStr("")))))]
  }
}
