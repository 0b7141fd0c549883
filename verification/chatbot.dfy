/** The floating assistant (Chatbot.jsx): a message list, an input box and
    an open flag. Sending schedules a canned reply one second later; that
    reply is delivered by a separate step. */
module Chatbot {
  import opened Text

  datatype Message = Message(id: int, text: string, isUser: bool)

  const Greeting: string := "Hello! I'm here to help you with AsaanForm. How can I assist you today?"
  const ReplyText: string :=
    "I understand you need help. Please provide more details about your form or documents, and I'll assist you right away!"

  /** `pending` holds the ids of the replies whose timers are running, in
      the order they will fire (every timer has the same delay). */
  datatype Chat = Chat(isOpen: bool, messages: seq<Message>, input: string, pending: seq<int>)

  function Init(): (c: Chat)
    ensures !c.isOpen && c.input == "" && c.pending == []
    ensures c.messages == [Message(1, Greeting, false)]
  {
    Chat(false, [Message(1, Greeting, false)], "", [])
  }

  function Open(c: Chat): (r: Chat)
    ensures r.isOpen && r == c.(isOpen := true)
  {
    c.(isOpen := true)
  }

  function Close(c: Chat): (r: Chat)
    ensures !r.isOpen && r == c.(isOpen := false)
  {
    c.(isOpen := false)
  }

  /** Typing into the box. */
  function Type(c: Chat, value: string): (r: Chat)
    ensures r == c.(input := value)
  {
    c.(input := value)
  }

  /** `!input.trim()`: the input is empty or whitespace only. */
  predicate IsBlank(input: string)
  {
    Trim(input, IsJsWhitespace) == ""
  }

  /** `handleSend`: a blank input does nothing; otherwise the untrimmed text
      is appended as a user message numbered one past the list length, the
      box is cleared, and a reply numbered two past the pre-send length is
      scheduled. */
  function Send(c: Chat): (r: Chat)
    ensures IsBlank(c.input) <==> All(c.input, IsJsWhitespace)
    ensures IsBlank(c.input) ==> r == c
    ensures !IsBlank(c.input) ==>
      && r.messages == c.messages + [Message(|c.messages| + 1, c.input, true)]
      && r.input == ""
      && r.pending == c.pending + [|c.messages| + 2]
      && r.isOpen == c.isOpen
  {
    if IsBlank(c.input) then c
    else
      Chat(c.isOpen, c.messages + [Message(|c.messages| + 1, c.input, true)], "",
           c.pending + [|c.messages| + 2])
  }

  /** The earliest timer fires: its reply goes at the end of the list as it
      is at that moment, with the id fixed when it was scheduled. */
  function DeliverReply(c: Chat): (r: Chat)
    ensures c.pending == [] ==> r == c
    ensures c.pending != [] ==>
      && r.messages == c.messages + [Message(c.pending[0], ReplyText, false)]
      && r.pending == c.pending[1..]
      && r.input == c.input && r.isOpen == c.isOpen
  {
    if c.pending == [] then c
    else c.(messages := c.messages + [Message(c.pending[0], ReplyText, false)], pending := c.pending[1..])
  }

  /** Ids number the messages from one, in list order. */
  predicate IdsArePositions(ms: seq<Message>)
  {
    forall i :: 0 <= i < |ms| ==> ms[i].id == i + 1
  }

  predicate UniqueIds(ms: seq<Message>)
  {
    forall i, j :: 0 <= i < j < |ms| ==> ms[i].id != ms[j].id
  }

  lemma PositionsAreUnique(ms: seq<Message>)
    requires IdsArePositions(ms)
    ensures UniqueIds(ms)
  {
  }

  /** One send answered before the next one keeps the numbering. */
  lemma SendThenReplyKeepsNumbering(c: Chat)
    requires IdsArePositions(c.messages) && c.pending == [] && !IsBlank(c.input)
    ensures IdsArePositions(DeliverReply(Send(c)).messages)
    ensures DeliverReply(Send(c)).pending == []
    ensures |DeliverReply(Send(c)).messages| == |c.messages| + 2
  {
  }

  /** Two sends inside the reply delay give two messages the same id: the
      second user message and the first reply are both numbered 3. */
  lemma OverlappingSendsDuplicateIds()
    ensures var c := DeliverReply(DeliverReply(Send(Type(Send(Type(Init(), "a")), "b"))));
      && |c.messages| == 5
      && c.messages[2].id == 3 && c.messages[3].id == 3
      && !UniqueIds(c.messages)
  {
  }

  /** The intended reply: numbered from the list it is appended to. */
  function DeliverReplyFixed(c: Chat): (r: Chat)
    ensures c.pending == [] ==> r == c
    ensures IdsArePositions(c.messages) ==> IdsArePositions(r.messages)
    ensures c.pending != [] ==> |r.messages| == |c.messages| + 1 && r.messages[..|c.messages|] == c.messages
  {
    if c.pending == [] then c
    else c.(messages := c.messages + [Message(|c.messages| + 1, ReplyText, false)], pending := c.pending[1..])
  }

  /** With the fixed reply, any interleaving of typing, sends, replies and
      open/close keeps ids equal to positions, hence unique. */
  datatype Event = TypeText(value: string) | SendInput | Reply | OpenChat | CloseChat

  function StepFixed(c: Chat, e: Event): Chat
  {
    match e
    case TypeText(v) => Type(c, v)
    case SendInput => Send(c)
    case Reply => DeliverReplyFixed(c)
    case OpenChat => Open(c)
    case CloseChat => Close(c)
  }

  function RunFixed(c: Chat, evs: seq<Event>): Chat
    decreases |evs|
  {
    if |evs| == 0 then c else RunFixed(StepFixed(c, evs[0]), evs[1..])
  }

  lemma {:induction false} FixedRepliesKeepIdsUnique(c: Chat, evs: seq<Event>)
    requires IdsArePositions(c.messages)
    ensures IdsArePositions(RunFixed(c, evs).messages)
    ensures UniqueIds(RunFixed(c, evs).messages)
    decreases |evs|
  {
    if |evs| == 0 {
      PositionsAreUnique(c.messages);
    } else {
      FixedRepliesKeepIdsUnique(StepFixed(c, evs[0]), evs[1..]);
    }
  }
}
