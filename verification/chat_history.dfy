/** The in-memory chat history: a list of messages that an acceptance
    predicate filters on the way in. Two implementations share the base
    class's `AddMessages` and `SetMessages`: the library's, which restamps
    every stored message with the current time, and the test project's,
    which stores messages unchanged. The clock is a parameter. */
module ChatHistory {
  import opened Wrappers

  datatype Role = System | Human | Ai | Chat | FunctionCall | FunctionResult

  /** A message value; `dateTime` is an opaque timestamp, 0 in a default
      message. */
  datatype Message = Message(content: Option<string>, role: Role, dateTime: nat)

  /** `new Message()`: no content, the first role, the default time. */
  const DefaultMessage := Message(None, System, 0)

  /** `text.AsHumanMessage()` and `text.AsAiMessage()`: the text with its role. */
  function HumanMessage(text: string): Message {
    Message(Some(text), Human, 0)
  }

  function AiMessage(text: string): Message {
    Message(Some(text), Ai, 0)
  }

  /** Which implementation: the library's restamps, the test project's
      does not. */
  datatype Variant = Stamping | Plain

  /** The history after a call, and whether the call threw. */
  datatype Outcome = Outcome(messages: seq<Message>, result: Result<()>)

  /** What the history stores for an accepted message. */
  function Stored(variant: Variant, m: Message, now: nat): (r: Message)
    ensures r.content == m.content && r.role == m.role
    ensures variant.Plain? ==> r == m
    ensures variant.Stamping? ==> r.dateTime == now
  {
    match variant
    case Stamping => m.(dateTime := now)
    case Plain => m
  }

  /** `AddMessage`: one element appended at the end iff the predicate
      accepts the message; nothing else changes. */
  function AddMessage(variant: Variant, accept: Message -> bool, history: seq<Message>, m: Message, now: nat)
    : (r: seq<Message>)
    ensures accept(m) ==> |r| == |history| + 1 && r[..|history|] == history
                          && r[|history|].content == m.content && r[|history|].role == m.role
    ensures accept(m) && variant.Plain? ==> r[|history|] == m
    ensures accept(m) && variant.Stamping? ==> r[|history|].dateTime == now
    ensures !accept(m) ==> r == history
  {
    if accept(m) then history + [Stored(variant, m, now)] else history
  }

  /** The default predicate. */
  function AcceptAll(m: Message): bool {
    true
  }

  /** The messages of `ms` the predicate accepts, as stored: the reference
      for `AddMessages`. The `i`-th call sees the time `now(i)`. */
  function Kept(variant: Variant, accept: Message -> bool, ms: seq<Message>, now: nat -> nat): (r: seq<Message>)
    ensures |r| <= |ms|
  {
    if |ms| == 0 then []
    else
      var n := |ms| - 1;
      Kept(variant, accept, ms[..n], now) + (if accept(ms[n]) then [Stored(variant, ms[n], now(n))] else [])
  }

  /** `AddMessages`: a null sequence throws and adds nothing; otherwise
      `AddMessage` is applied to each element in order. */
  method AddMessages(variant: Variant, accept: Message -> bool, history: seq<Message>,
                     messages: Option<seq<Message>>, now: nat -> nat) returns (r: Outcome)
    ensures messages.None? ==> r == Outcome(history, Failure(ArgumentNull("messages")))
    ensures messages.Some? ==> r.result.Success? && r.messages == history + Kept(variant, accept, messages.value, now)
  {
    if messages.None? {
      return Outcome(history, Failure(ArgumentNull("messages")));
    }
    var ms := messages.value;
    var h := history;
    var i := 0;
    while i < |ms|
      invariant 0 <= i <= |ms|
      invariant h == history + Kept(variant, accept, ms[..i], now)
    {
      h := AddMessage(variant, accept, h, ms[i], now(i));
      assert ms[..i + 1][..i] == ms[..i];
      i := i + 1;
    }
    assert ms[..i] == ms;
    r := Outcome(h, Success(()));
  }

  /** `SetMessages`: a null sequence throws before `Clear`, leaving the
      history as it was; otherwise the history is cleared and refilled. */
  method SetMessages(variant: Variant, accept: Message -> bool, history: seq<Message>,
                     messages: Option<seq<Message>>, now: nat -> nat) returns (r: Outcome)
    ensures messages.None? ==> r == Outcome(history, Failure(ArgumentNull("messages")))
    ensures messages.Some? ==> r.result.Success? && r.messages == Kept(variant, accept, messages.value, now)
  {
    if messages.None? {
      return Outcome(history, Failure(ArgumentNull("messages")));
    }
    var cleared: seq<Message> := [];
    r := AddMessages(variant, accept, cleared, messages, now);
  }

  /** Under the default predicate every message is kept, in order; the
      test project's history then stores exactly the messages given, and
      the library's differs only in the timestamps. */
  lemma {:induction false} KeptAcceptAll(variant: Variant, ms: seq<Message>, now: nat -> nat)
    ensures |Kept(variant, AcceptAll, ms, now)| == |ms|
    ensures forall i :: 0 <= i < |ms| ==>
              Kept(variant, AcceptAll, ms, now)[i].content == ms[i].content
              && Kept(variant, AcceptAll, ms, now)[i].role == ms[i].role
    ensures variant.Plain? ==> Kept(variant, AcceptAll, ms, now) == ms
  {
    if |ms| > 0 {
      var n := |ms| - 1;
      KeptAcceptAll(variant, ms[..n], now);
      assert ms == ms[..n] + [ms[n]];
    }
  }

  /** A rejected message leaves the kept list as it was. */
  lemma KeptRejects(variant: Variant, accept: Message -> bool, ms: seq<Message>, m: Message, now: nat -> nat)
    requires !accept(m)
    ensures Kept(variant, accept, ms + [m], now) == Kept(variant, accept, ms, now)
  {
    assert (ms + [m])[..|ms|] == ms;
  }

  /** `AddUserMessage`: one `AddMessage` of the text as a human message. */
  function AddUserMessage(variant: Variant, accept: Message -> bool, history: seq<Message>, text: string, now: nat)
    : (r: seq<Message>)
    ensures |r| <= |history| + 1 && |r| >= |history| && r[..|history|] == history
    ensures |r| == |history| + 1 <==> accept(HumanMessage(text))
    ensures |r| == |history| + 1 ==> r[|history|].content == Some(text) && r[|history|].role == Human
  {
    AddMessage(variant, accept, history, HumanMessage(text), now)
  }

  /** The base class's `AddAiMessage(string)`: one `AddMessage` of the text
      as an AI message. */
  function AddAiMessageBase(variant: Variant, accept: Message -> bool, history: seq<Message>, text: string, now: nat)
    : (r: seq<Message>)
    ensures |r| <= |history| + 1 && |r| >= |history| && r[..|history|] == history
    ensures |r| == |history| + 1 <==> accept(AiMessage(text))
    ensures |r| == |history| + 1 ==> r[|history|].content == Some(text) && r[|history|].role == Ai
  {
    AddMessage(variant, accept, history, AiMessage(text), now)
  }

  /** The library history's own `AddAiMessage(string)`: the predicate is
      asked about a default message, which is then given the text and the
      time and stored with its default role. */
  function AddAiMessageText(accept: Message -> bool, history: seq<Message>, text: string, now: nat)
    : (r: seq<Message>)
    ensures |r| <= |history| + 1 && |r| >= |history| && r[..|history|] == history
    ensures |r| == |history| + 1 <==> accept(DefaultMessage)
    ensures |r| == |history| + 1 ==> r[|history|] == Message(Some(text), System, now)
  {
    if accept(DefaultMessage) then history + [DefaultMessage.(content := Some(text)).(dateTime := now)] else history
  }

  /** Whether the text is stored does not depend on the text. */
  lemma AddAiMessageTextIgnoresText(accept: Message -> bool, history: seq<Message>, a: string, b: string, now: nat)
    ensures |AddAiMessageText(accept, history, a, now)| == |AddAiMessageText(accept, history, b, now)|
  {
  }

  /** A predicate that refuses empty messages refuses every text, and an
      accepted text is stored under the `System` role. */
  lemma AddAiMessageTextDiscards(history: seq<Message>, now: nat)
    ensures var nonEmpty := (m: Message) => m.content.Some?;
            AddAiMessageText(nonEmpty, history, "hello", now) == history
            && AddAiMessageBase(Stamping, nonEmpty, history, "hello", now) == history + [Message(Some("hello"), Ai, now)]
    ensures AddAiMessageText(AcceptAll, history, "hello", now)[|history|].role == System
  {
  }

  /** The intended `AddAiMessage(string)`: the predicate sees the message
      that is stored. */
  function AddAiMessageCorrected(accept: Message -> bool, history: seq<Message>, text: string, now: nat)
    : (r: seq<Message>)
    ensures |r| <= |history| + 1 && |r| >= |history| && r[..|history|] == history
    ensures |r| == |history| + 1 <==> accept(AiMessage(text))
    ensures |r| == |history| + 1 ==> r[|history|] == Message(Some(text), Ai, now)
  {
    AddMessage(Stamping, accept, history, AiMessage(text), now)
  }

  /** `AddAiMessage(Message?)`: a null message throws at `.Value` before
      anything is stored; otherwise it is `AddMessage` of the message. */
  function AddAiMessageValue(accept: Message -> bool, history: seq<Message>, m: Option<Message>, now: nat)
    : (r: Outcome)
    ensures m.None? ==> r == Outcome(history, Failure(InvalidOperation))
    ensures m.Some? ==> r.result.Success? && |r.messages| >= |history| && r.messages[..|history|] == history
    ensures m.Some? ==> (|r.messages| == |history| + 1 <==> accept(m.value)) && |r.messages| <= |history| + 1
    ensures m.Some? && accept(m.value) ==> r.messages[|history|] == m.value.(dateTime := now)
  {
    match m
    case None => Outcome(history, Failure(InvalidOperation))
    case Some(v) =>
      if accept(v) then Outcome(history + [v.(dateTime := now)], Success(()))
      else Outcome(history, Success(()))
  }

  /** On a present message it behaves as the library's `AddMessage`. */
  lemma AddAiMessageValueIsAddMessage(accept: Message -> bool, history: seq<Message>, m: Message, now: nat)
    ensures AddAiMessageValue(accept, history, Some(m), now).messages == AddMessage(Stamping, accept, history, m, now)
  {
  }
}
