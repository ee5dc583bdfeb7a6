/** `components/HealthChat.tsx`: the assistant's transcript, the input box and the loading flag
    around one call to the language model, whose answer is passed in as an outcome. */
module HealthChat {
  import opened Wrappers
  import opened Text
  import opened Types

  /** Who wrote a message, `'user' | 'model'`. */
  datatype Speaker = UserSide | ModelSide

  datatype ChatMessage = ChatMessage(role: Speaker, text: string)

  const Greeting := ChatMessage(ModelSide,
    "I'm your PhysioSync curiosity assistant. Ask me anything about your recovery, why certain exercises help, or how your body heals!")

  const EmptyReplyText := "I encountered an error processing your question."

  const ConnectionErrorText := "I'm having trouble connecting to my knowledge base right now."

  /** How the call ended: an answer whose text may be missing or empty, or a thrown error. */
  datatype ReplyOutcome = Replied(text: Option<string>) | Failed

  /** The model message appended when the call ends. */
  function ReplyMessage(outcome: ReplyOutcome): (m: ChatMessage)
    ensures m.role == ModelSide && m.text != ""
    ensures outcome.Replied? && Truthy(outcome.text) ==> m.text == outcome.text.value
    ensures outcome.Replied? && !Truthy(outcome.text) ==> m.text == EmptyReplyText
    ensures outcome.Failed? ==> m.text == ConnectionErrorText
  {
    match outcome
    case Replied(t) => ChatMessage(ModelSide, if Truthy(t) then t.value else EmptyReplyText)
    case Failed => ChatMessage(ModelSide, ConnectionErrorText)
  }

  /** The guard of `handleSend`: something other than white space typed, and no call running. */
  function CanSend(input: string, loading: bool): (ok: bool)
    ensures ok <==> !loading && exists i :: 0 <= i < |input| && !IsWhitespace(input[i])
  {
    TrimEmptyIffBlank(input);
    Trim(input) != [] && !loading
  }

  /** The speaker expected at each position: the greeting, then user and model in turn. */
  function SpeakerAt(i: nat): Speaker
  {
    if i % 2 == 1 then UserSide else ModelSide
  }

  /** Transcripts whose speakers alternate from the greeting on. */
  ghost predicate Alternates(msgs: seq<ChatMessage>)
  {
    forall i :: 0 <= i < |msgs| ==> msgs[i].role == SpeakerAt(i)
  }

  /** Appending the speaker whose turn it is keeps the alternation, and the greeting stays first. */
  lemma AppendInTurn(msgs: seq<ChatMessage>, m: ChatMessage)
    requires Alternates(msgs) && m.role == SpeakerAt(|msgs|)
    ensures Alternates(msgs + [m])
    ensures msgs != [] ==> (msgs + [m])[0] == msgs[0]
  {
  }

  /** A transcript as the panel keeps it: the greeting first, then user and model in turn. */
  ghost predicate Transcript(msgs: seq<ChatMessage>)
  {
    |msgs| >= 1 && msgs[0] == Greeting && Alternates(msgs)
  }

  /** A message from the speaker who did not write the last one keeps a transcript a transcript,
      now ending with that message. */
  lemma AppendOther(msgs: seq<ChatMessage>, m: ChatMessage)
    requires Transcript(msgs) && m.role != msgs[|msgs| - 1].role
    ensures Transcript(msgs + [m]) && (msgs + [m])[|msgs|] == m
  {
    var n := |msgs|;
    assert msgs[n - 1].role == SpeakerAt(n - 1);
    assert SpeakerAt(n) != SpeakerAt(n - 1);
    AppendInTurn(msgs, m);
  }

  /** The messages that completed sends append, one `(typed text, outcome)` pair per send. */
  function Exchanges(turns: seq<(string, ReplyOutcome)>): seq<ChatMessage>
  {
    if turns == [] then []
    else
      var last := turns[|turns| - 1];
      Exchanges(turns[..|turns| - 1]) + [ChatMessage(UserSide, last.0), ReplyMessage(last.1)]
  }

  /** One more send adds its typed text and its reply after the earlier exchanges. */
  lemma ExchangesPrefix(turns: seq<(string, ReplyOutcome)>, k: nat)
    requires k < |turns|
    ensures Exchanges(turns[..k + 1]) ==
            Exchanges(turns[..k]) + [ChatMessage(UserSide, turns[k].0), ReplyMessage(turns[k].1)]
  {
    assert turns[..k + 1][..k] == turns[..k];
  }

  /** After `n` completed sends the transcript holds `2n + 1` messages that alternate from the
      greeting on, send `k` contributing its typed text at `2k + 1` and its reply at `2k + 2`. */
  lemma {:induction false} ExchangesShape(turns: seq<(string, ReplyOutcome)>)
    ensures |Exchanges(turns)| == 2 * |turns|
    ensures Alternates([Greeting] + Exchanges(turns))
    ensures forall k :: 0 <= k < |turns| ==>
      Exchanges(turns)[2 * k] == ChatMessage(UserSide, turns[k].0) &&
      Exchanges(turns)[2 * k + 1] == ReplyMessage(turns[k].1)
  {
    if turns != [] {
      var init, last := turns[..|turns| - 1], turns[|turns| - 1];
      ExchangesShape(init);
      var prev := [Greeting] + Exchanges(init);
      var user := ChatMessage(UserSide, last.0);
      AppendInTurn(prev, user);
      AppendInTurn(prev + [user], ReplyMessage(last.1));
      assert [Greeting] + Exchanges(turns) == prev + [user] + [ReplyMessage(last.1)];
      forall k | 0 <= k < |turns|
        ensures Exchanges(turns)[2 * k] == ChatMessage(UserSide, turns[k].0)
        ensures Exchanges(turns)[2 * k + 1] == ReplyMessage(turns[k].1)
      {
        if k < |init| {
          assert turns[k] == init[k];
        }
      }
    }
  }

  /** The chat panel's state. */
  class ChatSession {
    var messages: seq<ChatMessage>
    var input: string
    var loading: bool

    /** The transcript opens with the greeting and alternates user and model; a call is running
        exactly when the last message is the user's. */
    ghost predicate Valid()
      reads this
    {
      Transcript(messages) && (loading <==> messages[|messages| - 1].role == UserSide)
    }

    constructor()
      ensures Valid()
      ensures messages == [Greeting] && input == "" && !loading
    {
      messages := [Greeting];
      input := "";
      loading := false;
    }

    /** Typing into the box (allowed while a call runs). */
    method SetInput(text: string)
      requires Valid()
      modifies this
      ensures Valid()
      ensures input == text && messages == old(messages) && loading == old(loading)
    {
      input := text;
    }

    /** The part of `handleSend` before the call: when the guard passes, the box is cleared, the
        untrimmed text is appended as the user's message and loading starts. */
    method BeginSend() returns (accepted: bool, userText: string)
      requires Valid()
      modifies this
      ensures Valid()
      ensures accepted <==> CanSend(old(input), old(loading))
      ensures !accepted ==> messages == old(messages) && input == old(input) && loading == old(loading)
      ensures accepted ==> userText == old(input) && input == "" && loading &&
                           messages == old(messages) + [ChatMessage(UserSide, userText)]
    {
      accepted := CanSend(input, loading);
      if !accepted {
        return accepted, "";
      }
      userText := input;
      input := "";
      AppendOther(messages, ChatMessage(UserSide, userText));
      messages := messages + [ChatMessage(UserSide, userText)];
      loading := true;
    }

    /** The part after the call: the reply or the fallback text is appended and loading stops,
        whatever the outcome. */
    method EndSend(outcome: ReplyOutcome)
      requires Valid() && loading
      modifies this
      ensures Valid()
      ensures messages == old(messages) + [ReplyMessage(outcome)] && !loading && input == old(input)
    {
      AppendOther(messages, ReplyMessage(outcome));
      messages := messages + [ReplyMessage(outcome)];
      loading := false;
    }

    /** `handleSend` run to its end with no typing in between: an accepted send grows the
        transcript by exactly the user's message and then the model's. */
    method HandleSend(outcome: ReplyOutcome)
      requires Valid()
      modifies this
      ensures Valid()
      ensures !CanSend(old(input), old(loading)) ==>
        messages == old(messages) && input == old(input) && loading == old(loading)
      ensures CanSend(old(input), old(loading)) ==>
        messages == old(messages) + [ChatMessage(UserSide, old(input)), ReplyMessage(outcome)] &&
        input == "" && !loading
    {
      var accepted, userText := BeginSend();
      if accepted {
        EndSend(outcome);
      }
    }

    /** Typing a non-blank text into the idle box and pressing send, run to its end. */
    method TypeAndSend(text: string, outcome: ReplyOutcome)
      requires Valid() && !loading && CanSend(text, false)
      modifies this
      ensures Valid() && !loading && input == ""
      ensures messages == old(messages) + [ChatMessage(UserSide, text), ReplyMessage(outcome)]
    {
      SetInput(text);
      HandleSend(outcome);
    }
  }

  /** A fresh chat through a series of sends, each typed into the box and run to its end: the
      transcript is the greeting followed by every exchange in order, and nothing is loading. */
  method Converse(turns: seq<(string, ReplyOutcome)>) returns (chat: ChatSession)
    requires forall k :: 0 <= k < |turns| ==> CanSend(turns[k].0, false)
    ensures chat.Valid() && !chat.loading && chat.input == ""
    ensures chat.messages == [Greeting] + Exchanges(turns)
  {
    chat := new ChatSession();
    for k := 0 to |turns|
      invariant chat.Valid() && !chat.loading && chat.input == ""
      invariant chat.messages == [Greeting] + Exchanges(turns[..k])
    {
      var text, outcome := turns[k].0, turns[k].1;
      ghost var prev, before := chat.messages, Exchanges(turns[..k]);
      ghost var sent := [ChatMessage(UserSide, text), ReplyMessage(outcome)];
      ExchangesPrefix(turns, k);
      chat.TypeAndSend(text, outcome);
      calc {
        chat.messages;
        prev + sent;
        ([Greeting] + before) + sent;
        { assert ([Greeting] + before) + sent == [Greeting] + (before + sent); }
        [Greeting] + Exchanges(turns[..k + 1]);
      }
    }
    assert turns[..|turns|] == turns;
  }
}
