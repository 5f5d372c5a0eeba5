/** The two self-contained steps of the dormant handler `lambda_handler1`
    (lambda/index.py:139-256): turning the role-tagged history into the
    message list of a Bedrock `invoke_model` request (lines 175-186), and
    checking and unwrapping the model's reply (lines 213-217). The handler
    itself, the boto3 client and the request it sends are not modelled. */
module Bedrock {
  import opened Common

  datatype TextBlock = TextBlock(text: string)

  /** A message in the Bedrock request: a role and a list of text blocks. */
  datatype BedrockMessage = BedrockMessage(role: string, content: seq<TextBlock>)

  /** The roles the conversion keeps; every other role is dropped. */
  predicate IsConversationRole(role: string) {
    role == UserRole || role == AssistantRole
  }

  /** The Bedrock shape of one kept message: its text wrapped in one block. */
  function Wrapped(m: Message): BedrockMessage {
    BedrockMessage(m.role, [TextBlock(m.content)])
  }

  /** The specification of the conversion loop: kept messages, wrapped, in
      their original order. */
  function ToBedrock(messages: seq<Message>): (converted: seq<BedrockMessage>)
    ensures |converted| <= |messages|
    ensures forall k :: 0 <= k < |converted| ==>
      IsConversationRole(converted[k].role) && |converted[k].content| == 1
  {
    if messages == [] then []
    else
      var rest := ToBedrock(messages[1..]);
      if IsConversationRole(messages[0].role) then [Wrapped(messages[0])] + rest else rest
  }

  /** The loop at lines 175-186: one pass over the messages, appending the
      Bedrock form of each user or assistant message. */
  method ConvertHistory(messages: seq<Message>) returns (bedrockMessages: seq<BedrockMessage>)
    ensures bedrockMessages == ToBedrock(messages)
  {
    bedrockMessages := [];
    for i := 0 to |messages|
      invariant bedrockMessages == ToBedrock(messages[.. i])
    {
      var msg := messages[i];
      if msg.role == UserRole {
        bedrockMessages := bedrockMessages + [BedrockMessage(UserRole, [TextBlock(msg.content)])];
      } else if msg.role == AssistantRole {
        bedrockMessages := bedrockMessages + [BedrockMessage(AssistantRole, [TextBlock(msg.content)])];
      }
      assert messages[.. i + 1] == messages[.. i] + [msg];
      ToBedrockConcat(messages[.. i], [msg]);
    }
    assert messages[.. |messages|] == messages;
  }

  /** Converting a concatenation converts each part. */
  lemma {:induction false} ToBedrockConcat(a: seq<Message>, b: seq<Message>)
    ensures ToBedrock(a + b) == ToBedrock(a) + ToBedrock(b)
  {
    if a == [] {
      assert a + b == b;
    } else {
      assert (a + b)[1..] == a[1..] + b;
      ToBedrockConcat(a[1..], b);
    }
  }

  /** A message with any other role contributes nothing, wherever it stands. */
  lemma OtherRoleDropped(before: seq<Message>, m: Message, after: seq<Message>)
    requires !IsConversationRole(m.role)
    ensures ToBedrock(before + [m] + after) == ToBedrock(before + after)
  {
    ToBedrockConcat(before + [m], after);
    ToBedrockConcat(before, [m]);
    ToBedrockConcat(before, after);
  }

  /** On a history of user and assistant turns only, the conversion keeps
      every message, in order, with its role and its text. */
  lemma {:induction false} ToBedrockPointwise(messages: seq<Message>)
    requires forall k :: 0 <= k < |messages| ==> IsConversationRole(messages[k].role)
    ensures |ToBedrock(messages)| == |messages|
    ensures forall k :: 0 <= k < |messages| ==> ToBedrock(messages)[k] == Wrapped(messages[k])
  {
    if messages != [] {
      ToBedrockPointwise(messages[1..]);
    }
  }

  /** Reading the text back out of the first block of each Bedrock message. */
  function FromBedrock(converted: seq<BedrockMessage>): (messages: seq<Message>)
    requires forall k :: 0 <= k < |converted| ==> |converted[k].content| > 0
  {
    seq(|converted|, k requires 0 <= k < |converted| => Message(converted[k].role, converted[k].content[0].text))
  }

  /** The conversion loses nothing on a user/assistant history: reading the
      texts back gives the history again. */
  lemma ConversionRoundTrip(messages: seq<Message>)
    requires forall k :: 0 <= k < |messages| ==> IsConversationRole(messages[k].role)
    ensures FromBedrock(ToBedrock(messages)) == messages
  {
    ToBedrockPointwise(messages);
  }

  /** In `lambda_handler1` the converted list is that of the caller's history
      followed by the new user turn (lines 165-171), so it ends with that turn. */
  lemma ConversationEndsWithUserTurn(history: seq<Message>, message: string)
    ensures ToBedrock(history + [Message(UserRole, message)]) ==
            ToBedrock(history) + [BedrockMessage(UserRole, [TextBlock(message)])]
  {
    ToBedrockConcat(history, [Message(UserRole, message)]);
  }

  /** The decoded reply of `invoke_model`, down to the key the handler reads.
      A missing key is None; an empty JSON object at `output` or
      `output.message` behaves like a missing child key, so it needs no case
      of its own. */
  datatype ContentBlock = ContentBlock(text: Option<string>)
  datatype OutputMessage = OutputMessage(content: Option<seq<ContentBlock>>)
  datatype Output = Output(message: Option<OutputMessage>)
  datatype InvokeResponse = InvokeResponse(output: Option<Output>)

  /** `output.message.content` is present and non-empty. */
  predicate HasContent(r: InvokeResponse) {
    r.output.Some? && r.output.value.message.Some? &&
    r.output.value.message.value.content.Some? &&
    |r.output.value.message.value.content.value| > 0
  }

  function FirstBlock(r: InvokeResponse): ContentBlock
    requires HasContent(r)
  {
    r.output.value.message.value.content.value[0]
  }

  /** Lines 213-217: the three truthiness checks, then `content[0]['text']`. */
  function ValidateResponse(r: InvokeResponse): (text: Result<string>)
    ensures text == Err(NoContentError) <==> !HasContent(r)
    ensures text.Ok? <==> HasContent(r) && FirstBlock(r).text.Some?
    ensures text.Ok? ==> text.value == FirstBlock(r).text.value
    ensures HasContent(r) && FirstBlock(r).text.None? ==> text == Err(KeyErrorText("text"))
  {
    match r.output
    case None => Err(NoContentError)
    case Some(output) =>
      match output.message
      case None => Err(NoContentError)
      case Some(message) =>
        match message.content
        case None => Err(NoContentError)
        case Some(content) =>
          if content == [] then Err(NoContentError)
          else
            match content[0].text
            case None => Err(KeyErrorText("text"))
            case Some(t) => Ok(t)
  }

  /** A reply whose first block carries a text yields exactly that text, even
      when it is empty, and whatever blocks follow it. */
  lemma ValidateUnwrapsFirstText(t: string, more: seq<ContentBlock>)
    ensures ValidateResponse(InvokeResponse(Some(Output(Some(OutputMessage(Some([ContentBlock(Some(t))] + more))))))) == Ok(t)
  {
  }
}
