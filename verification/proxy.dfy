/** The active handler `lambda_handler` (lambda/index.py:31-129): it reads a
    chat message and an optional history from the event body, POSTs the
    message to the inference server, and wraps the generated text, or the
    text of whatever exception was raised, in an API Gateway response.

    JSON decoding and the HTTP exchange are not modelled: the event body
    arrives already decoded (or as the decoder's error text), and the outcome
    of the POST is an input. The request the handler would POST is an output,
    so "the server is not called" reads as `sent == None`. */
module Proxy {
  import opened Common

  /** The `conversationHistory` key of the body: absent, explicitly null, or
      a list of messages. */
  datatype HistoryField = Absent | Null | Items(messages: seq<Message>)

  /** The decoded request body; `message` is None when the key is missing. */
  datatype RequestBody = RequestBody(message: Option<string>, conversationHistory: HistoryField)

  /** The result of `json.loads(event['body'])`: an object, a JSON value that
      is not an object (`null`, a list, a string, a number), or the decoder's
      error. A non-object decodes without error, but `body['message']` then
      raises a `TypeError`, whose text is `typeError`. */
  datatype DecodedBody =
    | Decoded(body: RequestBody)
    | NotAnObject(typeError: string)
    | Undecodable(reason: string)

  /** The API Gateway event; `body` is None when the key is missing. */
  datatype Event = Event(body: Option<DecodedBody>)

  /** The JSON payload POSTed to the inference server. The float sampling
      parameters (temperature 0.7, top_p 0.9) are not modelled. */
  datatype GenerationRequest = GenerationRequest(prompt: string, maxNewTokens: int, doSample: bool)

  const MaxNewTokens: int := 100

  /** What the POST produced: a transport failure (`URLError`, `HTTPError`),
      a reply body that is not JSON, or a decoded reply whose
      `generated_text` key may be missing. */
  datatype Upstream =
    | TransportError(reason: string)
    | UndecodableReply(reason: string)
    | Reply(generatedText: Option<string>)

  /** The JSON body of the envelope, with the keys that may be absent. */
  datatype ResultBody = ResultBody(
    success: bool,
    response: Option<string>,
    conversationHistory: Option<seq<Message>>,
    error: Option<string>)

  datatype Envelope = Envelope(statusCode: int, headers: seq<(string, string)>, body: ResultBody)

  /** One invocation: the envelope returned, and the request POSTed, if any. */
  datatype Invocation = Invocation(envelope: Envelope, sent: Option<GenerationRequest>)

  /** The four headers of both envelopes, in the source's order. */
  const ResponseHeaders: seq<(string, string)> := [
    ("Content-Type", "application/json"),
    ("Access-Control-Allow-Origin", "*"),
    ("Access-Control-Allow-Headers", "Content-Type,X-Amz-Date,Authorization,X-Api-Key,X-Amz-Security-Token"),
    ("Access-Control-Allow-Methods", "OPTIONS,POST")
  ]

  function SuccessEnvelope(text: string, history: seq<Message>): Envelope {
    Envelope(200, ResponseHeaders, ResultBody(true, Some(text), Some(history), None))
  }

  function FailureEnvelope(error: string): Envelope {
    Envelope(500, ResponseHeaders, ResultBody(false, None, None, Some(error)))
  }

  /** The envelope invariant: a 200 carries `success: true`, the response and
      the history and no error; a 500 carries `success: false` and the error
      only; both carry the fixed headers. */
  predicate WellFormed(e: Envelope) {
    e.headers == ResponseHeaders &&
    ((e.statusCode == 200 && e.body.success && e.body.response.Some? &&
      e.body.conversationHistory.Some? && e.body.error.None?) ||
     (e.statusCode == 500 && !e.body.success && e.body.response.None? &&
      e.body.conversationHistory.None? && e.body.error.Some?))
  }

  /** The history the caller supplied, empty when the key is absent. */
  function CallerHistory(f: HistoryField): seq<Message> {
    if f.Items? then f.messages else []
  }

  /** The request is accepted (lines 36-43 raise nothing): the body is
      present and decodes, has a message, and its history is not null. */
  predicate Accepted(event: Event) {
    event.body.Some? && event.body.value.Decoded? &&
    event.body.value.body.message.Some? &&
    !event.body.value.body.conversationHistory.Null?
  }

  /** The model produced text: a reply whose `generated_text` is truthy. */
  predicate Generated(upstream: Upstream) {
    upstream.Reply? && upstream.generatedText.Some? && upstream.generatedText.value != ""
  }

  /** What one call of `lambda_handler` does, stated case by case: the
      exception raised first decides the failure envelope. */
  function Respond(event: Event, upstream: Upstream): (out: Invocation)
    ensures WellFormed(out.envelope)
    ensures out.sent.Some? <==> Accepted(event)
    ensures out.envelope.statusCode == 200 <==> Accepted(event) && Generated(upstream)
  {
    match event.body
    case None => Invocation(FailureEnvelope(KeyErrorText("body")), None)
    case Some(Undecodable(reason)) => Invocation(FailureEnvelope(reason), None)
    case Some(NotAnObject(typeError)) => Invocation(FailureEnvelope(typeError), None)
    case Some(Decoded(body)) =>
      if body.message.None? then
        Invocation(FailureEnvelope(KeyErrorText("message")), None)
      else if body.conversationHistory.Null? then
        Invocation(FailureEnvelope(NoneCopyError), None)
      else
        var message := body.message.value;
        var request := GenerationRequest(message, MaxNewTokens, true);
        var envelope :=
          match upstream
          case TransportError(reason) => FailureEnvelope(reason)
          case UndecodableReply(reason) => FailureEnvelope(reason)
          case Reply(text) =>
            if text.None? || text.value == "" then FailureEnvelope(NoContentError)
            else
              var history := CallerHistory(body.conversationHistory);
              SuccessEnvelope(text.value, history + [Message(UserRole, message), Message(AssistantRole, text.value)]);
        Invocation(envelope, Some(request))
  }

  /** `lambda_handler` as the source runs it: a copy of the caller's history
      grows by one user turn before the POST and one assistant turn after it;
      the first exception ends the run with a failure envelope. */
  method LambdaHandler(event: Event, upstream: Upstream) returns (envelope: Envelope, sent: Option<GenerationRequest>)
    ensures Invocation(envelope, sent) == Respond(event, upstream)
  {
    sent := None;
    if event.body.None? {
      return FailureEnvelope(KeyErrorText("body")), sent;
    }
    if event.body.value.Undecodable? {
      return FailureEnvelope(event.body.value.reason), sent;
    }
    if event.body.value.NotAnObject? {
      return FailureEnvelope(event.body.value.typeError), sent;
    }
    var body := event.body.value.body;
    if body.message.None? {
      return FailureEnvelope(KeyErrorText("message")), sent;
    }
    var message := body.message.value;
    var history: seq<Message>;
    match body.conversationHistory {
      case Absent => history := [];
      case Null => return FailureEnvelope(NoneCopyError), sent;
      case Items(h) => history := h;
    }

    var messages := history;
    messages := messages + [Message(UserRole, message)];

    var payload := GenerationRequest(message, MaxNewTokens, true);
    sent := Some(payload);

    var responseBody: Option<string>;
    match upstream {
      case TransportError(reason) => return FailureEnvelope(reason), sent;
      case UndecodableReply(reason) => return FailureEnvelope(reason), sent;
      case Reply(text) => responseBody := text;
    }
    if responseBody.None? || responseBody.value == "" {
      return FailureEnvelope(NoContentError), sent;
    }

    var assistantResponse := responseBody.value;
    messages := messages + [Message(AssistantRole, assistantResponse)];
    assert messages == history + [Message(UserRole, message), Message(AssistantRole, assistantResponse)];
    envelope := SuccessEnvelope(assistantResponse, messages);
  }

  /** On success the response is the generated text and the returned history
      is the caller's (empty when absent), then the user turn, then the
      assistant turn. */
  lemma SuccessExtendsHistory(body: RequestBody, text: string)
    requires body.message.Some? && !body.conversationHistory.Null?
    requires text != ""
    ensures var out := Respond(Event(Some(Decoded(body))), Reply(Some(text)));
      out.envelope.statusCode == 200 &&
      out.envelope.body.response == Some(text) &&
      out.envelope.body.conversationHistory ==
        Some(CallerHistory(body.conversationHistory) +
             [Message(UserRole, body.message.value), Message(AssistantRole, text)])
  {
  }

  /** The returned history keeps the caller's turns as a prefix and has
      exactly two more. */
  lemma SuccessHistoryPrefix(event: Event, upstream: Upstream)
    requires Respond(event, upstream).envelope.statusCode == 200
    ensures var h := Respond(event, upstream).envelope.body.conversationHistory.value;
      var caller := CallerHistory(event.body.value.body.conversationHistory);
      |h| == |caller| + 2 && h[.. |caller|] == caller &&
      h[|caller|].role == UserRole && h[|caller| + 1].role == AssistantRole
  {
  }

  /** Without a `message` key the handler fails with the KeyError text, sends
      nothing, and its result does not depend on the server at all. */
  lemma MissingMessageFails(history: HistoryField, u1: Upstream, u2: Upstream)
    ensures var event := Event(Some(Decoded(RequestBody(None, history))));
      var out := Respond(event, u1);
      out == Respond(event, u2) &&
      out.sent.None? &&
      out.envelope == FailureEnvelope("'message'")
  {
    assert KeyErrorText("message") == "'message'";
  }

  /** Any rejected request fails with status 500 before anything is sent,
      whatever the server would have answered. The error is non-empty except
      where it is the text of a library exception (the decoder's error, or
      the TypeError of a non-object body), which the model takes as given. */
  lemma RejectedIgnoresUpstream(event: Event, u1: Upstream, u2: Upstream)
    requires !Accepted(event)
    ensures Respond(event, u1) == Respond(event, u2)
    ensures Respond(event, u1).envelope.statusCode == 500
    ensures (event.body.Some? && event.body.value.Undecodable?) ||
            (event.body.Some? && event.body.value.NotAnObject?) ||
            |Respond(event, u1).envelope.body.error.value| > 0
  {
  }

  /** A missing or empty `generated_text` is reported as
      "No response content from the model". */
  lemma EmptyGenerationFails(event: Event, text: Option<string>)
    requires Accepted(event)
    requires text.None? || text.value == ""
    ensures Respond(event, Reply(text)).envelope == FailureEnvelope(NoContentError)
  {
  }

  /** A transport or reply-decoding failure yields its own error text, and
      never a partial success. */
  lemma UpstreamFailurePropagates(event: Event, upstream: Upstream)
    requires Accepted(event)
    requires upstream.TransportError? || upstream.UndecodableReply?
    ensures Respond(event, upstream).envelope == FailureEnvelope(upstream.reason)
  {
  }

  /** The prompt is the message alone: the history never reaches the server,
      and the fixed sampling settings are always used. */
  lemma PromptIsMessage(m: string, h1: HistoryField, h2: HistoryField, u1: Upstream, u2: Upstream)
    requires !h1.Null? && !h2.Null?
    ensures Respond(Event(Some(Decoded(RequestBody(Some(m), h1)))), u1).sent ==
            Respond(Event(Some(Decoded(RequestBody(Some(m), h2)))), u2).sent ==
            Some(GenerationRequest(m, 100, true))
  {
  }

  /** A body that decodes to a non-object fails at `body['message']` with the
      TypeError's text, before anything is sent. */
  lemma NonObjectBodyFails(typeError: string, u: Upstream)
    ensures var out := Respond(Event(Some(NotAnObject(typeError))), u);
      out.sent.None? && out.envelope == FailureEnvelope(typeError)
  {
  }

  /** The first exchange of a new conversation. */
  lemma FirstExchange()
    ensures Respond(Event(Some(Decoded(RequestBody(Some("hi"), Items([]))))), Reply(Some("hello!"))).envelope ==
            Envelope(200, ResponseHeaders, ResultBody(true, Some("hello!"),
              Some([Message("user", "hi"), Message("assistant", "hello!")]), None))
  {
    var turns := [Message(UserRole, "hi"), Message(AssistantRole, "hello!")];
    assert CallerHistory(Items([])) + turns == turns;
  }
}
