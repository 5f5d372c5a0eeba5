# simplechat Lambda proxy: a Dafny model

This project models `lambda/index.py` of the simplechat repository. The file
is an AWS Lambda function that sits behind API Gateway. Its active handler,
`lambda_handler`, works in four steps:

- It reads a chat `message` and an optional `conversationHistory` from the
  event body.
- It POSTs the message as the prompt to a FastAPI inference server.
- It checks the reply's `generated_text`.
- It returns an API Gateway response. A success is status 200 with the
  generated text and the extended history. A failure is status 500 with the
  text of the exception.

A second handler, `lambda_handler1`, calls Amazon Bedrock directly. It is
dormant. This model covers two self-contained steps of it: converting the
history into Bedrock's message shape, and unwrapping Bedrock's reply. The same
file also holds `extract_region_from_arn`, which finds the region field of a
Lambda function ARN.

The model has four modules:

- `Common` (common.dfy): the `Option` and `Result` types, the chat `Message`,
  the role names, and the error texts the handlers report. `KeyErrorText` only defines
  Python's text for a `KeyError` on the keys the handlers use: the key in
  single quotes.
- `Arn` (arn.dfy): `extract_region_from_arn`. `IsMatch` states what a match
  of `arn:aws:lambda:([^:]+):` at a given position is. `MatchAt` computes the
  match at one position with a greedy run. `Search` scans start positions
  from left to right. The lemmas show that when something matches, the
  result is the group of the unique leftmost match, which may itself be
  `us-east-1`. When nothing matches, the default `us-east-1` is returned.
- `Proxy` (proxy.dfy): `lambda_handler`. `Respond` states the handler's
  outcome case by case: which exception is raised first, and hence which
  envelope comes back. It also states whether the request to the inference
  server is sent. `LambdaHandler` is the imperative version: it copies the
  history, appends the user turn, sends, checks the reply, and appends the
  assistant turn. It is proved equal to `Respond`. The lemmas state the
  history shape, the envelope invariant, the failure cases, and that the
  prompt is the message alone.
- `Bedrock` (bedrock.dfy): the conversion loop of `lambda_handler1`, as the
  method `ConvertHistory`, proved against the function `ToBedrock`. It also
  holds the reply validation `ValidateResponse`.

Inputs that stand for things outside the model:

- The event body arrives already decoded by `json.loads` (`DecodedBody`).
  It is an object, a JSON value that is not an object, or the decoder's
  error text. A non-object decodes without error, but `body['message']` at
  lambda/index.py:37 then raises a `TypeError`. Its text is given with the
  case.
- The HTTP exchange with the inference server is an input (`Upstream`): a
  transport error with its text, a reply that is not JSON, or a decoded
  reply whose `generated_text` may be missing.
- The request the handler would POST is an output (`Invocation.sent`). So
  "the server is not called" means `sent == None`.

The caller's history is a Dafny sequence, which is a value. The copy at
lambda/index.py:43 is what makes the Python code behave this way: the
caller's list is never changed.

Two choices follow the code directly:

- Roles are free strings. The code never checks them in `lambda_handler`.
  In `lambda_handler1` it compares them with `"user"` and `"assistant"` and
  drops every other role (lambda/index.py:177-186).
- An explicit `null` history is a failure. `body.get('conversationHistory', [])`
  returns None for it, and `None.copy()` at lambda/index.py:43 raises before
  the server is called.

## Model

| member | source | states |
|---|---|---|
| Arn.RunEnd | lambda/index.py:13 | the greedy `[^:]+` stops at the first colon at or after the start, or at the end of the text |
| Arn.MatchedRunIsMaximal | lambda/index.py:13 | any group that matches at a position is exactly the maximal colon-free run after the prefix, and a colon follows it |
| Arn.MatchAt | lambda/index.py:13 | at one start position, the computed match is `Some(r)` if and only if the expression matches there with group `r` |
| Arn.Search | lambda/index.py:13-14 | the scan returns a match with no match at any earlier position, or reports that no position at or after the start matches |
| Arn.ExtractRegionFromArn | lambda/index.py:11-16 | the result is non-empty and colon-free; it is the group of a leftmost match when one exists, and exactly "us-east-1" when none exists |
| Arn.LeftmostMatchUnique | lambda/index.py:13-15 | two leftmost matches have the same position and the same group, so the returned region is determined by the input |
| Arn.RegionOfLambdaArn | lambda/index.py:11-15 | an ARN that starts with `arn:aws:lambda:<region>:` yields that region, whatever follows |
| Arn.DefaultWhenPrefixAbsent | lambda/index.py:16 | when `arn:aws:lambda:` occurs nowhere in the input, the result is "us-east-1" |
| Proxy.Respond | lambda/index.py:31-129 | every envelope is well formed: 200 with success, response and history and no error, or 500 with failure and error only, both with the four fixed headers; a request is sent if and only if the body is present, decodes, has a message and a non-null history; the status is 200 if and only if the request is accepted and the reply's `generated_text` is non-empty |
| Proxy.LambdaHandler | lambda/index.py:34-105 | copying the history, appending the user turn, sending the payload, checking `generated_text` and appending the assistant turn step by step gives exactly the envelope and request `Respond` states |
| Proxy.SuccessExtendsHistory | lambda/index.py:38-104 | on success the response is the generated text, and the history is the caller's history (empty when absent), then `{user, message}`, then `{assistant, text}` |
| Proxy.SuccessHistoryPrefix | lambda/index.py:43-89 | a successful history keeps the caller's turns unchanged as its prefix and adds exactly one user turn and then one assistant turn |
| Proxy.MissingMessageFails | lambda/index.py:37-129 | without `message`, the result is the 500 envelope with error `'message'`, nothing is sent, and the result is the same whatever the server would answer |
| Proxy.RejectedIgnoresUpstream | lambda/index.py:36-43 | a request rejected before the POST gives status 500 whatever the server would answer; its error is non-empty unless it is the text of the decoder's error or of a non-object body's TypeError |
| Proxy.EmptyGenerationFails | lambda/index.py:79-80 | an accepted request whose reply lacks `generated_text` or has it empty gives the 500 envelope with "No response content from the model" |
| Proxy.UpstreamFailurePropagates | lambda/index.py:74-76 | a transport failure or an undecodable reply gives the 500 envelope carrying that failure's text, never a partial success |
| Proxy.PromptIsMessage | lambda/index.py:52-58 | the request sent is `{prompt: message, max_new_tokens: 100, do_sample: true}`, whatever the history and the server's reply |
| Proxy.NonObjectBodyFails | lambda/index.py:36-37 | a body that decodes to a non-object gives the 500 envelope carrying the TypeError's text, and nothing is sent |
| Proxy.FirstExchange | lambda/index.py:31-105 | the message "hi" with an empty history and the reply "hello!" give 200 with response "hello!" and history `[user: hi, assistant: hello!]` |
| Bedrock.ToBedrock | lambda/index.py:175-186 | the converted list is no longer than the history, and each entry has role user or assistant and exactly one text block |
| Bedrock.ConvertHistory | lambda/index.py:175-186 | the appending loop produces exactly `ToBedrock` of the messages |
| Bedrock.ToBedrockConcat | lambda/index.py:175-186 | converting a concatenation converts each part in order |
| Bedrock.OtherRoleDropped | lambda/index.py:176-186 | a message with any role other than user or assistant contributes nothing, wherever it stands |
| Bedrock.ToBedrockPointwise | lambda/index.py:176-186 | on a history of user and assistant turns, entry k of the result is message k with its role kept and its content wrapped as `[{text}]` |
| Bedrock.ConversionRoundTrip | lambda/index.py:178-186 | reading `content[0].text` back from the converted list gives the user/assistant history again |
| Bedrock.ConversationEndsWithUserTurn | lambda/index.py:165-186 | the converted list for the history plus the new user turn is the history's conversion followed by `{user, [{text: message}]}` |
| Bedrock.ValidateResponse | lambda/index.py:213-217 | "No response content from the model" exactly when `output`, `output.message` or `output.message.content` is missing or empty; otherwise `content[0].text` when present, and the KeyError text `'text'` when not |
| Bedrock.ValidateUnwrapsFirstText | lambda/index.py:213-217 | a reply whose first block carries a text yields that text, even an empty one, whatever blocks follow |

## Left out

- The HTTP POST through `urllib.request` and `urlopen` (lambda/index.py:66-76) is network I/O. Its outcome is the input `Upstream`. The request headers, including the unused `Accept` dictionary at lines 61-64, are not modelled.
- Proxy.Respond: assumes the POST at line 74 completes with a reply or an error. `urlopen` is called with no timeout, so a stalled server blocks the invocation until the platform ends it, and no envelope is returned. That case is not modelled.
- JSON encoding and decoding (`json.loads`, `json.dumps`) is library serialisation. Bodies are typed records with optional fields, and the envelope body is a datatype rather than a JSON string.
- Values of unexpected JSON types inside the body are not modelled. This covers a non-string `message`, a history that is neither a list nor null, a reply that is not an object, a truthy non-string `generated_text`, and Bedrock reply levels of the wrong type. In Python these raise an exception or pass non-string values through. The exception depends on the value: `TypeError`, `AttributeError`, or, for example, `KeyError: 0` when `output.message.content` is a non-empty object indexed at line 217.
- History items are typed as a role and a content, so items with missing or extra keys are not modelled. `lambda_handler` copies any items as they are, extra keys included (lines 43, 103). In `lambda_handler1`, an item with no `role` raises `KeyError('role')` (line 177), and a user or assistant item with no `content` raises `KeyError('content')` (lines 180, 185). An item with another role and no `content` is dropped without error.
- The float sampling parameters `temperature` 0.7 and `top_p` 0.9 (lines 56-57, 194-195) are floating-point constants and are not part of `GenerationRequest`.
- The Bedrock request's `inferenceConfig` (lines 189-197) is left out. It is only constants around the converted messages.
- The boto3 client, its lazy global initialisation and `invoke_model` (lines 19, 142-146, 202-206) are a foreign SDK and mutable global state.
- `FAST_API_URL` and the environment read (line 27) are configuration only.
- `print` logging and the Cognito claims lookup (lines 40, 116, 148-154, 199, 210) are left out. The claims are only printed.
- The exact text of transport and decoding errors is not modelled. It is whatever the library's exception prints, so it is taken as given text.
- The end-to-end `lambda_handler1` is not modelled. `MODEL_ID` is commented out at line 24, so line 162 raises `NameError` on every call that gets that far. The handler therefore always returns 500. Only its conversion step and its reply validation are modelled.
- Proxy.RejectedIgnoresUpstream: it does not claim a non-empty error for an undecodable body or a non-object body, because those texts come from library exceptions that are not modelled.
