/** Values shared by both handlers of lambda/index.py: optional values, the
    outcome of a step that may raise, chat messages and the error texts the
    handlers put into their failure envelopes. */
module Common {

  datatype Option<+T> = None | Some(value: T)

  /** The outcome of a step that may raise a Python exception; `error` is the
      text `str(error)` the handlers report. */
  datatype Result<+T> = Ok(value: T) | Err(error: string)

  /** One turn of a conversation, as the caller sends it and as the handlers
      return it: a role tag ("user", "assistant", or anything else the caller
      chose) and the text. */
  datatype Message = Message(role: string, content: string)

  const UserRole: string := "user"
  const AssistantRole: string := "assistant"

  /** The one error the handlers raise themselves. */
  const NoContentError: string := "No response content from the model"

  /** `str(KeyError(key))` in Python for the keys the handlers look up
      ("body", "message", "text"): the key's repr, in single quotes. Keys
      holding quotes, backslashes or non-printable characters are repr'd
      differently and are excluded. */
  function KeyErrorText(key: string): (text: string)
    requires '\'' !in key && '"' !in key && '\\' !in key
    requires forall c :: c in key ==> ' ' <= c <= '~'
  {
    "'" + key + "'"
  }

  /** The text of the AttributeError raised by calling `.copy()` on None. */
  const NoneCopyError: string := "'NoneType' object has no attribute 'copy'"
}
