/** Values exchanged by the message controllers: chat turns, the projection
    sent to the text provider, outcomes of external collaborators and the
    JSON result returned to the client. */
module Types {

  type UserId = string
  type ChatId = string

  /** A chat document is identified by its owner and its own id: the lookup
      is `Chat.findOne({userId, _id: chatId})`. */
  type ChatKey = (UserId, ChatId)

  datatype Option<+T> = None | Some(value: T)

  datatype Role = User | Assistant

  /** One stored message of a chat. The creation timestamp is not modelled. */
  datatype Turn = Turn(role: Role, content: string, isImage: bool, isPublished: Option<bool>)

  /** What the text provider receives for each stored turn. */
  datatype Message = Message(role: Role, content: string)

  /** The result of a call into an external generator: the completion text
      (or the uploaded image URL), or the message of the error it threw. */
  datatype Outcome = Ok(value: string) | Fail(message: string)

  /** Whether a persistence call (`chat.save()`, `User.updateOne`) returns
      normally or throws. */
  datatype Fault = Completes | Throws(message: string)

  /** The JSON body sent back: `{success: true, reply}` or
      `{success: false, message}`. */
  datatype Response = Success(reply: Turn) | Failure(message: string)

  const NotEnoughCredits := "You don't have enough credits to use this feature"

  /** Message of the TypeError raised by `chat.messages` when `findOne`
      returned null. */
  const NullChat := "Cannot read properties of null (reading 'messages')"

  const TextCost := 1
  const ImageCost := 2

  /** The turn pushed for the user's prompt, in both controllers. */
  function UserTurn(prompt: string): Turn
  {
    Turn(User, prompt, false, None)
  }

  /** The assistant turn built from a text completion. */
  function TextReply(text: string): Turn
  {
    Turn(Assistant, text, false, None)
  }

  /** The assistant turn built from an uploaded image URL. */
  function ImageReply(url: string, isPublished: Option<bool>): Turn
  {
    Turn(Assistant, url, true, isPublished)
  }
}
