/** The history sent to the text provider: every stored turn of the chat,
    in stored order, reduced to its role and content. */
module History {
  import opened Types

  /** `chat.messages.map(msg => ({role: msg.role, content: msg.content}))` */
  function Project(turns: seq<Turn>): (h: seq<Message>)
    ensures |h| == |turns|
    ensures forall i :: 0 <= i < |turns| ==> h[i] == Message(turns[i].role, turns[i].content)
  {
    if turns == [] then []
    else [Message(turns[0].role, turns[0].content)] + Project(turns[1..])
  }

  /** Projecting a chat extended by some turns extends its projection by the
      projection of those turns: nothing before the new turns is reordered,
      dropped or altered. */
  lemma ProjectAppend(a: seq<Turn>, b: seq<Turn>)
    ensures Project(a + b) == Project(a) + Project(b)
  {
  }

  /** The projection is not windowed: a chat of any length is sent whole, so
      the request grows with the chat (a chat of 50 turns plus the new prompt
      sends 51 messages). */
  lemma HistoryIsWholeChat(chat: seq<Turn>, prompt: string)
    ensures Project(chat + [UserTurn(prompt)]) == Project(chat) + [Message(User, prompt)]
    ensures |Project(chat + [UserTurn(prompt)])| == |chat| + 1
  {
  }
}
