/** The message-exchange transaction of `textMessageController` and
    `imageMessageController`, as functions from the stored state before a
    request to the stored state after it and the JSON result.

    The external collaborators are inputs: the text provider is a function
    from the history it is sent to its outcome, the image pipeline (the
    ImageKit generation fetch followed by the upload) a function from the
    prompt to the uploaded URL or an error, and `chat.save()` and the `$inc`
    update each either complete or throw. */
module Exchange {
  import opened Types
  import opened History

  /** The stored collections: each user's credit balance and each chat's
      messages, keyed by owner and chat id. */
  datatype State = State(credits: map<UserId, int>, chats: map<ChatKey, seq<Turn>>)

  /** The state after one request and the result sent back. */
  datatype Step = Step(state: State, response: Response)

  predicate NonNegative(s: State) {
    forall u :: u in s.credits ==> s.credits[u] >= 0
  }

  /** Every chat of `a` is still present in `b` and its messages in `a` are a
      prefix of those in `b`: chats only grow at their end. */
  predicate Extends(a: map<ChatKey, seq<Turn>>, b: map<ChatKey, seq<Turn>>) {
    forall k :: k in a ==> k in b && a[k] <= b[k]
  }

  /** `s` with `turns` appended to the chat at `key`. */
  function Appended(s: State, key: ChatKey, turns: seq<Turn>): State
    requires key in s.chats
  {
    s.(chats := s.chats[key := s.chats[key] + turns])
  }

  /** `s` with `cost` taken off the balance of `u`. */
  function Debited(s: State, u: UserId, cost: int): State
    requires u in s.credits
  {
    s.(credits := s.credits[u := s.credits[u] - cost])
  }

  /** The history the text provider receives: the stored chat with the new
      user turn pushed, projected to role and content. */
  function TextHistory(s: State, key: ChatKey, prompt: string): seq<Message>
    requires key in s.chats
  {
    Project(s.chats[key] + [UserTurn(prompt)])
  }

  /** The tail both controllers share once a reply exists: the staged chat
      (the stored one with the user turn and the reply pushed) is saved, then
      the cost is taken off the balance, then the reply is sent. A throwing
      save leaves everything as it was; a throwing debit comes after the
      save, so the chat is saved and the balance is not touched. */
  function Commit(s: State, u: UserId, key: ChatKey, userTurn: Turn, reply: Turn,
                  cost: int, save: Fault, debit: Fault): (r: Step)
    requires u in s.credits && key in s.chats
    // The reply is sent exactly when both the save and the debit complete.
    ensures r.response.Success? <==> save == Completes && debit == Completes
    ensures r.response.Success? ==> r.response.reply == reply
    // A failure carries the message of the first call that threw.
    ensures r.response.Failure? ==>
              r.response.message == (if save.Throws? then save.message else debit.message)
    // The chat is stored with both turns exactly when the save completed,
    // whatever the debit then does.
    ensures r.state.chats == (if save == Completes then Appended(s, key, [userTurn, reply]).chats else s.chats)
    // The balance of `u` drops by the cost on success; nothing else in the
    // ledger changes.
    ensures r.state.credits == (if r.response.Success? then s.credits[u := s.credits[u] - cost] else s.credits)
  {
    match save
    case Throws(m) => Step(s, Failure(m))
    case Completes =>
      var saved := Appended(s, key, [userTurn, reply]);
      match debit
      case Throws(m) => Step(saved, Failure(m))
      case Completes => Step(Debited(saved, u, cost), Success(reply))
  }

  /** `textMessageController`: credit gate of 1, chat lookup, push the user
      turn, ask the provider with the whole chat, push the reply, save,
      debit 1. */
  function TextMessage(s: State, u: UserId, chatId: ChatId, prompt: string,
                       complete: seq<Message> -> Outcome, save: Fault, debit: Fault): (r: Step)
    requires u in s.credits
    // The credit gate comes first: no lookup, no change.
    ensures s.credits[u] < TextCost ==> r == Step(s, Failure(NotEnoughCredits))
    // A chat that is not found for this owner fails with no side effect.
    ensures s.credits[u] >= TextCost && (u, chatId) !in s.chats ==> r == Step(s, Failure(NullChat))
    // A provider error is returned as is, with no save and no debit.
    ensures s.credits[u] >= TextCost && (u, chatId) in s.chats
            && complete(TextHistory(s, (u, chatId), prompt)).Fail?
            ==> r == Step(s, Failure(complete(TextHistory(s, (u, chatId), prompt)).message))
    // A save that throws is answered with its message; nothing is stored
    // and the debit is never reached.
    ensures s.credits[u] >= TextCost && (u, chatId) in s.chats
            && complete(TextHistory(s, (u, chatId), prompt)).Ok? && save.Throws?
            ==> r == Step(s, Failure(save.message))
    // A debit that throws after a completed save is answered with its
    // message; the two turns stay stored and the balance is not touched.
    ensures s.credits[u] >= TextCost && (u, chatId) in s.chats
            && complete(TextHistory(s, (u, chatId), prompt)).Ok? && save == Completes && debit.Throws?
            ==> r == Step(Appended(s, (u, chatId),
                            [UserTurn(prompt), TextReply(complete(TextHistory(s, (u, chatId), prompt)).value)]),
                          Failure(debit.message))
    // Success exactly when every step went through.
    ensures r.response.Success? <==>
              s.credits[u] >= TextCost && (u, chatId) in s.chats
              && complete(TextHistory(s, (u, chatId), prompt)).Ok?
              && save == Completes && debit == Completes
    // On success the reply is the completion of the whole chat plus the
    // prompt, two turns were appended (user, then assistant) and one credit
    // was taken.
    ensures r.response.Success? ==>
              (u, chatId) in s.chats
              && r.response.reply == TextReply(complete(TextHistory(s, (u, chatId), prompt)).value)
              && r.state == Debited(Appended(s, (u, chatId), [UserTurn(prompt), r.response.reply]), u, TextCost)
    // A failure leaves everything unchanged, except when the debit threw
    // after the save: then the two turns are stored and the balance is not.
    ensures r.response.Failure? ==>
              r.state == s
              || (save == Completes && debit.Throws? && r.response.message == debit.message
                  && (u, chatId) in s.chats
                  && complete(TextHistory(s, (u, chatId), prompt)).Ok?
                  && r.state == Appended(s, (u, chatId),
                       [UserTurn(prompt), TextReply(complete(TextHistory(s, (u, chatId), prompt)).value)]))
    // Balances: the requester loses exactly the cost on success, every
    // other balance stays.
    ensures r.state.credits.Keys == s.credits.Keys
    ensures forall v :: v in s.credits ==>
              r.state.credits[v] == s.credits[v] - (if v == u && r.response.Success? then TextCost else 0)
    ensures NonNegative(s) ==> NonNegative(r.state)
    ensures r.state.chats.Keys == s.chats.Keys && Extends(s.chats, r.state.chats)
  {
    if s.credits[u] < TextCost then Step(s, Failure(NotEnoughCredits))
    else if (u, chatId) !in s.chats then Step(s, Failure(NullChat))
    else
      match complete(TextHistory(s, (u, chatId), prompt))
      case Fail(m) => Step(s, Failure(m))
      case Ok(text) => Commit(s, u, (u, chatId), UserTurn(prompt), TextReply(text), TextCost, save, debit)
  }

  /** `imageMessageController`: credit gate of 2, chat lookup, push the user
      turn, generate and upload the image, push an image reply carrying the
      URL and the request's publish flag, save, debit 2. */
  function ImageMessage(s: State, u: UserId, chatId: ChatId, prompt: string, isPublished: Option<bool>,
                        synthesize: string -> Outcome, save: Fault, debit: Fault): (r: Step)
    requires u in s.credits
    ensures s.credits[u] < ImageCost ==> r == Step(s, Failure(NotEnoughCredits))
    ensures s.credits[u] >= ImageCost && (u, chatId) !in s.chats ==> r == Step(s, Failure(NullChat))
    // A failed generation fetch or upload is returned as is, with no save
    // and no debit.
    ensures s.credits[u] >= ImageCost && (u, chatId) in s.chats && synthesize(prompt).Fail?
            ==> r == Step(s, Failure(synthesize(prompt).message))
    // A save that throws is answered with its message; nothing is stored
    // and the debit is never reached.
    ensures s.credits[u] >= ImageCost && (u, chatId) in s.chats && synthesize(prompt).Ok? && save.Throws?
            ==> r == Step(s, Failure(save.message))
    // A debit that throws after a completed save is answered with its
    // message; the two turns stay stored and the balance is not touched.
    ensures s.credits[u] >= ImageCost && (u, chatId) in s.chats && synthesize(prompt).Ok?
            && save == Completes && debit.Throws?
            ==> r == Step(Appended(s, (u, chatId), [UserTurn(prompt), ImageReply(synthesize(prompt).value, isPublished)]),
                          Failure(debit.message))
    ensures r.response.Success? <==>
              s.credits[u] >= ImageCost && (u, chatId) in s.chats && synthesize(prompt).Ok?
              && save == Completes && debit == Completes
    // On success the reply is an assistant image turn holding the uploaded
    // URL and the request's publish flag; two turns were appended and two
    // credits taken.
    ensures r.response.Success? ==>
              (u, chatId) in s.chats
              && r.response.reply == ImageReply(synthesize(prompt).value, isPublished)
              && r.state == Debited(Appended(s, (u, chatId), [UserTurn(prompt), r.response.reply]), u, ImageCost)
    ensures r.response.Failure? ==>
              r.state == s
              || (save == Completes && debit.Throws? && r.response.message == debit.message
                  && (u, chatId) in s.chats && synthesize(prompt).Ok?
                  && r.state == Appended(s, (u, chatId),
                       [UserTurn(prompt), ImageReply(synthesize(prompt).value, isPublished)]))
    ensures r.state.credits.Keys == s.credits.Keys
    ensures forall v :: v in s.credits ==>
              r.state.credits[v] == s.credits[v] - (if v == u && r.response.Success? then ImageCost else 0)
    ensures NonNegative(s) ==> NonNegative(r.state)
    ensures r.state.chats.Keys == s.chats.Keys && Extends(s.chats, r.state.chats)
  {
    if s.credits[u] < ImageCost then Step(s, Failure(NotEnoughCredits))
    else if (u, chatId) !in s.chats then Step(s, Failure(NullChat))
    else
      match synthesize(prompt)
      case Fail(m) => Step(s, Failure(m))
      case Ok(url) => Commit(s, u, (u, chatId), UserTurn(prompt), ImageReply(url, isPublished), ImageCost, save, debit)
  }
}
