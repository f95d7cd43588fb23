/** The two controllers as they run: step by step over the stored users and
    chats, which they change in place. Each method is proved to have exactly
    the effect and the result given by the matching function of `Exchange`,
    and to keep every balance non-negative. */
module Controller {
  import opened Types
  import opened History
  import opened Exchange

  /** The persistent collections the controllers read and update: the
      `credits` field of every user and the `messages` of every chat. */
  class Database {
    var credits: map<UserId, int>
    var chats: map<ChatKey, seq<Turn>>

    function Snapshot(): State
      reads this
    {
      State(credits, chats)
    }

    ghost predicate Valid()
      reads this
    {
      NonNegative(Snapshot())
    }

    constructor (credits0: map<UserId, int>, chats0: map<ChatKey, seq<Turn>>)
      requires NonNegative(State(credits0, chats0))
      ensures Valid() && Snapshot() == State(credits0, chats0)
    {
      credits := credits0;
      chats := chats0;
    }

    /** `textMessageController` for the authenticated user `u`. */
    method TextMessage(u: UserId, chatId: ChatId, prompt: string,
                       complete: seq<Message> -> Outcome, save: Fault, debit: Fault)
      returns (res: Response)
      requires Valid() && u in credits
      modifies this
      ensures Valid()
      ensures Step(Snapshot(), res) == Exchange.TextMessage(old(Snapshot()), u, chatId, prompt, complete, save, debit)
    {
      if credits[u] < TextCost {
        return Failure(NotEnoughCredits);
      }
      var key := (u, chatId);
      if key !in chats {
        // `Chat.findOne` found nothing: `chat.messages` on null throws.
        return Failure(NullChat);
      }
      // The loaded document, changed in memory until it is saved.
      var messages := chats[key];
      messages := messages + [UserTurn(prompt)];
      var history := Project(messages);
      var completion := complete(history);
      if completion.Fail? {
        return Failure(completion.message);
      }
      var reply := TextReply(completion.value);
      messages := messages + [reply];
      assert messages == chats[key] + [UserTurn(prompt), reply];
      if save.Throws? {
        return Failure(save.message);
      }
      chats := chats[key := messages];
      if debit.Throws? {
        return Failure(debit.message);
      }
      credits := credits[u := credits[u] - TextCost];
      res := Success(reply);
    }

    /** `imageMessageController` for the authenticated user `u`. */
    method ImageMessage(u: UserId, chatId: ChatId, prompt: string, isPublished: Option<bool>,
                        synthesize: string -> Outcome, save: Fault, debit: Fault)
      returns (res: Response)
      requires Valid() && u in credits
      modifies this
      ensures Valid()
      ensures Step(Snapshot(), res) == Exchange.ImageMessage(old(Snapshot()), u, chatId, prompt, isPublished, synthesize, save, debit)
    {
      if credits[u] < ImageCost {
        return Failure(NotEnoughCredits);
      }
      var key := (u, chatId);
      if key !in chats {
        return Failure(NullChat);
      }
      var messages := chats[key];
      messages := messages + [UserTurn(prompt)];
      // Generation fetch and upload, as one call that yields the asset URL.
      var upload := synthesize(prompt);
      if upload.Fail? {
        return Failure(upload.message);
      }
      var reply := ImageReply(upload.value, isPublished);
      messages := messages + [reply];
      assert messages == chats[key] + [UserTurn(prompt), reply];
      if save.Throws? {
        return Failure(save.message);
      }
      chats := chats[key := messages];
      if debit.Throws? {
        return Failure(debit.message);
      }
      credits := credits[u := credits[u] - ImageCost];
      res := Success(reply);
    }
  }
}
