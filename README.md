# QuickGPT message exchange, modelled in Dafny

QuickGPT lets a signed-in user chat with an AI assistant and ask it for
images, paying with a prepaid credit balance. This project models the two
request handlers that carry out one exchange, `textMessageController` and
`imageMessageController` in `server/controllers/messageController.js`, and
proves what they do to the stored credits and chats.

Each handler runs the same steps:

1. refuse with "You don't have enough credits to use this feature" when the
   user holds fewer credits than the cost (1 for text, 2 for an image);
2. look up the chat with that id owned by that user;
3. push the user's turn onto the loaded chat, in memory;
4. ask an external generator for a reply: a text completion of the whole
   chat, or an image generated from the prompt and uploaded to the asset
   store;
5. push the reply (an assistant turn; for an image, `isImage` is true and
   `isPublished` is copied from the request);
6. save the chat;
7. take the cost off the user's balance;
8. answer `{success: true, reply}`.

Any exception along the way is answered with `{success: false, message}`.

Files:

- `types.dfy` (module `Types`): turns, the messages sent to the text
  provider, collaborator outcomes, the JSON result, the two error messages
  and the two costs.
- `history.dfy` (module `History`): the projection of a chat to the
  `{role, content}` list sent to the text provider.
- `exchange.dfy` (module `Exchange`): each handler as a function from the
  stored state (`credits` by user, `chats` by owner and chat id) to the new
  state and the result. Their contracts state the properties of one
  exchange.
- `controller.dfy` (module `Controller`): class `Database`, holding the two
  collections as fields. Its methods `TextMessage` and `ImageMessage` run
  the handlers step by step, updating the fields in place. Each is proved to
  match the function of `Exchange` and to keep every balance non-negative.
- `runs.dfy` (module `Runs`): requests served one after another. It proves
  what a whole run does to balances and chats.

The collaborators the handlers call are inputs of the model:

- the text provider is a function from the history it receives to `Ok(text)`
  or `Fail(message)`;
- the image pipeline (generation fetch, then upload) is a function from the
  prompt to `Ok(url)` or `Fail(message)`;
- `chat.save()` and the `$inc` update each either complete or throw with a
  message.

Behaviours of the handlers worth knowing:

- The text provider is sent every stored turn of the chat followed by the
  new prompt, however long the chat is (`History.HistoryIsWholeChat`).
- The credit check comes before the chat lookup. A request for a missing
  chat by a user without credits is answered "not enough credits".
- The chat lookup result is not tested: when no chat matches, `chat.messages`
  on `null` throws a TypeError, and the handler answers with that error's
  message.
- Every failure after the credit check is answered with the message of the
  error that was thrown, whatever its cause.
- If the debit throws after a successful save, the answer is a failure, but
  the two turns are stored and the balance is unchanged.

## Model

| member | source | states |
|---|---|---|
| History.Project | server/controllers/messageController.js:29-33 | the history has one entry per stored turn, in stored order, each holding that turn's role and content |
| History.ProjectAppend | server/controllers/messageController.js:27-33 | projecting a chat extended by new turns gives the old projection followed by the projection of the new turns |
| History.HistoryIsWholeChat | server/controllers/messageController.js:29-39 | the text provider receives every stored turn followed by the new prompt: a chat of n turns is sent as n + 1 messages, with no window |
| Exchange.Commit | server/controllers/messageController.js:47-54 | the reply is sent exactly when both the save and the debit complete. A failure carries the message of the first call that threw. The chat is stored with the user turn and the reply exactly when the save completed. The requester's balance drops by exactly the cost on success, and nothing else in the ledger changes |
| Exchange.TextMessage | server/controllers/messageController.js:8-58 | with fewer than 1 credit: "not enough credits" and no change. Missing chat: the null-chat error and no change. Provider error: its message and no change. Save throws: its message and no change. Success exactly when every step succeeds. On success: the reply is the completion of the whole chat plus the prompt, the chat gains the user turn then the reply, and the balance drops by exactly 1. A failure changes nothing, except a debit that throws after a completed save: then the two turns are stored and the balance is not touched. No other balance changes, balances stay non-negative, and chats only grow |
| Exchange.ImageMessage | server/controllers/messageController.js:61-114 | the same for images, with cost 2: a failed generation or upload returns its message and changes nothing, and so does a save that throws. A debit that throws after a completed save returns its message with the two turns stored and the balance untouched. On success, the reply is an assistant image turn holding the uploaded URL and the request's `isPublished`, and the balance drops by exactly 2 |
| Controller.Database.TextMessage | server/controllers/messageController.js:8-58 | running the text handler step by step on the stored collections gives exactly the state and the answer of `Exchange.TextMessage`, and keeps every balance non-negative |
| Controller.Database.ImageMessage | server/controllers/messageController.js:61-114 | running the image handler step by step gives exactly the state and the answer of `Exchange.ImageMessage`, and keeps every balance non-negative |
| Runs.SuccessAppendsTwoTurns | server/controllers/messageController.js:20-109 | after a successful exchange of either kind, the chat is the old chat followed by exactly two turns: the prompt as a non-image user turn, then the reply as an assistant turn that is an image exactly for image requests |
| Runs.RunCharges | server/controllers/messageController.js:12-109 | after any sequence of requests, each balance is its starting value minus 1 per successful text exchange and 2 per successful image exchange of that user. Failed exchanges cost nothing |
| Runs.RunKeepsCreditsNonNegative | server/controllers/messageController.js:12-109 | served one after another, requests never take a balance below zero, because each debit follows a check of the same cost against the same balance |
| Runs.RunAppendOnly | server/controllers/messageController.js:18-108 | no sequence of requests removes, reorders or edits a stored turn: every stored chat is a prefix of what it becomes |
| Runs.OneCreditScenario | server/controllers/messageController.js:8-58 | a user with 1 credit who sends "Hello" and is answered "Hi there" succeeds, ends with 0 credits and a chat of those two turns. That user's next text request is refused for lack of credits |

## Left out

- Timestamps (`Date.now()`) on turns and in file names: these are clock reads, and turns carry no timestamp field here.
- Building the generation URL, `encodeURIComponent`, the HTTP fetch, the Base64 conversion and the upload call. The model collapses them into one generator outcome from the prompt to the uploaded URL or an error.
- The text provider's client and the shape of its response (`choices[0].message`). The reply is modelled as an assistant turn holding the completion text. The role the provider returns is taken to be "assistant", and any other fields it returns are not kept.
- Persistence internals. `Chat.findOne` is a lookup in the chat map by (owner, chat id). `save` replaces that chat's messages, and `$inc` subtracts the cost. A throwing save is taken to leave the stored chat unchanged.
- Concurrency. The credit check reads `req.user.credits`, a copy loaded when the request is authenticated. The model reads the stored balance, which is equal to it when requests are served one after another. The overspend race between the credit check and the `$inc` under concurrent requests is not modelled.
- Authentication and Express plumbing. The user is taken to exist in the credit map, which the authentication layer guarantees. Only the returned JSON body is modelled.
- Other exceptions that the catch block absorbs, such as a malformed request body or a failed `findOne`, are not modelled separately. Only the missing chat, generator failures, a throwing save and a throwing debit are.
- `client/src/context/AppContext.jsx` is not part of this model: it is UI state with no logic.
