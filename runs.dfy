/** Sequences of requests served one after another, each against the state the
    previous one left: what a run does to balances and chats. */
module Runs {
  import opened Types
  import opened History
  import opened Exchange

  /** The body of a request to one of the two routes. */
  datatype Request =
    | TextRequest(chatId: ChatId, prompt: string)
    | ImageRequest(chatId: ChatId, prompt: string, isPublished: Option<bool>)

  /** How the collaborators behave during one request. */
  datatype Collaborators = Collaborators(
    complete: seq<Message> -> Outcome,
    synthesize: string -> Outcome,
    save: Fault,
    debit: Fault)

  /** One request by an authenticated user, with its collaborators. */
  datatype Call = Call(userId: UserId, request: Request, env: Collaborators)

  function Cost(req: Request): int {
    match req
    case TextRequest(_, _) => TextCost
    case ImageRequest(_, _, _) => ImageCost
  }

  /** Route a call to its controller. */
  function Handle(s: State, c: Call): (r: Step)
    requires c.userId in s.credits
    ensures r.state.credits.Keys == s.credits.Keys
    ensures forall v :: v in s.credits ==>
              r.state.credits[v] == s.credits[v] - (if v == c.userId && r.response.Success? then Cost(c.request) else 0)
    ensures NonNegative(s) ==> NonNegative(r.state)
    ensures r.state.chats.Keys == s.chats.Keys && Extends(s.chats, r.state.chats)
  {
    match c.request
    case TextRequest(chatId, prompt) =>
      TextMessage(s, c.userId, chatId, prompt, c.env.complete, c.env.save, c.env.debit)
    case ImageRequest(chatId, prompt, isPublished) =>
      ImageMessage(s, c.userId, chatId, prompt, isPublished, c.env.synthesize, c.env.save, c.env.debit)
  }

  /** The final state and every response of a run. */
  datatype Trace = Trace(final: State, responses: seq<Response>)

  predicate Authenticated(s: State, calls: seq<Call>) {
    forall i :: 0 <= i < |calls| ==> calls[i].userId in s.credits
  }

  /** Serve `calls` in order, each against the state the previous left. */
  function Run(s: State, calls: seq<Call>): (t: Trace)
    requires Authenticated(s, calls)
    ensures |t.responses| == |calls|
    ensures t.final.credits.Keys == s.credits.Keys
    ensures t.final.chats.Keys == s.chats.Keys
    decreases |calls|
  {
    if calls == [] then Trace(s, [])
    else
      var first := Handle(s, calls[0]);
      var rest := Run(first.state, calls[1..]);
      Trace(rest.final, [first.response] + rest.responses)
  }

  /** Credits charged to `u` in a run: the cost of each of its calls that was
      answered with success. */
  function Charged(calls: seq<Call>, responses: seq<Response>, u: UserId): int
    requires |responses| == |calls|
  {
    if calls == [] then 0
    else
      (if calls[0].userId == u && responses[0].Success? then Cost(calls[0].request) else 0)
      + Charged(calls[1..], responses[1..], u)
  }

  /** Every balance ends as it started minus exactly what the run charged that
      user: a failed exchange costs nothing, a successful text exchange 1 and
      a successful image exchange 2. */
  lemma {:induction false} RunCharges(s: State, calls: seq<Call>, u: UserId)
    requires Authenticated(s, calls) && u in s.credits
    ensures Run(s, calls).final.credits[u] == s.credits[u] - Charged(calls, Run(s, calls).responses, u)
    decreases |calls|
  {
    if calls != [] {
      var first := Handle(s, calls[0]);
      RunCharges(first.state, calls[1..], u);
      assert Run(s, calls).responses[1..] == Run(first.state, calls[1..]).responses;
    }
  }

  /** A successful exchange of either kind stores the old chat followed by
      exactly two turns: the user's prompt as a non-image user turn, then
      the reply, an assistant turn that is an image (carrying the request's
      publish flag) exactly for an image request. */
  lemma SuccessAppendsTwoTurns(s: State, c: Call)
    requires c.userId in s.credits && Handle(s, c).response.Success?
    ensures (c.userId, c.request.chatId) in s.chats
    ensures var before := s.chats[(c.userId, c.request.chatId)];
            var after := Handle(s, c).state.chats[(c.userId, c.request.chatId)];
            var reply := Handle(s, c).response.reply;
            |after| == |before| + 2 && after[..|before|] == before
            && after[|before|] == Turn(User, c.request.prompt, false, None)
            && after[|before| + 1] == reply
            && reply.role == Assistant
            && reply.isImage == c.request.ImageRequest?
            && reply.isPublished == (if c.request.ImageRequest? then c.request.isPublished else None)
  {
  }

  /** In a sequential run no balance goes below zero: each debit is preceded
      by a credit check of the same cost against the same balance. */
  lemma {:induction false} RunKeepsCreditsNonNegative(s: State, calls: seq<Call>)
    requires Authenticated(s, calls) && NonNegative(s)
    ensures NonNegative(Run(s, calls).final)
    decreases |calls|
  {
    if calls != [] {
      RunKeepsCreditsNonNegative(Handle(s, calls[0]).state, calls[1..]);
    }
  }

  lemma ExtendsTransitive(a: map<ChatKey, seq<Turn>>, b: map<ChatKey, seq<Turn>>, c: map<ChatKey, seq<Turn>>)
    requires Extends(a, b) && Extends(b, c)
    ensures Extends(a, c)
  {
  }

  /** Chats only grow at their end: no run removes, reorders or edits a
      stored turn. */
  lemma {:induction false} RunAppendOnly(s: State, calls: seq<Call>)
    requires Authenticated(s, calls)
    ensures Extends(s.chats, Run(s, calls).final.chats)
    decreases |calls|
  {
    if calls != [] {
      var first := Handle(s, calls[0]);
      RunAppendOnly(first.state, calls[1..]);
      ExtendsTransitive(s.chats, first.state.chats, Run(s, calls).final.chats);
    }
  }

  /** A user holding one credit sends "Hello" and gets "Hi there": the
      exchange succeeds, the balance drops to 0 and the chat holds the two
      new turns. A second text request by the same user is then refused for
      lack of credit and leaves the balance at 0. */
  lemma OneCreditScenario(u: UserId, chatId: ChatId, env: Collaborators)
    requires forall h :: env.complete(h) == Ok("Hi there")
    requires env.save == Completes && env.debit == Completes
    ensures var s := State(map[u := 1], map[(u, chatId) := []]);
            var t := Run(s, [Call(u, TextRequest(chatId, "Hello"), env), Call(u, TextRequest(chatId, "Again"), env)]);
            t.responses == [Success(TextReply("Hi there")), Failure(NotEnoughCredits)]
            && t.final.credits[u] == 0
            && t.final.chats[(u, chatId)] == [UserTurn("Hello"), TextReply("Hi there")]
  {
    var s := State(map[u := 1], map[(u, chatId) := []]);
    var c1 := Call(u, TextRequest(chatId, "Hello"), env);
    var c2 := Call(u, TextRequest(chatId, "Again"), env);
    var first := Handle(s, c1);
    assert first.response == Success(TextReply("Hi there"));
    var second := Handle(first.state, c2);
    assert second == Step(first.state, Failure(NotEnoughCredits));
    assert [c1, c2][1..] == [c2] && [c2][1..] == [];
    assert Run(first.state, [c2]) == Trace(first.state, [second.response]);
    assert first.state.credits[u] == 0;
    assert first.state.chats[(u, chatId)] == [UserTurn("Hello"), TextReply("Hi there")];
  }
}
