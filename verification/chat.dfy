/**
 * The chat endpoint: the configuration and validation gate, the
 * persona-scoped conversation count, the entitlement check, the 24-hour
 * quota, the model fallback, the error classification and the single append
 * to the chat log. `ChatSpec` states the whole decision as a function of the
 * store's contents before the request; `Chat` performs it step by step on
 * the store.
 */
module Chat {

  import opened Wrappers
  import opened Text
  import opened Http
  import opened Validation
  import opened Store
  import opened Prompt
  import opened Models

  /** Free-tier messages per trailing window. */
  const DailyLimit := 20
  const WindowSeconds := 24 * 60 * 60

  /** Whether the store client and the provider client were set up at start. */
  datatype Config = Config(database: bool, gemini: bool)

  /**
   * Which store operations fail during this request. The two scans are
   * caught where they happen; the subscription read and the append raise
   * into the outer handler with the given text.
   */
  datatype StoreFaults = StoreFaults(
    conversationScanFails: bool,
    subscriptionReadError: Option<string>,
    quotaScanFails: bool,
    appendError: Option<string>)

  /** The three fields of an admitted request, all validated. */
  datatype ChatRequest = ChatRequest(userId: string, message: string, persona: string)

  datatype ChatResponse =
    | Replied(reply: string)  // 200 {reply}
    | LimitReached            // 403 {error, limit_reached: true, message}
    | Failed(error: ErrorKind)

  function ResponseStatus(r: ChatResponse): int {
    match r
    case Replied(_) => 200
    case LimitReached => 403
    case Failed(e) => Status(e)
  }

  // ---------------------------------------------------------------------------
  // The gate
  // ---------------------------------------------------------------------------

  /** Configuration, content type, body and field checks, in the order the handler makes them. */
  function Admit(config: Config, payload: Payload): (r: Result<ChatRequest, ErrorKind>)
    ensures r.Success? ==>
              && ValidateUserId(Str(r.value.userId))
              && ValidateMessage(Str(r.value.message))
              && ValidatePersona(Str(r.value.persona))
    ensures r.Failure? ==> Status(r.error) == 400 || Status(r.error) == 500
  {
    if !config.database then Failure(DatabaseNotConfigured)
    else if !config.gemini then Failure(GeminiNotConfigured)
    else if payload.NotJson? then Failure(ErrorKind.NotJson)
    else if !BodyTruthy(payload.body) then Failure(InvalidJson)
    else if payload.body.NonObject? then Failure(InternalError)  // `.get` on a list, string or number
    else
      var fields := payload.body.fields;
      var message := Get(fields, "message", Null);
      var persona := Get(fields, "persona", Str("Luna"));
      var userId := Get(fields, "userId", Null);
      if !Truthy(userId) then Failure(UserIdRequired)
      else if !ValidateUserId(userId) then Failure(InvalidUserId)
      else if !Truthy(message) then Failure(MessageRequired)
      else if !ValidateMessage(message) then Failure(InvalidMessage)
      else if !ValidatePersona(persona) then Failure(InvalidPersona)
      else Success(ChatRequest(userId.s, message.s, persona.s))
  }

  /** A request is admitted exactly when both clients exist and the JSON object carries three valid fields. */
  lemma AdmitIff(config: Config, payload: Payload)
    ensures Admit(config, payload).Success? <==>
            && config.database && config.gemini
            && payload.Json? && payload.body.Object? && payload.body.fields != map[]
            && ValidateUserId(Get(payload.body.fields, "userId", Null))
            && ValidateMessage(Get(payload.body.fields, "message", Null))
            && ValidatePersona(Get(payload.body.fields, "persona", Str("Luna")))
  {
  }

  /**
   * The first failing check decides: a missing client outranks any request
   * problem; a falsy body is refused before a non-object one fails; among
   * the fields the user id is judged before the message and the message
   * before the persona, and a falsy field is "required" where a truthy but
   * malformed one is "invalid".
   */
  lemma AdmitPrecedence(config: Config, payload: Payload)
    ensures !config.database ==> Admit(config, payload) == Failure(DatabaseNotConfigured)
    ensures config.database && !config.gemini ==> Admit(config, payload) == Failure(GeminiNotConfigured)
    ensures config.database && config.gemini && payload.NotJson? ==> Admit(config, payload) == Failure(ErrorKind.NotJson)
    ensures config.database && config.gemini && payload.Json? && !BodyTruthy(payload.body) ==>
              Admit(config, payload) == Failure(InvalidJson)
    ensures config.database && config.gemini && payload.Json? && BodyTruthy(payload.body) && payload.body.NonObject? ==>
              Admit(config, payload) == Failure(InternalError)
    ensures config.database && config.gemini && payload.Json? && payload.body.Object? && payload.body.fields != map[] ==>
              var f := payload.body.fields;
              var userId, message, persona := Get(f, "userId", Null), Get(f, "message", Null), Get(f, "persona", Str("Luna"));
              && (!Truthy(userId) ==> Admit(config, payload) == Failure(UserIdRequired))
              && (Truthy(userId) && !ValidateUserId(userId) ==> Admit(config, payload) == Failure(InvalidUserId))
              && (ValidateUserId(userId) && !Truthy(message) ==> Admit(config, payload) == Failure(MessageRequired))
              && (ValidateUserId(userId) && Truthy(message) && !ValidateMessage(message) ==>
                    Admit(config, payload) == Failure(InvalidMessage))
              && (ValidateUserId(userId) && ValidateMessage(message) && !ValidatePersona(persona) ==>
                    Admit(config, payload) == Failure(InvalidPersona))
  {
  }

  // ---------------------------------------------------------------------------
  // The decision, as a function of the store before the request
  // ---------------------------------------------------------------------------

  /** `message_count`: the user's chats with this persona, or 0 when the scan fails. */
  function ConversationCount(chats: seq<ChatEvent>, req: ChatRequest, faults: StoreFaults): nat {
    if faults.conversationScanFails then 0 else Count(chats, SamePersona(req.userId, req.persona))
  }

  /** The prompt `chat()` sends; the conversation is new when the count is zero. */
  function ChatPrompt(chats: seq<ChatEvent>, req: ChatRequest, faults: StoreFaults): string {
    var n := ConversationCount(chats, req, faults);
    ComposePrompt(req.persona, n == 0, n, req.message)
  }

  /** `msg_count`: the user's chats, any persona, stamped within the window; 0 when the scan fails. */
  function QuotaUsed(chats: seq<ChatEvent>, req: ChatRequest, now: int, faults: StoreFaults): nat {
    if faults.quotaScanFails then 0 else Count(chats, Recent(req.userId, now - WindowSeconds))
  }

  /** The answer, and the document appended to the chat log if any. */
  datatype ChatResult = ChatResult(response: ChatResponse, appended: Option<ChatEvent>)

  function ChatSpec(
    chats: seq<ChatEvent>, subs: map<string, SubRecord>, config: Config, payload: Payload,
    now: int, docId: string, generate: Generator, faults: StoreFaults): (r: ChatResult)
    ensures r.appended.Some? ==>
              && Admit(config, payload).Success? && r.response.Replied?
              && var req := Admit(config, payload).value;
                 r.appended.value == ChatEvent(docId, req.userId, req.persona, req.message, r.response.reply, Some(now))
  {
    match Admit(config, payload)
    case Failure(e) => ChatResult(Failed(e), None)
    case Success(req) => Decide(chats, subs, req, now, docId, generate, faults)
  }

  /** The decision for an admitted request. */
  function Decide(
    chats: seq<ChatEvent>, subs: map<string, SubRecord>, req: ChatRequest,
    now: int, docId: string, generate: Generator, faults: StoreFaults): ChatResult
  {
      if faults.subscriptionReadError.Some? then
        ChatResult(Failed(Classify(faults.subscriptionReadError.value)), None)
      else if !IsPlus(subs, req.userId) && QuotaUsed(chats, req, now, faults) >= DailyLimit then
        ChatResult(LimitReached, None)
      else
        match FirstSuccess(Candidates, ChatPrompt(chats, req, faults), generate)
        case Exhausted(last) => ChatResult(Failed(Classify(ExhaustedText(last))), None)
        case Answered(text, _) =>
          if faults.appendError.Some? then ChatResult(Failed(Classify(faults.appendError.value)), None)
          else ChatResult(Replied(text), Some(ChatEvent(docId, req.userId, req.persona, req.message, text, Some(now))))
  }

  // ---------------------------------------------------------------------------
  // The handler
  // ---------------------------------------------------------------------------

  method Chat(
    db: Database, config: Config, payload: Payload,
    now: int, docId: string, generate: Generator, faults: StoreFaults)
    returns (response: ChatResponse)
    modifies db
    ensures db.subscriptions == old(db.subscriptions)
    ensures var r := ChatSpec(old(db.chats), old(db.subscriptions), config, payload, now, docId, generate, faults);
            && response == r.response
            && db.chats == old(db.chats) + (if r.appended.Some? then [r.appended.value] else [])
  {
    var admitted := Admit(config, payload);
    if admitted.Failure? {
      return Failed(admitted.error);
    }
    var req := admitted.value;

    // Is this the first message with this persona? A failed scan says yes.
    var count := 0;
    if !faults.conversationScanFails {
      count := db.CountWhere(SamePersona(req.userId, req.persona));
    }
    var prompt := ComposePrompt(req.persona, count == 0, count, req.message);
    assert prompt == ChatPrompt(old(db.chats), req, faults);

    // Entitlement: a failed read propagates to the outer handler.
    if faults.subscriptionReadError.Some? {
      return Failed(Classify(faults.subscriptionReadError.value));
    }
    var isPlus := IsPlus(db.subscriptions, req.userId);
    ghost var spec := ChatSpec(old(db.chats), old(db.subscriptions), config, payload, now, docId, generate, faults);

    // Quota for everyone else: a failed scan lets the request through.
    if !isPlus {
      var used := 0;
      if !faults.quotaScanFails {
        used := db.CountWhere(Recent(req.userId, now - WindowSeconds));
      }
      assert used == QuotaUsed(old(db.chats), req, now, faults);
      if used >= DailyLimit {
        return LimitReached;
      }
    }

    var outcome, tried := TryModels(prompt, generate);
    if outcome.Exhausted? {
      return Failed(Classify(ExhaustedText(outcome.lastError)));
    }

    if faults.appendError.Some? {
      return Failed(Classify(faults.appendError.value));
    }
    assert spec.appended == Some(ChatEvent(docId, req.userId, req.persona, req.message, outcome.text, Some(now)));
    db.Add(ChatEvent(docId, req.userId, req.persona, req.message, outcome.text, Some(now)));
    response := Replied(outcome.text);
  }

  // ---------------------------------------------------------------------------
  // Properties of the decision
  // ---------------------------------------------------------------------------

  /**
   * A rejected request is answered from the configuration and the request
   * alone: the store, its failures and the provider play no part, and
   * nothing is appended.
   */
  lemma GateDecidesBeforeStore(
    config: Config, payload: Payload, now: int, docId: string,
    chats1: seq<ChatEvent>, subs1: map<string, SubRecord>, generate1: Generator, faults1: StoreFaults,
    chats2: seq<ChatEvent>, subs2: map<string, SubRecord>, generate2: Generator, faults2: StoreFaults)
    requires Admit(config, payload).Failure?
    ensures ChatSpec(chats1, subs1, config, payload, now, docId, generate1, faults1) ==
            ChatSpec(chats2, subs2, config, payload, now, docId, generate2, faults2) ==
            ChatResult(Failed(Admit(config, payload).error), None)
  {
  }

  /**
   * The prompt carries the first-message clause exactly when the conversation
   * scan failed or no stored chat of this user has this persona; chats with
   * other personas or of other users do not matter.
   */
  lemma NewConversationIff(chats: seq<ChatEvent>, req: ChatRequest, faults: StoreFaults)
    ensures var p := ChatPrompt(chats, req, faults);
            var t := Template(req.persona);
            |t| <= |p| &&
            (StartsWith(p[|t|..], FirstMessageContext) <==>
              faults.conversationScanFails ||
              forall i :: 0 <= i < |chats| ==> !(chats[i].userId == req.userId && chats[i].persona == req.persona))
  {
    var n := ConversationCount(chats, req, faults);
    PromptLayout(req.persona, n == 0, n, req.message);
    CountZeroIff(chats, SamePersona(req.userId, req.persona));
  }

  /**
   * 403 `limit_reached` happens exactly when the request is admitted, the
   * subscription read succeeds, the user has no `'active'` record, the quota
   * scan succeeds and it finds at least 20 of the user's chats stamped
   * within the last 24 hours.
   */
  lemma LimitReachedIff(
    chats: seq<ChatEvent>, subs: map<string, SubRecord>, config: Config, payload: Payload,
    now: int, docId: string, generate: Generator, faults: StoreFaults)
    ensures ChatSpec(chats, subs, config, payload, now, docId, generate, faults).response == LimitReached <==>
            && Admit(config, payload).Success?
            && faults.subscriptionReadError.None?
            && !IsPlus(subs, Admit(config, payload).value.userId)
            && !faults.quotaScanFails
            && Count(chats, Recent(Admit(config, payload).value.userId, now - WindowSeconds)) >= DailyLimit
  {
    var r := ChatSpec(chats, subs, config, payload, now, docId, generate, faults);
    if Admit(config, payload).Success? && faults.subscriptionReadError.None? {
      var req := Admit(config, payload).value;
      if !(!IsPlus(subs, req.userId) && QuotaUsed(chats, req, now, faults) >= DailyLimit) {
        match FirstSuccess(Candidates, ChatPrompt(chats, req, faults), generate)
        case Exhausted(last) =>
          assert r.response == Failed(Classify(ExhaustedText(last)));
        case Answered(text, _) =>
      }
    }
  }

  /** An `'active'` subscriber is never stopped by the quota, however many chats are stamped in the window. */
  lemma ActiveSubscriberNeverLimited(
    chats: seq<ChatEvent>, subs: map<string, SubRecord>, config: Config, payload: Payload,
    now: int, docId: string, generate: Generator, faults: StoreFaults)
    requires Admit(config, payload).Success? && IsPlus(subs, Admit(config, payload).value.userId)
    ensures ChatSpec(chats, subs, config, payload, now, docId, generate, faults).response != LimitReached
  {
    LimitReachedIff(chats, subs, config, payload, now, docId, generate, faults);
  }

  /**
   * When the request gets past the quota and every candidate model fails,
   * the answer depends on the last failure only: 429 exactly when that text
   * speaks of quota, 500 otherwise, whatever the earlier failures said.
   */
  lemma ExhaustedFollowsLastError(
    chats: seq<ChatEvent>, subs: map<string, SubRecord>, config: Config, payload: Payload,
    now: int, docId: string, generate: Generator, faults: StoreFaults)
    requires Admit(config, payload).Success?
    requires faults.subscriptionReadError.None?
    requires var req := Admit(config, payload).value;
             IsPlus(subs, req.userId) || QuotaUsed(chats, req, now, faults) < DailyLimit
    requires var req := Admit(config, payload).value;
             forall j :: 0 <= j < |Candidates| ==> generate(Candidates[j], ChatPrompt(chats, req, faults)).Raised?
    ensures var req := Admit(config, payload).value;
            var last := generate(Candidates[|Candidates| - 1], ChatPrompt(chats, req, faults)).error;
            var r := ChatSpec(chats, subs, config, payload, now, docId, generate, faults);
            && r == ChatResult(Failed(Classify(last)), None)
            && (ResponseStatus(r.response) == 429 <==> IsQuotaError(last))
            && (ResponseStatus(r.response) == 500 <==> !IsQuotaError(last))
  {
    var req := Admit(config, payload).value;
    var prompt := ChatPrompt(chats, req, faults);
    FirstSuccessAllRaised(Candidates, prompt, generate);
    var last := generate(Candidates[|Candidates| - 1], prompt).error;
    ExhaustedAnswersLastError(chats, subs, req, now, docId, generate, faults, last);
  }

  /** With the gate, entitlement and quota passed, an exhausted fallback answers from its last failure. */
  lemma ExhaustedAnswersLastError(
    chats: seq<ChatEvent>, subs: map<string, SubRecord>, req: ChatRequest,
    now: int, docId: string, generate: Generator, faults: StoreFaults, last: string)
    requires faults.subscriptionReadError.None?
    requires IsPlus(subs, req.userId) || QuotaUsed(chats, req, now, faults) < DailyLimit
    requires FirstSuccess(Candidates, ChatPrompt(chats, req, faults), generate) == Exhausted(Some(last))
    ensures var r := Decide(chats, subs, req, now, docId, generate, faults);
            && r == ChatResult(Failed(Classify(last)), None)
            && (ResponseStatus(r.response) == 429 <==> IsQuotaError(last))
            && (ResponseStatus(r.response) == 500 <==> !IsQuotaError(last))
  {
  }

  /**
   * A 200 reply is exactly the case in which one document is appended, and
   * that document holds the request's user, persona and message, the reply
   * and the time of the request.
   */
  lemma ReplyIffAppended(
    chats: seq<ChatEvent>, subs: map<string, SubRecord>, config: Config, payload: Payload,
    now: int, docId: string, generate: Generator, faults: StoreFaults)
    ensures var r := ChatSpec(chats, subs, config, payload, now, docId, generate, faults);
            && (r.response.Replied? <==> r.appended.Some?)
            && (r.appended.Some? ==>
                  var req := Admit(config, payload).value;
                  && Admit(config, payload).Success?
                  && r.appended.value == ChatEvent(docId, req.userId, req.persona, req.message, r.response.reply, Some(now)))
  {
  }

  /**
   * A reply comes from the first candidate model that answers the prompt;
   * every model before it failed.
   */
  lemma ReplyFromFirstAnsweringModel(
    chats: seq<ChatEvent>, subs: map<string, SubRecord>, config: Config, payload: Payload,
    now: int, docId: string, generate: Generator, faults: StoreFaults)
    requires ChatSpec(chats, subs, config, payload, now, docId, generate, faults).response.Replied?
    ensures var req := Admit(config, payload).value;
            var prompt := ChatPrompt(chats, req, faults);
            var reply := ChatSpec(chats, subs, config, payload, now, docId, generate, faults).response.reply;
            && Admit(config, payload).Success?
            && exists i :: 0 <= i < |Candidates| &&
                 generate(Candidates[i], prompt) == Generated(reply) &&
                 forall j :: 0 <= j < i ==> generate(Candidates[j], prompt).Raised?
  {
    var req := Admit(config, payload).value;
    RepliedWithFirstSuccess(chats, subs, req, now, docId, generate, faults);
    AnsweredIsFirst(Candidates, ChatPrompt(chats, req, faults), generate);
  }

  /** A 200 reply is the text of the fallback's answer. */
  lemma RepliedWithFirstSuccess(
    chats: seq<ChatEvent>, subs: map<string, SubRecord>, req: ChatRequest,
    now: int, docId: string, generate: Generator, faults: StoreFaults)
    requires Decide(chats, subs, req, now, docId, generate, faults).response.Replied?
    ensures var o := FirstSuccess(Candidates, ChatPrompt(chats, req, faults), generate);
            o.Answered? && o.text == Decide(chats, subs, req, now, docId, generate, faults).response.reply
  {
  }
}
