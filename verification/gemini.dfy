/**
 * `GeminiService` (src/lib/services/gemini.ts): keeps the chat history of one request,
 * assembles the `contents` and `config` sent to the model, raises the debug errors
 * that typed trigger words ask for, and rejects blocked or empty replies.  The call
 * into the SDK is an oracle: its answer is the parameter `reply`.
 */
module Gemini {
  import opened Types
  import opened Text
  import ErrorHandler

  type ApiError = ErrorHandler.ApiError

  /** One part of a reply; `thought` is true for the model's reasoning. */
  datatype ResponsePart = ResponsePart(text: Option<string>, thought: bool)

  /** A candidate reply; `parts` is `content?.parts`. */
  datatype Candidate = Candidate(parts: Option<seq<ResponsePart>>, finishReason: Option<string>)

  /**
   * What `generateContent` resolves to: the candidates, `promptFeedback?.blockReason`,
   * the SDK's `text` accessor and the usage counts.
   */
  datatype Response = Response(
    candidates: Option<seq<Candidate>>,
    blockReason: Option<string>,
    text: Option<string>,
    usage: Option<UsageMetadata>)

  /** The SDK call either resolves with a response or rejects with an error. */
  datatype BackendReply = Resolved(response: Response) | Rejected(error: ApiError)

  datatype ThinkingConfig = ThinkingConfig(includeThoughts: bool, budgetTokenCount: Option<int>)

  /** The request `config`; the fixed safety settings are left out. */
  datatype RequestConfig = RequestConfig(
    temperature: Option<real>,
    topK: Option<int>,
    topP: Option<real>,
    maxOutputTokens: Option<int>,
    thinkingConfig: Option<ThinkingConfig>,
    systemInstruction: Option<string>)

  datatype RequestPayload = RequestPayload(model: string, contents: seq<Content>, config: RequestConfig)

  /**
   * How `sendMessage` ends: with the (debug-adjusted) response and the payload, or by
   * throwing; errors thrown once the request exists carry its payload.
   */
  datatype SendOutcome = Sent(response: Response, payload: RequestPayload) | Thrown(error: ApiError, attachedPayload: Option<RequestPayload>)

  /** `new Error(message)` with a `status`. */
  function Failure(status: Option<int>, message: string): ApiError {
    ErrorHandler.ApiError(status, None, Some(message), "Error")
  }

  /* ---------------- startChat ---------------- */

  function NormalRole(role: string): string {
    if ToLower(role) == "user" then "user" else "model"
  }

  /** The history `startChat` keeps: same turns and parts, roles reduced to "user" and "model". */
  function NormalizeRoles(history: seq<Content>): (r: seq<Content>)
    ensures |r| == |history|
    ensures forall i :: 0 <= i < |r| ==>
      r[i].parts == history[i].parts && (r[i].role == "user" <==> ToLower(history[i].role) == "user")
      && r[i].role in {"user", "model"}
  {
    seq(|history|, i requires 0 <= i < |history| => Content(NormalRole(history[i].role), history[i].parts))
  }

  /* ---------------- debug triggers ---------------- */

  /** A part's `text`; parts without text contribute "" to `map(p => p.text).join("")`, and the text of a dice record is not modelled. */
  function PartText(p: Part): string {
    if p.TextPart? then p.text else ""
  }

  /** The text searched for debug triggers: the texts of the parts, concatenated. */
  function DebugText(parts: seq<Part>): string {
    if |parts| == 0 then "" else DebugText(parts[..|parts| - 1]) + PartText(parts[|parts| - 1])
  }

  /** The message of the error the `debug:key` trigger throws. */
  const DebugKeyMessage := "API key not valid. Please pass a valid API key."

  /** The error a debug trigger in the message asks for, the first trigger in this order winning. */
  function DebugError(text: string): (r: Option<ApiError>)
    ensures r.Some? <==> (Contains(text, "debug:404") || Contains(text, "debug:history") || Contains(text, "debug:429")
      || Contains(text, "debug:503") || Contains(text, "debug:400") || Contains(text, "debug:key"))
    ensures r.Some? ==> r.value.status.Some? && r.value.status.value in {400, 404, 429, 503}
    ensures r.Some? && !Contains(text, "debug:404") && !Contains(text, "debug:history") && !Contains(text, "debug:429")
      && !Contains(text, "debug:503") && !Contains(text, "debug:400")
      ==> r.value == Failure(Some(400), DebugKeyMessage)
  {
    if Contains(text, "debug:404") then Some(Failure(Some(404), "models/gemini-unknown is not found"))
    else if Contains(text, "debug:history") then
      Some(Failure(Some(400), "Please ensure that multiturn requests alternate between user and model"))
    else if Contains(text, "debug:429") then Some(Failure(Some(429), "User Rate Limit Exceeded"))
    else if Contains(text, "debug:503") then Some(Failure(Some(503), "The model is overloaded. Please try again later."))
    else if Contains(text, "debug:400") then Some(Failure(Some(400), "Invalid argument: Image format not supported"))
    else if Contains(text, "debug:key") then Some(Failure(Some(400), DebugKeyMessage))
    else None
  }

  /** Each trigger gives its own status whenever no earlier trigger is present. */
  lemma DebugStatuses(text: string)
    ensures Contains(text, "debug:404") ==> DebugError(text).value.status == Some(404)
    ensures !Contains(text, "debug:404") && Contains(text, "debug:history") ==> DebugError(text).value.status == Some(400)
    ensures !Contains(text, "debug:404") && !Contains(text, "debug:history") && Contains(text, "debug:429")
      ==> DebugError(text).value.status == Some(429)
    ensures (!Contains(text, "debug:404") && !Contains(text, "debug:history") && !Contains(text, "debug:429")
      && Contains(text, "debug:503")) ==> DebugError(text).value.status == Some(503)
    ensures (!Contains(text, "debug:404") && !Contains(text, "debug:history") && !Contains(text, "debug:429")
      && !Contains(text, "debug:503") && Contains(text, "debug:400")) ==> DebugError(text).value.status == Some(400)
    ensures (!Contains(text, "debug:404") && !Contains(text, "debug:history") && !Contains(text, "debug:429")
      && !Contains(text, "debug:503") && !Contains(text, "debug:400") && Contains(text, "debug:key"))
      ==> DebugError(text).value.status == Some(400)
  {
  }

  /** The debug "key" error is reported as an invalid key by its message, although its status is 400. */
  lemma DebugKeyIsKeyExpired()
    ensures ErrorHandler.AnalyzeError(Failure(Some(400), DebugKeyMessage)).errorType == ErrorHandler.KeyExpired
  {
    var m := DebugKeyMessage;
    assert m[0..17] == "API key not valid";
    ContainsWitness(m, "API key not valid", 0);
  }

  /** A message whose only trigger is `debug:key` fails with an error classified as an expired key. */
  lemma DebugKeyTextIsKeyExpired(text: string)
    requires !Contains(text, "debug:404") && !Contains(text, "debug:history") && !Contains(text, "debug:429")
      && !Contains(text, "debug:503") && !Contains(text, "debug:400") && Contains(text, "debug:key")
    ensures DebugError(text).Some?
    ensures ErrorHandler.AnalyzeError(DebugError(text).value).errorType == ErrorHandler.KeyExpired
  {
    DebugKeyIsKeyExpired();
  }

  /* ---------------- request assembly ---------------- */

  /**
   * `contents`: the history, then the user message unless the parts are empty, then
   * the dummy user prompt, then the dummy model prompt.
   */
  function RequestContents(history: seq<Content>, parts: seq<Part>, dummyUser: Option<string>, dummyModel: Option<string>): (r: seq<Content>)
    ensures var base := if |parts| == 0 then history else history + [Content("user", parts)];
      |base| <= |r| && r[..|base|] == base
      && |r| == |base| + (if Present(dummyUser) then 1 else 0) + (if Present(dummyModel) then 1 else 0)
      && (Present(dummyUser) ==> r[|base|] == Content("user", [TextPart(dummyUser.value)]))
      && (Present(dummyModel) ==> r[|r| - 1] == Content("model", [TextPart(dummyModel.value)]))
  {
    var base := if |parts| == 0 then history else history + [Content("user", parts)];
    var withUser := if Present(dummyUser) then base + [Content("user", [TextPart(dummyUser.value)])] else base;
    if Present(dummyModel) then withUser + [Content("model", [TextPart(dummyModel.value)])] else withUser
  }

  /** `config`: sampling fields copied, thinking settings only when asked for, the system prompt only when non-empty. */
  function BuildConfig(generation: Option<GenerationSettings>, systemInstruction: Option<string>): (r: RequestConfig)
    ensures r.thinkingConfig.Some? <==>
      generation.Some? && (generation.value.includeThoughts || generation.value.thinkingBudget.Some?)
    ensures r.thinkingConfig.Some? ==>
      r.thinkingConfig.value.includeThoughts == generation.value.includeThoughts
      && r.thinkingConfig.value.budgetTokenCount == generation.value.thinkingBudget
    ensures r.systemInstruction.Some? <==> Present(systemInstruction)
    ensures generation.None? ==> r.temperature.None? && r.topK.None? && r.topP.None? && r.maxOutputTokens.None?
    ensures generation.Some? ==>
      r.temperature == generation.value.temperature && r.topK == generation.value.topK
      && r.topP == generation.value.topP && r.maxOutputTokens == generation.value.maxOutputTokens
    ensures r.systemInstruction.Some? ==> r.systemInstruction == systemInstruction
  {
    var base := RequestConfig(None, None, None, None, None, None);
    var sampled :=
      if generation.Some? then
        var g := generation.value;
        var thinking :=
          if g.includeThoughts || g.thinkingBudget.Some? then Some(ThinkingConfig(g.includeThoughts, g.thinkingBudget)) else None;
        RequestConfig(g.temperature, g.topK, g.topP, g.maxOutputTokens, thinking, None)
      else base;
    if Present(systemInstruction) then sampled.(systemInstruction := systemInstruction) else sampled
  }

  /** The step-by-step assembly of `config` inside `sendMessage`. */
  method AssembleConfig(generation: Option<GenerationSettings>, systemInstruction: Option<string>) returns (config: RequestConfig)
    ensures config == BuildConfig(generation, systemInstruction)
  {
    config := RequestConfig(None, None, None, None, None, None);
    if generation.Some? {
      var g := generation.value;
      config := RequestConfig(g.temperature, g.topK, g.topP, g.maxOutputTokens, None, None);
      var hasThinkingConfig := false;
      if g.includeThoughts { hasThinkingConfig := true; }
      if g.thinkingBudget.Some? { hasThinkingConfig := true; }
      if hasThinkingConfig {
        config := config.(thinkingConfig := Some(ThinkingConfig(g.includeThoughts, g.thinkingBudget)));
      }
    }
    if Present(systemInstruction) {
      config := config.(systemInstruction := systemInstruction);
    }
  }

  /* ---------------- reply checks ---------------- */

  /** The finish reason the first of `debug:safety`, `debug:copyright`, `debug:length`, `debug:other` in the message forces. */
  function ForceFinishReason(text: string, c: Candidate): (r: Candidate)
    ensures r == c.(finishReason := r.finishReason)
    ensures Contains(text, "debug:safety") ==> r.finishReason == Some("SAFETY")
    ensures !Contains(text, "debug:safety") && Contains(text, "debug:copyright") ==> r.finishReason == Some("RECITATION")
    ensures !Contains(text, "debug:safety") && !Contains(text, "debug:copyright") && Contains(text, "debug:length")
      ==> r.finishReason == Some("MAX_TOKENS")
    ensures (!Contains(text, "debug:safety") && !Contains(text, "debug:copyright") && !Contains(text, "debug:length")
      && Contains(text, "debug:other")) ==> r.finishReason == Some("OTHER")
    ensures (!Contains(text, "debug:safety") && !Contains(text, "debug:copyright") && !Contains(text, "debug:length")
      && !Contains(text, "debug:other")) ==> r == c
  {
    if Contains(text, "debug:safety") then c.(finishReason := Some("SAFETY"))
    else if Contains(text, "debug:copyright") then c.(finishReason := Some("RECITATION"))
    else if Contains(text, "debug:length") then c.(finishReason := Some("MAX_TOKENS"))
    else if Contains(text, "debug:other") then c.(finishReason := Some("OTHER"))
    else c
  }

  predicate HasCandidates(r: Response) {
    r.candidates.Some? && |r.candidates.value| > 0
  }

  /** The reply after the debug triggers `debug:block`, `debug:safety`, `debug:copyright`, `debug:length` and `debug:other`. */
  function DebugResponse(text: string, r: Response): (out: Response)
    ensures Contains(text, "debug:block") ==> out.blockReason == Some("PROHIBITED_CONTENT") && !HasCandidates(out)
    ensures !Contains(text, "debug:block") ==> out.blockReason == r.blockReason && HasCandidates(out) == HasCandidates(r)
    ensures !Contains(text, "debug:block") && HasCandidates(r) ==>
      out == r.(candidates := Some([ForceFinishReason(text, r.candidates.value[0])] + r.candidates.value[1..]))
    ensures !Contains(text, "debug:block") && !HasCandidates(r) ==> out == r
  {
    var blocked := if Contains(text, "debug:block") then r.(candidates := None, blockReason := Some("PROHIBITED_CONTENT")) else r;
    if HasCandidates(blocked) then
      var cs := blocked.candidates.value;
      blocked.(candidates := Some([ForceFinishReason(text, cs[0])] + cs[1..]))
    else blocked
  }

  const NoCandidatesMessage: string := "No response candidates returned from Gemini API."

  function BlockedMessage(reason: string): string {
    "Prompt blocked by safety filters: " + reason
  }

  /** What `sendMessage` returns or throws. */
  function SendResult(history: seq<Content>, model: string, systemInstruction: Option<string>, parts: seq<Part>,
                      generation: Option<GenerationSettings>, dummyUser: Option<string>, dummyModel: Option<string>,
                      reply: BackendReply): SendOutcome
  {
    var text := DebugText(parts);
    if DebugError(text).Some? then Thrown(DebugError(text).value, None)
    else
      var payload := RequestPayload(model, RequestContents(history, parts, dummyUser, dummyModel), BuildConfig(generation, systemInstruction));
      ReplyOutcome(text, reply, payload)
  }

  /** How `sendMessage` treats the backend's reply to a request it sent. */
  function ReplyOutcome(text: string, reply: BackendReply, payload: RequestPayload): SendOutcome {
    match reply
    case Rejected(e) => Thrown(e, Some(payload))
    case Resolved(r) =>
      var adjusted := DebugResponse(text, r);
      if Present(adjusted.blockReason) then Thrown(Failure(None, BlockedMessage(adjusted.blockReason.value)), Some(payload))
      else if !HasCandidates(adjusted) then Thrown(Failure(None, NoCandidatesMessage), Some(payload))
      else Sent(adjusted, payload)
  }

  /**
   * The service's history after `sendMessage`.  With parts, the user message is added
   * only when the reply is accepted.  With no parts the request's `contents` is the
   * history array itself, so the dummy prompts pushed onto it stay in the history,
   * whatever the reply.
   */
  function HistoryAfterSend(history: seq<Content>, parts: seq<Part>, dummyUser: Option<string>, dummyModel: Option<string>,
                            outcome: SendOutcome): seq<Content>
  {
    if DebugError(DebugText(parts)).Some? then history
    else if |parts| == 0 then RequestContents(history, parts, dummyUser, dummyModel)
    else if outcome.Sent? then history + [Content("user", parts)]
    else history
  }

  /**
   * `sendMessage` only ever appends to the history; with parts it appends at most the
   * one user message, and does so exactly when the request was sent and accepted.
   */
  lemma HistoryOnlyGrows(history: seq<Content>, parts: seq<Part>, dummyUser: Option<string>, dummyModel: Option<string>,
                         outcome: SendOutcome)
    ensures var h := HistoryAfterSend(history, parts, dummyUser, dummyModel, outcome);
      |history| <= |h| && h[..|history|] == history
    ensures var h := HistoryAfterSend(history, parts, dummyUser, dummyModel, outcome);
      |parts| > 0 ==> |h| <= |history| + 1 && (|h| == |history| + 1 <==> DebugError(DebugText(parts)).None? && outcome.Sent?)
  {
  }

  /** An accepted reply has a candidate and no block reason; a blocked one is always refused. */
  lemma AcceptedReplies(history: seq<Content>, model: string, systemInstruction: Option<string>, parts: seq<Part>,
                        generation: Option<GenerationSettings>, dummyUser: Option<string>, dummyModel: Option<string>,
                        reply: BackendReply)
    ensures var out := SendResult(history, model, systemInstruction, parts, generation, dummyUser, dummyModel, reply);
      && (out.Sent? ==> HasCandidates(out.response) && !Present(out.response.blockReason))
      && (out.Sent? <==> (DebugError(DebugText(parts)).None? && reply.Resolved?
            && !Present(DebugResponse(DebugText(parts), reply.response).blockReason)
            && HasCandidates(DebugResponse(DebugText(parts), reply.response))))
      && (out.Thrown? && DebugError(DebugText(parts)).None? ==> out.attachedPayload.Some?)
  {
  }

  /**
   * The error thrown for a blocked prompt is reported as a blocked prompt, unless the
   * block reason itself names an invalid key.
   */
  lemma BlockedIsPromptBlocked(reason: string)
    ensures var kind := ErrorHandler.AnalyzeError(Failure(None, BlockedMessage(reason))).errorType;
      kind == ErrorHandler.PromptBlocked || ErrorHandler.InvalidKeyMessage(BlockedMessage(reason))
  {
    var m := BlockedMessage(reason);
    assert m[0..14] == "Prompt blocked";
    ContainsWitness(m, "Prompt blocked", 0);
  }

  /**
   * The request's `contents`, and the history after the dummy prompts are pushed onto
   * it: with no parts `contents` is the history array itself, so every push lands in
   * the history too.
   */
  method PushPrompts(history: seq<Content>, parts: seq<Part>, dummyUser: Option<string>, dummyModel: Option<string>)
    returns (contents: seq<Content>, pushed: seq<Content>)
    ensures contents == RequestContents(history, parts, dummyUser, dummyModel)
    ensures pushed == if |parts| == 0 then contents else history
  {
    var aliased := |parts| == 0;
    pushed := history;
    if aliased {
      contents := history;
    } else {
      contents := history + [Content("user", parts)];
    }
    if Present(dummyUser) {
      contents := contents + [Content("user", [TextPart(dummyUser.value)])];
      if aliased { pushed := contents; }
    }
    if Present(dummyModel) {
      contents := contents + [Content("model", [TextPart(dummyModel.value)])];
      if aliased { pushed := contents; }
    }
  }

  /* ---------------- the service ---------------- */

  class GeminiService {
    var apiKey: string
    var modelName: string
    var systemInstruction: Option<string>
    var history: seq<Content>

    constructor(apiKey: string, modelName: string, systemInstruction: Option<string>)
      ensures this.apiKey == apiKey && this.modelName == modelName && this.systemInstruction == systemInstruction
      ensures history == []
    {
      this.apiKey := apiKey;
      this.modelName := modelName;
      this.systemInstruction := systemInstruction;
      history := [];
    }

    /** `startChat`: replaces the history. */
    method StartChat(newHistory: seq<Content>)
      modifies this
      ensures history == NormalizeRoles(newHistory)
      ensures apiKey == old(apiKey) && modelName == old(modelName) && systemInstruction == old(systemInstruction)
    {
      history := NormalizeRoles(newHistory);
    }

    /**
     * `sendMessage`.  `aliased` records that `contents` is the history array itself,
     * so that every push onto it is a push onto the history.
     */
    method SendMessage(parts: seq<Part>, generation: Option<GenerationSettings>, dummyUser: Option<string>,
                       dummyModel: Option<string>, reply: BackendReply) returns (outcome: SendOutcome)
      modifies this
      ensures outcome == SendResult(old(history), modelName, systemInstruction, parts, generation, dummyUser, dummyModel, reply)
      ensures history == HistoryAfterSend(old(history), parts, dummyUser, dummyModel, outcome)
      ensures apiKey == old(apiKey) && modelName == old(modelName) && systemInstruction == old(systemInstruction)
    {
      var debugText := DebugText(parts);
      var debugError := DebugError(debugText);
      if debugError.Some? {
        return Thrown(debugError.value, None);
      }
      var contents, pushed := PushPrompts(history, parts, dummyUser, dummyModel);
      history := pushed;
      var config := AssembleConfig(generation, systemInstruction);
      var payload := RequestPayload(modelName, contents, config);
      outcome := ReplyOutcome(debugText, reply, payload);
      if outcome.Sent? && |parts| > 0 {
        history := history + [Content("user", parts)];
      }
    }
  }
}
