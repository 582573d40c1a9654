/**
 * `AiOrchestrator.generate` (src/lib/services/ai-orchestrator.ts): resolves the active
 * key and the prompt presets, runs one request through a fresh `GeminiService`, and
 * turns the reply into the answer text, the reasoning text and the metadata to store.
 * The answer of `TokenCostService.trackUsage` (module `TokenCost`) is the parameter
 * `didCross`: it reads and writes the usage table, which is not part of this call.
 */
module AiOrchestrator {
  import opened Types
  import opened Text
  import opened Lists
  import opened Gemini
  import ErrorHandler

  datatype GenerationResult = GenerationResult(
    responseText: string,
    thoughtProcess: Option<string>,
    requestPayload: RequestPayload,
    tokenUsage: Option<UsageMetadata>,
    costAlertTriggered: bool,
    costThreshold: Option<real>,
    finishReason: Option<string>)

  /** `generate` resolves with a result or rejects with an error. */
  datatype Generated = Generated(result: GenerationResult) | Failed(error: ApiError)

  const NoKeyMessage: string := "APIキーが設定されていません。"
  const NoResponseText: string := "(応答なし)"

  /** `settings.apiKeys.find(k => k.id === settings.activeApiKeyId)`. */
  function ActiveKey(settings: AppSettings): (r: Option<ApiKey>)
    ensures r.Some? <==> settings.activeApiKeyId.Some? && exists k :: k in settings.apiKeys && k.id == settings.activeApiKeyId.value
    ensures r.Some? ==> r.value in settings.apiKeys && r.value.id == settings.activeApiKeyId.value
  {
    if settings.activeApiKeyId.None? then None
    else
      var i := FindIndex(settings.apiKeys, (k: ApiKey) => k.id == settings.activeApiKeyId.value);
      if i < 0 then None else Some(settings.apiKeys[i])
  }

  /** The text of the active preset when the prompt is enabled; `undefined` otherwise or when no preset matches. */
  function PresetText(config: TemplatePromptConfig): (r: Option<string>)
    ensures !config.isEnabled ==> r.None?
    ensures r.Some? ==> exists p :: p in config.presets && p.id == config.activePresetId && p.text == r.value
    ensures config.isEnabled && (exists p :: p in config.presets && p.id == config.activePresetId) ==> r.Some?
    ensures forall i ::
      0 <= i < |config.presets| && config.presets[i].id == config.activePresetId
      && (forall j :: 0 <= j < i ==> config.presets[j].id != config.activePresetId)
      ==> r == (if config.isEnabled then Some(config.presets[i].text) else None)
  {
    if !config.isEnabled then None
    else
      var i := FindIndex(config.presets, (p: PromptPreset) => p.id == config.activePresetId);
      if i < 0 then None else Some(config.presets[i].text)
  }

  /* ---------------- reasoning and answer ---------------- */

  /** `part.text || ""`. */
  function PartText(p: ResponsePart): string {
    OrElse(p.text, "")
  }

  function IsThought(p: ResponsePart): bool {
    p.thought
  }

  /** The texts of `parts`, concatenated in order. */
  function ConcatTexts(parts: seq<ResponsePart>): string {
    if |parts| == 0 then "" else ConcatTexts(parts[..|parts| - 1]) + PartText(parts[|parts| - 1])
  }

  /** The reasoning: the texts of the thought parts, in order. */
  function Thoughts(parts: seq<ResponsePart>): string {
    if |parts| == 0 then ""
    else Thoughts(parts[..|parts| - 1]) + (if parts[|parts| - 1].thought then PartText(parts[|parts| - 1]) else "")
  }

  /** The answer: the texts of all other parts, in order. */
  function Answer(parts: seq<ResponsePart>): string {
    if |parts| == 0 then ""
    else Answer(parts[..|parts| - 1]) + (if parts[|parts| - 1].thought then "" else PartText(parts[|parts| - 1]))
  }

  /** The separating loop of `generate`. */
  method SplitParts(parts: seq<ResponsePart>) returns (responseText: string, thoughtProcess: string)
    ensures responseText == Answer(parts) && thoughtProcess == Thoughts(parts)
  {
    responseText := "";
    thoughtProcess := "";
    var i := 0;
    while i < |parts|
      invariant 0 <= i <= |parts|
      invariant responseText == Answer(parts[..i]) && thoughtProcess == Thoughts(parts[..i])
    {
      assert parts[..i + 1][..i] == parts[..i];
      var part := parts[i];
      if part.thought {
        thoughtProcess := thoughtProcess + OrElse(part.text, "");
      } else {
        responseText := responseText + OrElse(part.text, "");
      }
      i := i + 1;
    }
    assert parts[..i] == parts;
  }

  lemma {:induction false} ConcatTextsAppend(a: seq<ResponsePart>, b: seq<ResponsePart>)
    ensures ConcatTexts(a + b) == ConcatTexts(a) + ConcatTexts(b)
    decreases |b|
  {
    if |b| > 0 {
      assert (a + b)[..|a + b| - 1] == a + b[..|b| - 1];
      ConcatTextsAppend(a, b[..|b| - 1]);
    } else {
      assert a + b == a;
    }
  }

  /**
   * The reasoning is exactly the concatenated texts of the thought parts and the
   * answer exactly those of the other parts: every part goes to one of the two.
   */
  lemma {:induction false} SplitIsPartition(parts: seq<ResponsePart>)
    ensures Thoughts(parts) == ConcatTexts(Filter(parts, IsThought))
    ensures Answer(parts) == ConcatTexts(Filter(parts, (p: ResponsePart) => !p.thought))
    decreases |parts|
  {
    if |parts| > 0 {
      var init := parts[..|parts| - 1];
      var last := parts[|parts| - 1];
      SplitIsPartition(init);
      assert parts == init + [last];
      ConcatFilterSnoc(init, last, IsThought);
      ConcatFilterSnoc(init, last, (p: ResponsePart) => !p.thought);
    }
  }

  /** Filtering and concatenating a sequence one part longer adds that part's text when it passes. */
  lemma ConcatFilterSnoc(init: seq<ResponsePart>, last: ResponsePart, keep: ResponsePart -> bool)
    ensures ConcatTexts(Filter(init + [last], keep)) == ConcatTexts(Filter(init, keep)) + (if keep(last) then PartText(last) else "")
  {
    FilterAppend(init, [last], keep);
    ConcatTextsAppend(Filter(init, keep), Filter([last], keep));
    assert [last][1..] == [];
    assert ConcatTexts([last]) == "" + PartText(last);
  }

  /* ---------------- the result ---------------- */

  /** `result.candidates?.[0]?.content?.parts`, empty when absent. */
  function FirstCandidateParts(r: Response): seq<ResponsePart> {
    if HasCandidates(r) && r.candidates.value[0].parts.Some? then r.candidates.value[0].parts.value else []
  }

  /** The threshold handed to `trackUsage`: the alert threshold when alerts are on and it is positive. */
  function CostThreshold(settings: AppSettings): (r: Option<real>)
    ensures r.Some? <==> (settings.tokenUsageAlert.Some? && settings.tokenUsageAlert.value.isEnabled
                          && settings.tokenUsageAlert.value.thresholdUSD > 0.0)
    ensures r.Some? ==> r.value > 0.0
  {
    var a := settings.tokenUsageAlert;
    if a.Some? && a.value.isEnabled && a.value.thresholdUSD > 0.0 then Some(a.value.thresholdUSD) else None
  }

  /** `contents.slice(-3)`: the last three entries, or all of them when there are fewer. */
  function LastThree(contents: seq<Content>): (r: seq<Content>)
    ensures |r| == if |contents| < 3 then |contents| else 3
    ensures r == contents[|contents| - |r|..]
  {
    if |contents| <= 3 then contents else contents[|contents| - 3..]
  }

  /** `candidate.finishReason` of the first candidate, when there is one. */
  function FirstFinishReason(r: Response): Option<string> {
    if HasCandidates(r) then r.candidates.value[0].finishReason else None
  }

  /** The answer before trimming: the non-thought text, with the fallback when no part has text. */
  function RawAnswer(r: Response): string {
    var parts := FirstCandidateParts(r);
    if Answer(parts) == "" && Thoughts(parts) == "" then OrIfEmpty(OrElse(r.text, ""), NoResponseText) else Answer(parts)
  }

  /**
   * The result `generate` builds from an accepted reply.  As written, the returned
   * object has no `finishReason` field, so the result never carries one.
   */
  function BuildResult(settings: AppSettings, r: Response, payload: RequestPayload, didCross: bool): (g: GenerationResult)
    ensures g.costAlertTriggered ==> g.costThreshold.Some? && r.usage.Some? && didCross
    ensures g.thoughtProcess.Some? ==> g.thoughtProcess.value != ""
    ensures g.tokenUsage == r.usage
  {
    var thoughts := Thoughts(FirstCandidateParts(r));
    var responseText := RawAnswer(r);
    var threshold := if r.usage.Some? then CostThreshold(settings) else None;
    var triggered := r.usage.Some? && didCross && threshold.Some?;
    var meta := if settings.assist.saveMinimalMetadata then payload.(contents := LastThree(payload.contents)) else payload;
    var trimmedThoughts := Trim(thoughts);
    GenerationResult(Trim(responseText), if trimmedThoughts != "" then Some(trimmedThoughts) else None,
      meta, r.usage, triggered, threshold, None)
  }

  /**
   * What the service call of `generate` ends with, or `None` when there is no usable
   * key and `generate` throws before making one.
   */
  function Outcome(apiHistory: seq<Content>, messageContent: seq<Part>, settings: AppSettings, reply: BackendReply): Option<SendOutcome>
  {
    var key := ActiveKey(settings);
    if key.None? || key.value.key == "" then None
    else Some(SendResult(NormalizeRoles(apiHistory), settings.model, PresetText(settings.systemPrompt), messageContent,
      Some(settings.generation), PresetText(settings.dummyUserPrompt), PresetText(settings.dummyModelPrompt), reply))
  }

  /** What `generate` resolves or rejects with, as written. */
  function Generation(apiHistory: seq<Content>, messageContent: seq<Part>, settings: AppSettings,
                      reply: BackendReply, didCross: bool): Generated
  {
    match Outcome(apiHistory, messageContent, settings, reply)
    case None => Failed(Failure(None, NoKeyMessage))
    case Some(Thrown(e, _)) => Failed(e)
    case Some(Sent(r, payload)) => Generated(BuildResult(settings, r, payload, didCross))
  }

  /** `generate` with the first candidate's finish reason passed on, as its result type and its caller expect. */
  function CorrectedGeneration(apiHistory: seq<Content>, messageContent: seq<Part>, settings: AppSettings,
                               reply: BackendReply, didCross: bool): Generated
  {
    match Outcome(apiHistory, messageContent, settings, reply)
    case None => Failed(Failure(None, NoKeyMessage))
    case Some(Thrown(e, _)) => Failed(e)
    case Some(Sent(r, payload)) => Generated(BuildResult(settings, r, payload, didCross).(finishReason := FirstFinishReason(r)))
  }

  /** `generate`, passing on the finish reason. */
  method Generate(apiHistory: seq<Content>, messageContent: seq<Part>, settings: AppSettings,
                  reply: BackendReply, didCross: bool) returns (g: Generated)
    ensures g == CorrectedGeneration(apiHistory, messageContent, settings, reply, didCross)
  {
    var activeKey := ActiveKey(settings);
    if activeKey.None? || activeKey.value.key == "" {
      return Failed(Failure(None, NoKeyMessage));
    }
    var systemPrompt := PresetText(settings.systemPrompt);
    var dummyUserText := PresetText(settings.dummyUserPrompt);
    var dummyModelText := PresetText(settings.dummyModelPrompt);
    var service := new GeminiService(activeKey.value.key, settings.model, systemPrompt);
    service.StartChat(apiHistory);
    var out := service.SendMessage(messageContent, Some(settings.generation), dummyUserText, dummyModelText, reply);
    if out.Thrown? {
      return Failed(out.error);
    }
    var result := AssembleResult(settings, out.response, out.payload, didCross);
    g := Generated(result);
  }

  /** The result `generate` builds from an accepted reply, with the finish reason passed on. */
  method AssembleResult(settings: AppSettings, result: Response, payload: RequestPayload, didCross: bool) returns (r: GenerationResult)
    ensures r == BuildResult(settings, result, payload, didCross).(finishReason := FirstFinishReason(result))
  {
    var responseText, thoughtProcess := SplitParts(FirstCandidateParts(result));
    if responseText == "" && thoughtProcess == "" {
      responseText := OrIfEmpty(OrElse(result.text, ""), NoResponseText);
    }
    var costAlertTriggered := false;
    var costThreshold: Option<real> := None;
    if result.usage.Some? {
      costThreshold := CostThreshold(settings);
      if didCross && costThreshold.Some? {
        costAlertTriggered := true;
      }
    }
    var metaToSave := payload;
    if settings.assist.saveMinimalMetadata {
      metaToSave := payload.(contents := LastThree(payload.contents));
    }
    var trimmedThoughts := Trim(thoughtProcess);
    r := GenerationResult(Trim(responseText), if trimmedThoughts != "" then Some(trimmedThoughts) else None,
      metaToSave, result.usage, costAlertTriggered, costThreshold, FirstFinishReason(result));
  }

  /** A missing or empty key fails before any request is made, with the same error whatever the reply. */
  lemma NoKeyFailsEarly(apiHistory: seq<Content>, messageContent: seq<Part>, settings: AppSettings,
                        reply: BackendReply, didCross: bool)
    requires ActiveKey(settings).None? || ActiveKey(settings).value.key == ""
    ensures CorrectedGeneration(apiHistory, messageContent, settings, reply, didCross) == Failed(Failure(None, NoKeyMessage))
  {
  }

  /** The fallback text has no surrounding whitespace. */
  lemma NoResponseTextTrimmed()
    ensures Trim(NoResponseText) == NoResponseText
  {
    assert NoResponseText == ['(', '応', '答', 'な', 'し', ')'];
    TrimUnchanged(NoResponseText);
  }

  /**
   * The answer of an accepted reply: the non-thought text, or the SDK text when no part
   * has text, or "(応答なし)" when that is empty too; trimmed.
   */
  lemma ResultAnswer(settings: AppSettings, r: Response, payload: RequestPayload, didCross: bool)
    ensures var answer := Answer(FirstCandidateParts(r)); var text := BuildResult(settings, r, payload, didCross).responseText;
      && (answer != "" ==> text == Trim(answer))
      && (answer == "" && Thoughts(FirstCandidateParts(r)) != "" ==> text == "")
      && (answer == "" && Thoughts(FirstCandidateParts(r)) == "" && !Present(r.text) ==> text == NoResponseText)
  {
    assert BuildResult(settings, r, payload, didCross).responseText == Trim(RawAnswer(r));
    TrimmedRawAnswer(r);
  }

  /** The reasoning is absent exactly when it trims to "", and otherwise is the trimmed thought text. */
  lemma ResultReasoning(settings: AppSettings, r: Response, payload: RequestPayload, didCross: bool)
    ensures var thoughts := Trim(Thoughts(FirstCandidateParts(r)));
      BuildResult(settings, r, payload, didCross).thoughtProcess == if thoughts != "" then Some(thoughts) else None
  {
  }

  lemma TrimmedRawAnswer(r: Response)
    ensures var parts := FirstCandidateParts(r);
      && (Answer(parts) != "" ==> Trim(RawAnswer(r)) == Trim(Answer(parts)))
      && (Answer(parts) == "" && Thoughts(parts) != "" ==> Trim(RawAnswer(r)) == "")
      && (Answer(parts) == "" && Thoughts(parts) == "" && !Present(r.text) ==> Trim(RawAnswer(r)) == NoResponseText)
  {
    var parts := FirstCandidateParts(r);
    if Answer(parts) == "" && Thoughts(parts) == "" && !Present(r.text) {
      assert RawAnswer(r) == NoResponseText;
      NoResponseTextTrimmed();
    }
    if Answer(parts) == "" && Thoughts(parts) != "" {
      assert RawAnswer(r) == "";
      TrimUnchanged("");
    }
  }

  /** Minimal metadata keeps the last three turns; a reply without usage raises no alert. */
  lemma ResultMetadata(settings: AppSettings, r: Response, payload: RequestPayload, didCross: bool)
    ensures var g := BuildResult(settings, r, payload, didCross);
      && (settings.assist.saveMinimalMetadata ==> g.requestPayload.contents == LastThree(payload.contents))
      && (!settings.assist.saveMinimalMetadata ==> g.requestPayload == payload)
      && (r.usage.None? ==> g.costThreshold.None? && !g.costAlertTriggered)
      && (g.costAlertTriggered <==> r.usage.Some? && didCross && CostThreshold(settings).Some?)
  {
  }

  /**
   * As written, an accepted reply never carries a finish reason, so a reply cut off by
   * the safety filter gets no note; with the reason passed on, it gets the safety note.
   */
  lemma FinishReasonDropped(apiHistory: seq<Content>, messageContent: seq<Part>, settings: AppSettings,
                            reply: BackendReply, didCross: bool)
    requires var g := CorrectedGeneration(apiHistory, messageContent, settings, reply, didCross);
      g.Generated? && g.result.finishReason == Some("SAFETY")
    ensures var g := Generation(apiHistory, messageContent, settings, reply, didCross);
      g.Generated? && ErrorHandler.GetFinishReasonMessage(g.result.finishReason).None?
    ensures var g := CorrectedGeneration(apiHistory, messageContent, settings, reply, didCross);
      ErrorHandler.GetFinishReasonMessage(g.result.finishReason) == Some(ErrorHandler.SafetyNote)
  {
    FinishReasonKept(apiHistory, messageContent, settings, reply, didCross);
    assert ErrorHandler.GetFinishReasonMessage(None).None?;
    assert ErrorHandler.GetFinishReasonMessage(Some("SAFETY")) == Some(ErrorHandler.SafetyNote);
  }

  /** The corrected result differs from the written one in the finish reason only, which is the first candidate's. */
  lemma FinishReasonKept(apiHistory: seq<Content>, messageContent: seq<Part>, settings: AppSettings,
                         reply: BackendReply, didCross: bool)
    ensures var written := Generation(apiHistory, messageContent, settings, reply, didCross);
      var corrected := CorrectedGeneration(apiHistory, messageContent, settings, reply, didCross);
      var out := Outcome(apiHistory, messageContent, settings, reply);
      && (written.Failed? <==> corrected.Failed?)
      && (written.Failed? ==> written == corrected)
      && (written.Generated? ==>
            (written.result.finishReason.None?
             && corrected.result == written.result.(finishReason := FirstFinishReason(out.value.response))))
  {
  }
}
