/**
 * The records the chat client works on (`src/lib/types.ts`) and the constants it
 * shares (`src/lib/constants.ts`).  Optional and nullable fields become `Option`;
 * optional arrays that the code reads with `?? []` become plain sequences.
 */
module Types {

  datatype Option<T> = None | Some(value: T)

  /** A value, or the message of the `Error` the source throws instead. */
  datatype Result<T> = Ok(value: T) | Err(message: string)

  /** JavaScript truthiness of an optional string: defined and not "". */
  predicate Present(o: Option<string>) {
    o.Some? && o.value != ""
  }

  function OrElse(o: Option<string>, default: string): string {
    if o.Some? then o.value else default
  }

  /** The `||` default of the source: the string itself when truthy, otherwise `default`. */
  function OrIfEmpty(s: string, default: string): string {
    if s != "" then s else default
  }

  /** `Math.pow(2, n)` for a non-negative integer exponent. */
  function Pow2(n: nat): (r: nat)
    ensures r >= 1
  {
    if n == 0 then 1 else 2 * Pow2(n - 1)
  }

  type Id = string

  datatype Speaker = User | Model

  datatype StorageType = Inline | FireStorage

  /** An attachment: inline Base64 data, or a reference into the Files API with an expiry. */
  datatype AttachedFile = AttachedFile(
    id: Id,
    name: string,
    mimeType: string,
    storageType: StorageType,
    data: Option<string>,
    fileUri: Option<string>,
    expiration: Option<string>)

  /**
   * One message node of a conversation tree (`LogWithSessionId`).  `parentId` links
   * towards the root; `activeChildId` selects the branch shown below this node.
   */
  datatype Log = Log(
    id: Id,
    sessionId: Id,
    speaker: Speaker,
    text: string,
    timestamp: string,
    parentId: Option<Id>,
    activeChildId: Option<Id>,
    thoughtProcess: Option<string>,
    attachments: seq<AttachedFile>)

  datatype DiceRoll = DiceRoll(id: Id, isEnabled: bool, instructionText: string, diceCount: int, diceType: int)

  datatype CustomChoiceRoll = CustomChoiceRoll(id: Id, isEnabled: bool, instructionText: string, options: seq<string>)

  /** `diceRollMarkers` / `customChoiceMarkers`; an absent `useMultipart` reads as false. */
  datatype Markers = Markers(isEnabled: bool, start: string, end: string, useMultipart: bool)

  /** `markers?.isEnabled ?? false`. */
  predicate UsesMarkers(markers: Option<Markers>) {
    markers.Some? && markers.value.isEnabled
  }

  /** `markers?.start || "["`. */
  function MarkerStart(markers: Option<Markers>): string {
    if markers.Some? then OrIfEmpty(markers.value.start, "[") else "["
  }

  /** `markers?.end || "]"`. */
  function MarkerEnd(markers: Option<Markers>): string {
    if markers.Some? then OrIfEmpty(markers.value.end, "]") else "]"
  }

  datatype ApiKey = ApiKey(id: Id, name: string, key: string)

  datatype ApiErrorHandling = ApiErrorHandling(loopApiKeys: bool, exponentialBackoff: bool, maxRetries: int, initialWaitTime: int)

  datatype AssistSettings = AssistSettings(autoCorrectUrl: bool, saveMinimalMetadata: bool)

  datatype GenerationSettings = GenerationSettings(
    temperature: Option<real>,
    topK: Option<int>,
    topP: Option<real>,
    maxOutputTokens: Option<int>,
    thinkingBudget: Option<int>,
    includeThoughts: bool)

  datatype PromptPreset = PromptPreset(id: Id, title: string, text: string)

  datatype TemplatePromptConfig = TemplatePromptConfig(isEnabled: bool, activePresetId: Id, presets: seq<PromptPreset>)

  datatype TokenUsageAlert = TokenUsageAlert(isEnabled: bool, thresholdUSD: real)

  /** The part of `AppSettings` the modelled code reads. */
  datatype AppSettings = AppSettings(
    apiKeys: seq<ApiKey>,
    activeApiKeyId: Option<Id>,
    model: string,
    systemPrompt: TemplatePromptConfig,
    dummyUserPrompt: TemplatePromptConfig,
    dummyModelPrompt: TemplatePromptConfig,
    apiErrorHandling: ApiErrorHandling,
    assist: AssistSettings,
    generation: GenerationSettings,
    tokenUsageAlert: Option<TokenUsageAlert>,
    diceRolls: seq<DiceRoll>,
    diceRollMarkers: Option<Markers>,
    customChoiceRolls: seq<CustomChoiceRoll>,
    customChoiceMarkers: Option<Markers>)

  /**
   * A part of a request to the model: text, inline Base64 data, a Files API reference,
   * or the text `JSON.stringify(fields)` that the composer makes of dice results.
   */
  datatype Part =
    | TextPart(text: string)
    | InlineData(mimeType: string, data: string)
    | FileData(mimeType: string, fileUri: string)
    | DiceJsonPart(fields: map<string, string>)

  /** One turn of a request: a role ("user" or "model") and its parts. */
  datatype Content = Content(role: string, parts: seq<Part>)

  /** The token counts of a reply (`usageMetadata`); an absent count reads as 0. */
  datatype UsageMetadata = UsageMetadata(
    promptTokenCount: Option<int>,
    candidatesTokenCount: Option<int>,
    cachedContentTokenCount: Option<int>,
    thoughtsTokenCount: Option<int>,
    totalTokenCount: Option<int>)

  /** `n || 0` for an optional count. */
  function CountOrZero(n: Option<int>): int {
    if n.Some? then n.value else 0
  }

  /** The separator between the hidden (dice / choice) part and the visible part of a stored text. */
  const DiceSeparator: string := ":::DICE_SEP:::"

  /** Default retry policy: rotate keys, back off exponentially, 3 retries from 1000 ms. */
  const DefaultApiErrorHandling: ApiErrorHandling := ApiErrorHandling(true, true, 3, 1000)

  /** `Math.random()` calls, in call order: the k-th call returns `draws(k)`. */
  type Draws = nat -> real

  /** `Math.random` returns values in [0, 1). */
  ghost predicate Uniform(draws: Draws) {
    forall k: nat :: 0.0 <= draws(k) < 1.0
  }
}
