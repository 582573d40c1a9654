/**
 * `ChatSession` (src/lib/state/chat.svelte.ts): the conversation tree of one session,
 * the path on screen, the input box, pending attachments, and a generation that may be
 * waiting for the backend, waiting for a retry timer, or waiting for the user to answer
 * the key-rotation prompt.
 *
 * Each `await` of the source splits an operation: `RunAiGeneration` is the part of
 * `_runAiGeneration` before the backend answers and `CompleteGeneration` the part after,
 * with the backend reply, fresh ids and timestamps as inputs.  The retry timer is the
 * `RetryScheduled` phase and `FireRetry` its callback; the error dialog is the `alert`
 * field and its buttons are methods.
 */
module Chat {
  import opened Types
  import opened Text
  import opened Lists
  import opened Order
  import opened LogTree
  import opened SessionTree
  import opened HiddenText
  import Gemini
  import ErrorHandler
  import MessageComposer
  import Dice
  import AiOrchestrator
  import ImageCorrection

  const ErrorPrefix: string := "エラー: "
  const RotationQuestion: string := "利用上限 (429) に達しました。\n次のAPIキーに切り替えてリトライしますか？"
  const ExpiredFilesQuestion: string := "期限切れのファイルが含まれています。除外して送信しますか？"
  const AttachmentOnlyPreview: string := "(ファイル添付)"
  const NewChatPreview: string := "New Chat"
  const PreviewLength: nat := 30
  const AbortErrorName: string := "AbortError"

  /** The error dialog: closed, a notice, the key-rotation question, or the expired-files question. */
  datatype Alert =
    | NoAlert
    | Info(message: string)
    | RotationPrompt(trigger: Log, history: seq<Log>, originalActiveChildId: Option<Id>)
    | ExpiredFilesPrompt(expired: seq<AttachedFile>)

  function AlertMessage(a: Alert): string {
    match a
    case NoAlert => ""
    case Info(m) => m
    case RotationPrompt(_, _, _) => RotationQuestion
    case ExpiredFilesPrompt(_) => ExpiredFilesQuestion
  }

  /**
   * What the session is waiting for.  `Generating` holds the trigger node, the history
   * sent with it, the `activeChildId` it had before the attempt, the attempt number, and
   * the request built from them; `RetryScheduled` is a pending retry timer.
   */
  datatype Phase =
    | Idle
    | Generating(trigger: Log, history: seq<Log>, originalActiveChildId: Option<Id>, attempt: nat,
                 apiHistory: seq<Content>, apiContent: seq<Part>)
    | RetryScheduled(trigger: Log, history: seq<Log>, nextAttempt: nat, waitMs: int)

  /* ---------------- failure handling ---------------- */

  /** What `_runAiGeneration` does with a failed request. */
  datatype Decision =
    | Stop
    | ScheduleRetry(waitMs: int)
    | PromptRotation
    | Commit(notice: Option<string>)

  /** The wait before retry number `retryCount + 1`: `initialWaitTime`, doubled per earlier retry. */
  function WaitTime(h: ApiErrorHandling, retryCount: nat): int {
    if retryCount == 0 then h.initialWaitTime else 2 * WaitTime(h, retryCount - 1)
  }

  /** The wait is `initialWaitTime * Math.pow(2, retryCount)`. */
  lemma {:induction false} WaitTimeIsPower(h: ApiErrorHandling, retryCount: nat)
    ensures WaitTime(h, retryCount) == h.initialWaitTime * Pow2(retryCount)
  {
    if retryCount > 0 {
      WaitTimeIsPower(h, retryCount - 1);
      assert h.initialWaitTime * Pow2(retryCount) == 2 * (h.initialWaitTime * Pow2(retryCount - 1));
    }
  }

  /** The catch block of `_runAiGeneration` for attempt `retryCount` with `keyCount` keys configured. */
  function Decide(e: ErrorHandler.ApiError, h: ApiErrorHandling, retryCount: nat, keyCount: nat): (r: Decision)
    ensures r.ScheduleRetry? ==> h.exponentialBackoff && retryCount < h.maxRetries && r.waitMs == WaitTime(h, retryCount)
  {
    DecideOn(e.name == AbortErrorName, ErrorHandler.AnalyzeError(e), ErrorHandler.StatusOf(e), h, retryCount, keyCount)
  }

  /** `Decide` once the error is classified: aborted or not, its analysis and its HTTP status. */
  function DecideOn(aborted: bool, analysis: ErrorHandler.ErrorAnalysis, status: Option<int>,
                    h: ApiErrorHandling, retryCount: nat, keyCount: nat): (r: Decision)
    ensures r.ScheduleRetry? ==> h.exponentialBackoff && retryCount < h.maxRetries && r.waitMs == WaitTime(h, retryCount)
  {
    if aborted then Stop
    else if analysis.errorType == ErrorHandler.Retryable && h.exponentialBackoff && retryCount < h.maxRetries then
      ScheduleRetry(WaitTime(h, retryCount))
    else if (status == Some(429) || analysis.errorType == ErrorHandler.QuotaExceeded) && h.loopApiKeys && keyCount > 1 then
      PromptRotation
    else if analysis.errorType in {ErrorHandler.InvalidInput, ErrorHandler.ModelNotFound, ErrorHandler.InvalidHistory}
            || (analysis.errorType == ErrorHandler.KeyExpired && status != Some(429)) then
      Commit(Some(analysis.userMessage))
    else
      Commit(None)
  }

  /**
   * An abort never writes a node; a non-retryable error, or a retryable one once the
   * retries are used up or backoff is off, is committed; rotation is offered only for a
   * quota error with key looping on and more than one key.
   */
  lemma DecideCases(e: ErrorHandler.ApiError, h: ApiErrorHandling, retryCount: nat, keyCount: nat)
    ensures var d := Decide(e, h, retryCount, keyCount);
      var t := ErrorHandler.AnalyzeError(e).errorType;
      && (d.Stop? <==> e.name == AbortErrorName)
      && (d.ScheduleRetry? <==> e.name != AbortErrorName && t == ErrorHandler.Retryable && h.exponentialBackoff && retryCount < h.maxRetries)
      && (d.PromptRotation? ==>
            && h.loopApiKeys && keyCount > 1
            && (ErrorHandler.StatusOf(e) == Some(429) || t == ErrorHandler.QuotaExceeded))
      && ((e.name != AbortErrorName && (t != ErrorHandler.Retryable || !h.exponentialBackoff || retryCount >= h.maxRetries)
           && (keyCount <= 1 || !h.loopApiKeys)) ==> d.Commit?)
  {
  }

  /**
   * The waits of the retries that follow one another when every attempt fails with
   * the same error `e`, starting at attempt `retryCount`.
   */
  function RetryWaits(e: ErrorHandler.ApiError, h: ApiErrorHandling, retryCount: nat, keyCount: nat): seq<int> {
    WaitsOn(e.name == AbortErrorName, ErrorHandler.AnalyzeError(e), ErrorHandler.StatusOf(e), h, retryCount, keyCount)
  }

  function WaitsOn(aborted: bool, analysis: ErrorHandler.ErrorAnalysis, status: Option<int>,
                   h: ApiErrorHandling, retryCount: nat, keyCount: nat): seq<int>
    decreases if h.maxRetries > retryCount then h.maxRetries - retryCount else 0
  {
    match DecideOn(aborted, analysis, status, h, retryCount, keyCount)
    case ScheduleRetry(w) => [w] + WaitsOn(aborted, analysis, status, h, retryCount + 1, keyCount)
    case _ => []
  }

  function Sum(s: seq<int>): int {
    if |s| == 0 then 0 else s[0] + Sum(s[1..])
  }

  /** The waits of `count` consecutive retries, the first of them retry number `from`. */
  function Backoff(h: ApiErrorHandling, from: nat, count: nat): seq<int>
    decreases count
  {
    if count == 0 then [] else [WaitTime(h, from)] + Backoff(h, from + 1, count - 1)
  }

  /** A request that keeps failing with a retryable error is retried until `maxRetries`, with backoff waits. */
  lemma RetryWaitsAreBackoff(e: ErrorHandler.ApiError, h: ApiErrorHandling, retryCount: nat, keyCount: nat)
    requires e.name != AbortErrorName && ErrorHandler.AnalyzeError(e).errorType == ErrorHandler.Retryable
    requires h.exponentialBackoff && retryCount <= h.maxRetries
    ensures RetryWaits(e, h, retryCount, keyCount) == Backoff(h, retryCount, h.maxRetries - retryCount)
  {
    WaitsAreBackoff(false, ErrorHandler.AnalyzeError(e), ErrorHandler.StatusOf(e), h, retryCount, keyCount);
  }

  lemma {:induction false} WaitsAreBackoff(aborted: bool, analysis: ErrorHandler.ErrorAnalysis, status: Option<int>,
                                           h: ApiErrorHandling, retryCount: nat, keyCount: nat)
    requires !aborted && analysis.errorType == ErrorHandler.Retryable
    requires h.exponentialBackoff && retryCount <= h.maxRetries
    ensures WaitsOn(aborted, analysis, status, h, retryCount, keyCount) == Backoff(h, retryCount, h.maxRetries - retryCount)
    decreases h.maxRetries - retryCount
  {
    if retryCount < h.maxRetries {
      WaitsAreBackoff(aborted, analysis, status, h, retryCount + 1, keyCount);
    }
  }

  /** The backoff waits double one after another, so together they come to the next wait minus the first. */
  lemma {:induction false} BackoffWaits(h: ApiErrorHandling, from: nat, count: nat)
    ensures |Backoff(h, from, count)| == count
    ensures forall k :: 0 <= k < count ==> Backoff(h, from, count)[k] == WaitTime(h, from + k)
    ensures Sum(Backoff(h, from, count)) == WaitTime(h, from + count) - WaitTime(h, from)
    decreases count
  {
    if count > 0 {
      var b, rest := Backoff(h, from, count), Backoff(h, from + 1, count - 1);
      BackoffWaits(h, from + 1, count - 1);
      assert b[1..] == rest;
      forall k | 0 <= k < count
        ensures b[k] == WaitTime(h, from + k)
      {
        if k > 0 {
          assert b[k] == rest[k - 1];
        }
      }
      assert WaitTime(h, from + 1) == 2 * WaitTime(h, from);
      assert Sum(b) == WaitTime(h, from) + Sum(rest);
    }
  }

  /**
   * A request that keeps failing with a retryable error is retried `maxRetries - retryCount`
   * times, the k-th wait being `WaitTime(h, retryCount + k)` (that is,
   * `initialWaitTime * 2^(retryCount + k)` by `WaitTimeIsPower`), so the waits add up to
   * `WaitTime(h, maxRetries) - WaitTime(h, retryCount)`.
   */
  lemma RetryWaitsSchedule(e: ErrorHandler.ApiError, h: ApiErrorHandling, retryCount: nat, keyCount: nat)
    requires e.name != AbortErrorName && ErrorHandler.AnalyzeError(e).errorType == ErrorHandler.Retryable
    requires h.exponentialBackoff && retryCount <= h.maxRetries
    ensures var waits := RetryWaits(e, h, retryCount, keyCount);
      && |waits| == h.maxRetries - retryCount
      && (forall k :: 0 <= k < |waits| ==> waits[k] == WaitTime(h, retryCount + k))
      && Sum(waits) == WaitTime(h, h.maxRetries) - WaitTime(h, retryCount)
  {
    var count: nat := h.maxRetries - retryCount;
    var last: nat := h.maxRetries;
    RetryWaitsAreBackoff(e, h, retryCount, keyCount);
    BackoffWaits(h, retryCount, count);
    assert retryCount + count == last;
    assert Sum(RetryWaits(e, h, retryCount, keyCount)) == WaitTime(h, last) - WaitTime(h, retryCount);
  }

  /** With the default policy a failing request waits 1000, 2000 and 4000 ms before its retries. */
  lemma DefaultRetryWaits(e: ErrorHandler.ApiError, keyCount: nat)
    requires e.name != AbortErrorName && ErrorHandler.AnalyzeError(e).errorType == ErrorHandler.Retryable
    ensures RetryWaits(e, DefaultApiErrorHandling, 0, keyCount) == [1000, 2000, 4000]
  {
    RetryWaitsAreBackoff(e, DefaultApiErrorHandling, 0, keyCount);
    var waits := RetryWaits(e, DefaultApiErrorHandling, 0, keyCount);
    assert waits == Backoff(DefaultApiErrorHandling, 0, 3);
    assert WaitTime(DefaultApiErrorHandling, 2) == 4000;
  }

  /* ---------------- key rotation ---------------- */

  predicate UniqueKeyIds(keys: seq<ApiKey>) {
    forall i, j :: 0 <= i < j < |keys| ==> keys[i].id != keys[j].id
  }

  /** The key after the active one, wrapping to the first; an unknown active key gives the first. */
  function NextKeyIndex(keys: seq<ApiKey>, active: Option<Id>): (r: nat)
    requires |keys| > 0
    ensures r < |keys|
  {
    var current := FindIndex(keys, (k: ApiKey) => active == Some(k.id));
    if current + 1 >= |keys| then 0 else current + 1
  }

  /** The settings after `_rotateApiKeyAndRetry` picks the next key; nothing changes with at most one key. */
  function Rotated(s: AppSettings): AppSettings {
    if |s.apiKeys| <= 1 then s
    else s.(activeApiKeyId := Some(s.apiKeys[NextKeyIndex(s.apiKeys, s.activeApiKeyId)].id))
  }

  function RotatedTimes(s: AppSettings, n: nat): AppSettings
    decreases n
  {
    if n == 0 then s else RotatedTimes(Rotated(s), n - 1)
  }

  lemma RotateStep(s: AppSettings, i: nat)
    requires UniqueKeyIds(s.apiKeys) && 1 < |s.apiKeys| && i < |s.apiKeys|
    requires s.activeApiKeyId == Some(s.apiKeys[i].id)
    ensures Rotated(s).activeApiKeyId == Some(s.apiKeys[if i + 1 < |s.apiKeys| then i + 1 else 0].id)
    ensures Rotated(s).apiKeys == s.apiKeys
  {
    var k := FindIndex(s.apiKeys, (key: ApiKey) => s.activeApiKeyId == Some(key.id));
    assert s.apiKeys[k].id == s.apiKeys[i].id;
  }

  /** The index `n` places after `i` going round `m` positions (`(i + n) mod m` for `n <= m`). */
  function Ahead(i: nat, n: nat, m: nat): nat {
    if i + n < m then i + n else i + n - m
  }

  /**
   * Rotation goes round the keys in order: starting from the key at index `i`, the
   * `n`-th rotation (up to a full round) makes the key `n` places further active,
   * wrapping past the last key to the first.
   */
  lemma {:induction false} RotationCycles(s: AppSettings, i: nat, n: nat)
    requires UniqueKeyIds(s.apiKeys) && 1 < |s.apiKeys| && i < |s.apiKeys| && n <= |s.apiKeys|
    requires s.activeApiKeyId == Some(s.apiKeys[i].id)
    ensures Ahead(i, n, |s.apiKeys|) < |s.apiKeys|
    ensures RotatedTimes(s, n).activeApiKeyId == Some(s.apiKeys[Ahead(i, n, |s.apiKeys|)].id)
    ensures RotatedTimes(s, n).apiKeys == s.apiKeys
    decreases n
  {
    if n > 0 {
      var next := Rotated(s);
      RotateStep(s, i);
      var j := if i + 1 < |s.apiKeys| then i + 1 else 0;
      RotationCycles(next, j, n - 1);
      assert Ahead(j, n - 1, |s.apiKeys|) == Ahead(i, n, |s.apiKeys|);
      assert RotatedTimes(s, n) == RotatedTimes(next, n - 1);
    }
  }

  /** A full round of rotations brings back the key it started from, after every other key has had its turn. */
  lemma RotationRound(s: AppSettings, i: nat)
    requires UniqueKeyIds(s.apiKeys) && 1 < |s.apiKeys| && i < |s.apiKeys|
    requires s.activeApiKeyId == Some(s.apiKeys[i].id)
    ensures RotatedTimes(s, |s.apiKeys|).activeApiKeyId == s.activeApiKeyId
    ensures forall n :: 0 < n < |s.apiKeys| ==> RotatedTimes(s, n).activeApiKeyId != s.activeApiKeyId
  {
    RotationCycles(s, i, |s.apiKeys|);
    forall n | 0 < n < |s.apiKeys|
      ensures RotatedTimes(s, n).activeApiKeyId != s.activeApiKeyId
    {
      RotationCycles(s, i, n);
    }
  }

  /** An active id that names no key (or none at all) rotates to the first key. */
  lemma RotationFromUnknown(s: AppSettings)
    requires 1 < |s.apiKeys|
    requires forall k :: 0 <= k < |s.apiKeys| ==> s.activeApiKeyId != Some(s.apiKeys[k].id)
    ensures Rotated(s).activeApiKeyId == Some(s.apiKeys[0].id)
  {
  }

  /* ---------------- the nodes the session writes ---------------- */

  /** The map entry for `trigger`'s id, or `trigger` itself once that entry is gone. */
  function Current(logs: seq<Log>, trigger: Log): Log {
    match Get(logs, trigger.id)
    case Some(l) => l
    case None => trigger
  }

  /** The reply text: the answer with the image URLs corrected, then the finish-reason note. */
  function ReplyText(d: ImageCorrection.Dictionary, result: AiOrchestrator.GenerationResult): string {
    var corrected := ImageCorrection.CorrectedText(d, result.responseText);
    match ErrorHandler.GetFinishReasonMessage(result.finishReason)
    case Some(note) => corrected + note
    case None => corrected
  }

  function ModelLog(id: Id, sessionId: Id, parentId: Id, text: string, timestamp: string, thought: Option<string>): Log {
    Log(id, sessionId, Model, text, timestamp, Some(parentId), None, thought, [])
  }

  /** The error node: the user-facing message after "エラー: ", the technical detail as its thought process. */
  function ErrorLog(id: Id, sessionId: Id, parentId: Id, a: ErrorHandler.ErrorAnalysis, timestamp: string): Log {
    ModelLog(id, sessionId, parentId, ErrorPrefix + a.userMessage, timestamp, Some(a.technicalDetail))
  }

  /** The user node `sendMessage` writes; its thought process repeats the stored text. */
  function UserLog(id: Id, sessionId: Id, text: string, timestamp: string, parent: Option<Id>, files: seq<AttachedFile>): Log {
    Log(id, sessionId, User, text, timestamp, parent, None, Some(text), files)
  }

  /** The id of the last node on screen, the parent of a new message. */
  function LastId(display: seq<Log>): Option<Id> {
    if |display| > 0 then Some(display[|display| - 1].id) else None
  }

  /** The map after a user node is stored under the last node on screen. */
  function WithUserLog(logs: seq<Log>, display: seq<Log>, userLog: Log): seq<Log> {
    match LastId(display)
    case Some(parentId) => SaveNewBranch(logs, parentId, userLog)
    case None => Put(logs, userLog)
  }

  /** Files held in the Files API whose expiry time has passed (ISO-8601 strings compare as text). */
  function ExpiredFiles(files: seq<AttachedFile>, now: string): seq<AttachedFile> {
    Filter(files, (a: AttachedFile) => a.storageType == FireStorage && Present(a.expiration) && Le(a.expiration.value, now))
  }

  /** The session preview: the first 30 characters of the visible part, or a placeholder. */
  function Preview(textToSave: string, withFiles: bool): string {
    var visible := ExtractDisplayText(textToSave);
    var cut := if |visible| <= PreviewLength then visible else visible[..PreviewLength];
    OrIfEmpty(cut, if withFiles then AttachmentOnlyPreview else NewChatPreview)
  }

  /**
   * Without dice, and for any separator-free input, the preview is the start of what
   * the user typed; it is a placeholder only when that is empty.
   */
  lemma PreviewShowsInput(userText: string, settings: AppSettings, draws: Draws, withFiles: bool)
    requires MessageComposer.DicePartFor(userText, settings, draws) != "" || !HasSeparator(userText)
    requires UsesMarkers(settings.diceRollMarkers) ==> !HasSeparator(MessageComposer.DicePartFor(userText, settings, draws))
    ensures var p := Preview(MessageComposer.ComposedText(userText, settings, draws), withFiles);
      && (userText != "" ==> p == userText[..if |userText| <= PreviewLength then |userText| else PreviewLength])
      && (userText == "" ==> p == if withFiles then AttachmentOnlyPreview else NewChatPreview)
  {
    MessageComposer.ComposeRoundTrip(userText, settings, draws);
  }

  /** The map once an attempt starts: the trigger's active child is cleared when it had one. */
  function StartLogs(logs: seq<Log>, trigger: Log): seq<Log> {
    var t := Current(logs, trigger);
    if Present(t.activeChildId) then SetActiveChild(logs, t.id, None) else logs
  }

  /** The phase once an attempt starts: the request built from the history and the trigger's text and files. */
  function StartPhase(logs: seq<Log>, trigger: Log, history: seq<Log>, attempt: nat, settings: AppSettings): Phase {
    var t := Current(logs, trigger);
    var cleared := if Present(t.activeChildId) then t.(activeChildId := None) else t;
    Generating(cleared, history, t.activeChildId, attempt, MessageComposer.FormatHistoryForApi(history),
               MessageComposer.TextParts(t.text, settings) + MessageComposer.AttachmentParts(t.attachments))
  }

  /** The trigger `regenerate` resolves: the node itself if it is a user node, else its parent. */
  function TriggerOf(logs: seq<Log>, logId: Id): Option<Log> {
    match Get(logs, logId)
    case None => None
    case Some(target) =>
      if target.speaker == User then Some(target)
      else if !Present(target.parentId) then None
      else Get(logs, target.parentId.value)
  }

  /** The text `updateLog` stores: corrected when the auto-correct assist is on. */
  function EditedText(settings: AppSettings, d: ImageCorrection.Dictionary, text: string): string {
    if settings.assist.autoCorrectUrl then ImageCorrection.CorrectedText(d, text) else text
  }

  /**
   * Every change the session makes to its node map keeps one node per id, so
   * `ChatSession.logs` stays a map keyed by id: storing a node, re-pointing a parent,
   * committing a branch, starting an attempt, sending, deleting, switching and loading.
   */
  lemma SessionMapStaysUnique(logs: seq<Log>, l: Log, parentId: Id, child: Option<Id>,
                              display: seq<Log>, direction: Direction, stored: seq<Log>)
    requires UniqueIds(logs)
    ensures UniqueIds(Put(logs, l)) && UniqueIds(SetActiveChild(logs, parentId, child))
    ensures UniqueIds(SaveNewBranch(logs, parentId, l)) && UniqueIds(StartLogs(logs, l))
    ensures UniqueIds(WithUserLog(logs, display, l))
    ensures UniqueIds(DeleteNode(logs, parentId)) && UniqueIds(SessionTree.SwitchBranch(logs, parentId, direction))
    ensures UniqueIds(PutAll([], stored))
  {
    PutUnique(logs, l);
    SetActiveChildUnique(logs, parentId, child);
    SaveNewBranchUnique(logs, parentId, l);
    SetActiveChildUnique(logs, l.id, None);
    SetActiveChildUnique(logs, Current(logs, l).id, None);
    if LastId(display).Some? {
      SaveNewBranchUnique(logs, LastId(display).value, l);
    }
    if HasId(logs, parentId) {
      DeleteNodeUnique(logs, parentId);
    }
    if FindNextSiblingId(parentId, direction, logs).Some? {
      SetActiveChildUnique(logs, Get(logs, parentId).value.parentId.value, FindNextSiblingId(parentId, direction, logs));
    }
    PutAllUnique([], stored);
  }

  /** The loop of `load` that copies the stored logs into the map, later logs replacing earlier ones. */
  method LoadLogs(stored: seq<Log>) returns (loaded: seq<Log>)
    ensures loaded == PutAll([], stored)
    ensures UniqueIds(loaded)
  {
    loaded := [];
    for i := 0 to |stored|
      invariant loaded == PutAll([], stored[..i])
    {
      PutAllSnoc([], stored[..i], stored[i]);
      assert stored[..i + 1] == stored[..i] + [stored[i]];
      loaded := Put(loaded, stored[i]);
    }
    assert stored[..|stored|] == stored;
    PutAllUnique([], stored);
  }

  /** `retryStatus`: empty when idle, otherwise "Thinking..." with the attempt count once retrying. */
  function RetryStatusText(isLoading: bool, retryCount: nat, maxRetries: int): (r: string)
    ensures r == "" <==> !isLoading
    ensures isLoading ==> StartsWith(r, "Thinking") && EndsWith(r, "...")
    ensures isLoading && retryCount > 0 ==> Contains(r, NatToString(retryCount) + "/" + IntToString(maxRetries))
  {
    if !isLoading then ""
    else if retryCount > 0 then
      var middle := NatToString(retryCount) + "/" + IntToString(maxRetries);
      var r := "Thinking (" + middle + ")...";
      assert r[|"Thinking ("|..][..|middle|] == middle;
      ContainsWitness(r, middle, |"Thinking ("|);
      r
    else "Thinking..."
  }

  /* ---------------- the session as a value ---------------- */

  /** The fields of a `ChatSession`, as one value. */
  datatype Session = Session(
    logs: seq<Log>, displayLogs: seq<Log>, sessionId: Id, isLoading: bool, inputMessage: string,
    retryCount: nat, attachments: seq<AttachedFile>, phase: Phase, alert: Alert, showCancel: bool,
    costAlert: Option<real>, sessionPreview: Option<string>, settings: AppSettings)

  /** The session once an attempt of `_runAiGeneration` has started and its request is on the way. */
  function Started(s: Session, trigger: Log, history: seq<Log>, attempt: nat): Session {
    var logs := StartLogs(s.logs, trigger);
    s.(logs := logs,
       displayLogs := if Present(Current(s.logs, trigger).activeChildId) then ActivePath(logs) else s.displayLogs,
       phase := StartPhase(s.logs, trigger, history, attempt, s.settings),
       isLoading := true, retryCount := attempt)
  }

  /** The success branch of `_runAiGeneration`: the corrected reply becomes the trigger's active child. */
  function Committed(s: Session, d: ImageCorrection.Dictionary, result: AiOrchestrator.GenerationResult,
                     freshId: Id, timestamp: string): Session
    requires s.phase.Generating?
  {
    var t := s.phase.trigger;
    var stored := SaveNewBranch(Put(s.logs, Current(s.logs, t)), t.id,
                    ModelLog(freshId, s.sessionId, t.id, ReplyText(d, result), timestamp, result.thoughtProcess));
    s.(logs := stored, displayLogs := ActivePath(stored),
       costAlert := if result.costAlertTriggered && result.costThreshold.Some? then result.costThreshold else s.costAlert,
       isLoading := false, retryCount := 0, phase := Idle)
  }

  /** The catch branch of `_runAiGeneration`: the error node and the session, as `Decide` says. */
  function FailedWith(s: Session, error: ErrorHandler.ApiError, freshId: Id, timestamp: string): Session
    requires s.phase.Generating?
  {
    var p := s.phase;
    Decided(s, Decide(error, s.settings.apiErrorHandling, p.attempt, |s.settings.apiKeys|),
            ErrorLog(freshId, s.sessionId, p.trigger.id, ErrorHandler.AnalyzeError(error), timestamp))
  }

  /** The session once decision `d` is carried out for the error node `errorLog`. */
  function Decided(s: Session, d: Decision, errorLog: Log): Session
    requires s.phase.Generating?
  {
    var p := s.phase;
    var committed := SaveNewBranch(s.logs, p.trigger.id, errorLog);
    match d
    case Stop => s.(isLoading := false, retryCount := 0, phase := Idle)
    case ScheduleRetry(w) =>
      s.(logs := Put(s.logs, errorLog), retryCount := p.attempt + 1,
         phase := RetryScheduled(p.trigger, p.history, p.attempt + 1, w))
    case PromptRotation =>
      s.(logs := committed, displayLogs := ActivePath(committed),
         alert := RotationPrompt(p.trigger, p.history, p.originalActiveChildId), showCancel := true,
         isLoading := false, phase := Idle)
    case Commit(notice) =>
      s.(logs := committed, displayLogs := ActivePath(committed),
         alert := if notice.Some? then Info(notice.value) else s.alert, showCancel := notice.None? && s.showCancel,
         isLoading := false, retryCount := 0, phase := Idle)
  }

  /** The second half of `_runAiGeneration`, once the backend has answered the request of the phase. */
  function Completed(s: Session, d: ImageCorrection.Dictionary, reply: Gemini.BackendReply, didCross: bool,
                     freshId: Id, timestamp: string): Session
    requires s.phase.Generating?
  {
    match AiOrchestrator.CorrectedGeneration(s.phase.apiHistory, s.phase.apiContent, s.settings, reply, didCross)
    case Generated(result) => Committed(s, d, result, freshId, timestamp)
    case Failed(error) => FailedWith(s, error, freshId, timestamp)
  }

  /**
   * `sendMessage`, with the text the image-correction dictionary is then defined from
   * (the only node of the path, when it is the new user node).
   */
  function Sent(s: Session, draws: Draws, now: string, freshId: Id, timestamp: string): (Session, Option<string>) {
    if s.isLoading || (Trim(s.inputMessage) == "" && |Dice.ActiveDice(s.settings)| == 0 && |s.attachments| == 0) then (s, None)
    else
      var expired := ExpiredFiles(s.attachments, now);
      if |expired| > 0 then (s.(alert := ExpiredFilesPrompt(expired)), None)
      else
        var text := MessageComposer.ComposedText(s.inputMessage, s.settings, draws);
        var userLog := UserLog(freshId, s.sessionId, text, timestamp, LastId(s.displayLogs), s.attachments);
        var stored := WithUserLog(s.logs, s.displayLogs, userLog);
        var path := ActivePath(stored);
        var sent := s.(logs := stored, displayLogs := path, isLoading := true, inputMessage := "", attachments := [],
                       sessionPreview := Some(Preview(text, |s.attachments| > 0)));
        (Started(sent, userLog, Filter(path, (l: Log) => l.id != freshId), 0),
         if |path| == 1 && path[0].speaker == User then Some(path[0].text) else None)
  }

  /** The confirm button of the expired-files question: drop those files and send again. */
  function ExpiredDropped(s: Session, draws: Draws, now: string, freshId: Id, timestamp: string): (Session, Option<string>)
    requires s.alert.ExpiredFilesPrompt?
  {
    var expired := s.alert.expired;
    Sent(s.(attachments := Filter(s.attachments, (a: AttachedFile) => a !in expired), alert := NoAlert), draws, now, freshId, timestamp)
  }

  /**
   * `regenerate`: the trigger's dice are rolled again (a rewrite that is kept even when
   * the trigger is off the path), then generation starts with the path before it.
   */
  function Regenerated(s: Session, logId: Id, draws: Draws): Session {
    if s.isLoading then s
    else match TriggerOf(s.logs, logId)
      case None => s
      case Some(original) =>
        RegeneratedWith(s, original, MessageComposer.ComposedText(ExtractDisplayText(original.text), s.settings, draws))
  }

  /** `regenerate` once the trigger `original` has been re-rolled to `newText`. */
  function RegeneratedWith(s: Session, original: Log, newText: string): Session {
    var trigger := original.(text := newText);
    var rewritten := if newText != original.text then s.(logs := Put(s.logs, trigger), displayLogs := Updated(s.displayLogs, trigger)) else s;
    var k := FindIndex(rewritten.displayLogs, IdIs(original.id));
    if k == -1 then rewritten else Started(rewritten, trigger, rewritten.displayLogs[..k], 0)
  }

  /** The confirm button of the rotation question: `_rotateApiKeyAndRetry` from attempt 0. */
  function RotationConfirmed(s: Session): Session
    requires s.alert.RotationPrompt?
  {
    var closed := s.(alert := NoAlert);
    if |s.settings.apiKeys| <= 1 then closed
    else Started(closed.(settings := Rotated(s.settings)), s.alert.trigger, s.alert.history, 0)
  }

  /* ---------------- the steps, on session values ---------------- */

  /** `_saveNewBranchLog`: store the node, point its parent at it, and recompute the path. */
  method SaveNewBranchLog(logs: seq<Log>, parentId: Id, newLog: Log) returns (stored: seq<Log>, path: seq<Log>)
    ensures stored == SaveNewBranch(logs, parentId, newLog) && path == ActivePath(stored)
  {
    stored := Put(logs, newLog);
    var parentRef := Get(stored, parentId);
    if parentRef.Some? {
      stored := Put(stored, parentRef.value.(activeChildId := Some(newLog.id)));
    }
    path := CalculateActivePath(stored);
  }

  /** The first half of `_runAiGeneration`: clear the trigger's active child and build the request. */
  method StartStep(s: Session, trigger: Log, history: seq<Log>, attempt: nat) returns (r: Session)
    ensures r == Started(s, trigger, history, attempt)
  {
    r := s.(isLoading := true, retryCount := attempt);
    var t := Current(s.logs, trigger);
    var originalActiveChildId := t.activeChildId;
    if Present(originalActiveChildId) {
      var logs := SetActiveChild(s.logs, t.id, None);
      var path := CalculateActivePath(logs);
      r := r.(logs := logs, displayLogs := path);
      t := t.(activeChildId := None);
    }
    var apiHistory := MessageComposer.FormatHistoryForApi(history);
    var apiContent := MessageComposer.CreateApiPayload(t.text, s.settings, t.attachments);
    r := r.(phase := Generating(t, history, originalActiveChildId, attempt, apiHistory, apiContent));
  }

  /** The success branch: correct the image URLs, add the finish-reason note, raise the cost alert, commit. */
  method CommitStep(s: Session, corrector: ImageCorrection.Corrector, result: AiOrchestrator.GenerationResult,
                    freshId: Id, timestamp: string) returns (r: Session)
    requires s.phase.Generating?
    ensures r == Committed(s, corrector.dictionary, result, freshId, timestamp)
  {
    var trigger := s.phase.trigger;
    var correctedText := corrector.CorrectText(result.responseText);
    var finishMessage := ErrorHandler.GetFinishReasonMessage(result.finishReason);
    var finalText := if finishMessage.Some? then correctedText + finishMessage.value else correctedText;
    r := s;
    if result.costAlertTriggered && result.costThreshold.Some? {
      r := r.(costAlert := result.costThreshold);
    }
    var logs := Put(s.logs, Current(s.logs, trigger));
    var aiLog := ModelLog(freshId, s.sessionId, trigger.id, finalText, timestamp, result.thoughtProcess);
    var stored, path := SaveNewBranchLog(logs, trigger.id, aiLog);
    r := r.(logs := stored, displayLogs := path, isLoading := false, retryCount := 0, phase := Idle);
  }

  /** The catch branch: stop on an abort, keep the error node for a retry, or commit it. */
  method FailStep(s: Session, error: ErrorHandler.ApiError, freshId: Id, timestamp: string) returns (r: Session)
    requires s.phase.Generating?
    ensures r == FailedWith(s, error, freshId, timestamp)
  {
    var errorLog := ErrorLog(freshId, s.sessionId, s.phase.trigger.id, ErrorHandler.AnalyzeError(error), timestamp);
    var d := Decide(error, s.settings.apiErrorHandling, s.phase.attempt, |s.settings.apiKeys|);
    r := DecideStep(s, d, errorLog);
  }

  /** Carrying out the decision of the catch branch. */
  method DecideStep(s: Session, d: Decision, errorLog: Log) returns (r: Session)
    requires s.phase.Generating?
    ensures r == Decided(s, d, errorLog)
  {
    var trigger, history, attempt := s.phase.trigger, s.phase.history, s.phase.attempt;
    r := s;
    match d
    case Stop =>
      r := r.(isLoading := false, retryCount := 0, phase := Idle);
    case ScheduleRetry(waitMs) =>
      r := r.(logs := Put(s.logs, errorLog), retryCount := attempt + 1, phase := RetryScheduled(trigger, history, attempt + 1, waitMs));
    case PromptRotation =>
      var stored, path := SaveNewBranchLog(s.logs, trigger.id, errorLog);
      r := r.(logs := stored, displayLogs := path, alert := RotationPrompt(trigger, history, s.phase.originalActiveChildId));
      r := r.(isLoading := false, showCancel := true, phase := Idle);
    case Commit(notice) =>
      var stored, path := SaveNewBranchLog(s.logs, trigger.id, errorLog);
      r := r.(logs := stored, displayLogs := path);
      if notice.Some? {
        r := r.(alert := Info(notice.value), showCancel := false);
      }
      r := r.(isLoading := false, retryCount := 0, phase := Idle);
  }

  /** The backend has answered: run `generate` on the reply, then the success or the catch branch. */
  method CompleteStep(s: Session, corrector: ImageCorrection.Corrector, reply: Gemini.BackendReply, didCross: bool,
                      freshId: Id, timestamp: string) returns (r: Session)
    requires s.phase.Generating?
    ensures r == Completed(s, corrector.dictionary, reply, didCross, freshId, timestamp)
  {
    var g := AiOrchestrator.Generate(s.phase.apiHistory, s.phase.apiContent, s.settings, reply, didCross);
    if g.Generated? {
      r := CommitStep(s, corrector, g.result, freshId, timestamp);
    } else {
      r := FailStep(s, g.error, freshId, timestamp);
    }
  }

  /** The user node of `sendMessage` goes under the last node on screen (as its active child) or becomes a root. */
  method StoreUserLog(logs: seq<Log>, display: seq<Log>, userLog: Log) returns (stored: seq<Log>, path: seq<Log>)
    ensures stored == WithUserLog(logs, display, userLog) && path == ActivePath(stored)
  {
    var parentLog := LastId(display);
    if parentLog.Some? {
      stored, path := SaveNewBranchLog(logs, parentLog.value, userLog);
    } else {
      stored := Put(logs, userLog);
      path := CalculateActivePath(stored);
    }
  }

  /** The body of `sendMessage` on the session's values. */
  method SendStep(s: Session, draws: Draws, now: string, freshId: Id, timestamp: string)
    returns (r: Session, dictionaryText: Option<string>)
    ensures (r, dictionaryText) == Sent(s, draws, now, freshId, timestamp)
  {
    r, dictionaryText := s, None;
    if s.isLoading {
      return;
    }
    var activeDice := Dice.ActiveDice(s.settings);
    var hasDice := |activeDice| > 0;
    var hasAttachments := |s.attachments| > 0;
    if Trim(s.inputMessage) == "" && !hasDice && !hasAttachments {
      return;
    }
    var expiredFiles := ExpiredFiles(s.attachments, now);
    if |expiredFiles| > 0 {
      r := s.(alert := ExpiredFilesPrompt(expiredFiles));
      return;
    }
    var userCleanText := s.inputMessage;
    var currentAttachments := s.attachments;
    var textToSave, _ := MessageComposer.Compose(userCleanText, s.settings, draws);
    var sessionPreview := Preview(textToSave, |currentAttachments| > 0);
    var userLog := UserLog(freshId, s.sessionId, textToSave, timestamp, LastId(s.displayLogs), currentAttachments);
    var stored, path := StoreUserLog(s.logs, s.displayLogs, userLog);
    if |path| == 1 && path[0].speaker == User {
      dictionaryText := Some(path[0].text);
    }
    var history := Filter(path, (l: Log) => l.id != userLog.id);
    r := s.(logs := stored, displayLogs := path, isLoading := true, inputMessage := "", attachments := [],
            sessionPreview := Some(sessionPreview));
    r := StartStep(r, userLog, history, 0);
  }

  /** The body of `regenerate` on the session's values. */
  method RegenerateStep(s: Session, logId: Id, draws: Draws) returns (r: Session)
    ensures r == Regenerated(s, logId, draws)
  {
    r := s;
    if s.isLoading {
      return;
    }
    var triggerUserLog := TriggerOf(s.logs, logId);
    if triggerUserLog.None? {
      return;
    }
    var trigger := triggerUserLog.value;
    var originalText := trigger.text;
    var newText := MessageComposer.Recompose(originalText, s.settings, draws);
    trigger := trigger.(text := newText);
    if newText != originalText {
      r := r.(logs := Put(r.logs, trigger), displayLogs := Updated(r.displayLogs, trigger));
    }
    var currentPath := r.displayLogs;
    var parentIndex := FindIndex(currentPath, IdIs(trigger.id));
    if parentIndex == -1 {
      return;
    }
    var historyLogs := currentPath[..parentIndex];
    r := StartStep(r, trigger, historyLogs, 0);
  }

  /** `_rotateApiKeyAndRetry`: the key after the active one, wrapping to the first, then attempt 0. */
  method RotationStep(s: Session) returns (r: Session)
    requires s.alert.RotationPrompt?
    ensures r == RotationConfirmed(s)
  {
    var trigger, history := s.alert.trigger, s.alert.history;
    r := s.(alert := NoAlert);
    var keys := s.settings.apiKeys;
    if |keys| <= 1 {
      return;
    }
    var active := s.settings.activeApiKeyId;
    var currentIndex := FindIndex(keys, (k: ApiKey) => active == Some(k.id));
    var nextIndex := currentIndex + 1;
    if nextIndex >= |keys| {
      nextIndex := 0;
    }
    r := r.(settings := s.settings.(activeApiKeyId := Some(keys[nextIndex].id)));
    r := StartStep(r, trigger, history, 0);
  }

  /* ---------------- what the steps promise ---------------- */

  /**
   * Starting an attempt clears the trigger's active child, when it had one, and keeps
   * the old value in the phase; no other node changes.
   */
  lemma StartClearsActiveChild(s: Session, trigger: Log, history: seq<Log>, attempt: nat)
    requires UniqueIds(s.logs) && HasId(s.logs, trigger.id)
    ensures var r := Started(s, trigger, history, attempt);
      var t := Get(s.logs, trigger.id).value;
      && UniqueIds(r.logs)
      && Get(r.logs, trigger.id) == Some(if Present(t.activeChildId) then t.(activeChildId := None) else t)
      && (forall id :: id != trigger.id ==> Get(r.logs, id) == Get(s.logs, id))
      && r.phase.Generating? && r.phase.trigger == Get(r.logs, trigger.id).value
      && r.phase.originalActiveChildId == t.activeChildId && r.phase.history == history
      && r.isLoading && r.retryCount == r.phase.attempt == attempt
  {
    var t := Get(s.logs, trigger.id).value;
    if Present(t.activeChildId) {
      PutProperties(s.logs, t.(activeChildId := None));
    }
  }

  /**
   * A reply is committed as the trigger's active child: the new node is stored under
   * the trigger, the trigger points at it, every other node is as it was, the path is
   * recomputed and the session is idle again.
   */
  lemma CommitMakesReplyActive(s: Session, d: ImageCorrection.Dictionary, result: AiOrchestrator.GenerationResult,
                               freshId: Id, timestamp: string)
    requires s.phase.Generating? && UniqueIds(s.logs) && HasId(s.logs, s.phase.trigger.id) && freshId != s.phase.trigger.id
    ensures var r := Committed(s, d, result, freshId, timestamp);
      var t := Get(s.logs, s.phase.trigger.id).value;
      && UniqueIds(r.logs)
      && Get(r.logs, freshId) == Some(ModelLog(freshId, s.sessionId, t.id, ReplyText(d, result), timestamp, result.thoughtProcess))
      && Get(r.logs, t.id) == Some(t.(activeChildId := Some(freshId)))
      && (forall id :: id != freshId && id != t.id ==> Get(r.logs, id) == Get(s.logs, id))
      && r.displayLogs == ActivePath(r.logs)
      && !r.isLoading && r.retryCount == 0 && r.phase == Idle
  {
    var t := Get(s.logs, s.phase.trigger.id).value;
    var logs := Put(s.logs, t);
    PutProperties(s.logs, t);
    assert Get(logs, t.id) == Some(t);
    SaveNewBranchProperties(logs, t.id,
      ModelLog(freshId, s.sessionId, t.id, ReplyText(d, result), timestamp, result.thoughtProcess));
  }

  /**
   * A failed request: an abort writes no node; a retryable error, with backoff on and
   * retries left, stores the error node without attaching it and waits
   * `initialWaitTime * 2^attempt`; any other error commits the error node as the
   * trigger's active child.
   */
  lemma FailureOutcomes(s: Session, error: ErrorHandler.ApiError, freshId: Id, timestamp: string)
    requires s.phase.Generating? && UniqueIds(s.logs) && HasId(s.logs, s.phase.trigger.id) && freshId != s.phase.trigger.id
    ensures var r := FailedWith(s, error, freshId, timestamp);
      var p := s.phase;
      var h := s.settings.apiErrorHandling;
      var errorLog := ErrorLog(freshId, s.sessionId, p.trigger.id, ErrorHandler.AnalyzeError(error), timestamp);
      var t := Get(s.logs, p.trigger.id).value;
      && UniqueIds(r.logs)
      && (error.name == AbortErrorName ==> r.logs == s.logs && !r.isLoading && r.retryCount == 0 && r.phase == Idle)
      && (r.phase.RetryScheduled? <==>
            error.name != AbortErrorName && ErrorHandler.AnalyzeError(error).errorType == ErrorHandler.Retryable
            && h.exponentialBackoff && p.attempt < h.maxRetries)
      && (r.phase.RetryScheduled? ==>
            && Get(r.logs, freshId) == Some(errorLog) && Get(r.logs, t.id) == Some(t)
            && r.phase.waitMs == h.initialWaitTime * Pow2(p.attempt) && r.retryCount == p.attempt + 1)
      && (error.name != AbortErrorName && !r.phase.RetryScheduled? ==>
            && Get(r.logs, freshId) == Some(errorLog) && Get(r.logs, t.id) == Some(t.(activeChildId := Some(freshId)))
            && r.displayLogs == ActivePath(r.logs) && !r.isLoading && r.phase == Idle)
      && (error.name != AbortErrorName ==> forall id :: id != freshId && id != t.id ==> Get(r.logs, id) == Get(s.logs, id))
  {
    var p := s.phase;
    var h := s.settings.apiErrorHandling;
    var errorLog := ErrorLog(freshId, s.sessionId, p.trigger.id, ErrorHandler.AnalyzeError(error), timestamp);
    DecideCases(error, h, p.attempt, |s.settings.apiKeys|);
    WaitTimeIsPower(h, p.attempt);
    PutProperties(s.logs, errorLog);
    SaveNewBranchProperties(s.logs, p.trigger.id, errorLog);
  }

  /**
   * Declining the rotation question gives the trigger back the active child it had when
   * the attempt started: clearing it, committing the error node under the trigger and
   * restoring it leave the trigger as it was.
   */
  lemma DeclineRestoresActiveChild(logs: seq<Log>, trigger: Log, errorLog: Log)
    requires UniqueIds(logs) && HasId(logs, trigger.id) && errorLog.id != trigger.id
    requires Present(Current(logs, trigger).activeChildId)
    ensures var original := Current(logs, trigger).activeChildId;
      var committed := SaveNewBranch(StartLogs(logs, trigger), trigger.id, errorLog);
      Get(SetActiveChild(committed, trigger.id, original), trigger.id) == Get(logs, trigger.id)
  {
    var t := Get(logs, trigger.id).value;
    var started := StartLogs(logs, trigger);
    if Present(t.activeChildId) {
      PutProperties(logs, t.(activeChildId := None));
    }
    assert Get(started, trigger.id) == Some(if Present(t.activeChildId) then t.(activeChildId := None) else t);
    SetActiveChildUnique(logs, t.id, None);
    SaveNewBranchProperties(started, trigger.id, errorLog);
    var committed := SaveNewBranch(started, trigger.id, errorLog);
    PutProperties(committed, Get(committed, trigger.id).value.(activeChildId := t.activeChildId));
  }

  /** `sendMessage` does nothing while loading, or for a blank message with no dice and no files. */
  lemma SendIgnored(s: Session, draws: Draws, now: string, freshId: Id, timestamp: string)
    requires s.isLoading || (Trim(s.inputMessage) == "" && |Dice.ActiveDice(s.settings)| == 0 && |s.attachments| == 0)
    ensures Sent(s, draws, now, freshId, timestamp) == (s, None)
  {
  }

  /**
   * A message that goes out is stored as a user node under the last node on screen,
   * which now points at it; the input and the attachments are cleared, and generation
   * starts at attempt 0 with the new path minus the new node as history.
   */
  lemma SendStoresUserNode(s: Session, draws: Draws, now: string, freshId: Id, timestamp: string)
    requires !s.isLoading && (Trim(s.inputMessage) != "" || |Dice.ActiveDice(s.settings)| > 0 || |s.attachments| > 0)
    requires |ExpiredFiles(s.attachments, now)| == 0
    requires UniqueIds(s.logs) && !HasId(s.logs, freshId) && (forall l :: l in s.displayLogs ==> HasId(s.logs, l.id))
    ensures var r := Sent(s, draws, now, freshId, timestamp).0;
      var text := MessageComposer.ComposedText(s.inputMessage, s.settings, draws);
      var parent := LastId(s.displayLogs);
      && UniqueIds(r.logs)
      && Get(r.logs, freshId) == Some(UserLog(freshId, s.sessionId, text, timestamp, parent, s.attachments))
      && (parent.Some? ==> Get(r.logs, parent.value).Some? && Get(r.logs, parent.value).value.activeChildId == Some(freshId))
      && (forall id :: id != freshId && (parent.None? || id != parent.value) ==> Get(r.logs, id) == Get(s.logs, id))
      && r.inputMessage == "" && r.attachments == [] && r.isLoading && r.retryCount == 0
      && r.phase.Generating? && r.phase.attempt == 0
      && r.phase.history == Filter(ActivePath(r.logs), (l: Log) => l.id != freshId)
  {
    var text := MessageComposer.ComposedText(s.inputMessage, s.settings, draws);
    var userLog := UserLog(freshId, s.sessionId, text, timestamp, LastId(s.displayLogs), s.attachments);
    UserLogStored(s.logs, s.displayLogs, userLog);
    assert StartLogs(WithUserLog(s.logs, s.displayLogs, userLog), userLog) == WithUserLog(s.logs, s.displayLogs, userLog);
  }

  lemma UserLogStored(logs: seq<Log>, display: seq<Log>, userLog: Log)
    requires UniqueIds(logs) && !HasId(logs, userLog.id) && (forall l :: l in display ==> HasId(logs, l.id))
    requires userLog.activeChildId == None
    ensures var stored := WithUserLog(logs, display, userLog);
      var parent := LastId(display);
      && UniqueIds(stored)
      && Get(stored, userLog.id) == Some(userLog)
      && (parent.Some? ==> Get(stored, parent.value).Some? && Get(stored, parent.value).value.activeChildId == Some(userLog.id))
      && (forall id :: id != userLog.id && (parent.None? || id != parent.value) ==> Get(stored, id) == Get(logs, id))
  {
    var parent := LastId(display);
    if parent.Some? {
      assert display[|display| - 1] in display;
      SaveNewBranchProperties(logs, parent.value, userLog);
    } else {
      PutProperties(logs, userLog);
    }
  }

  /** Once the expired files are dropped, sending at the same time finds none expired. */
  lemma ExpiredFilesDropped(files: seq<AttachedFile>, now: string)
    ensures var expired := ExpiredFiles(files, now);
      ExpiredFiles(Filter(files, (a: AttachedFile) => a !in expired), now) == []
  {
    var expired := ExpiredFiles(files, now);
    var kept := Filter(files, (a: AttachedFile) => a !in expired);
    var isExpired := (a: AttachedFile) => a.storageType == FireStorage && Present(a.expiration) && Le(a.expiration.value, now);
    forall a | a in kept
      ensures !isExpired(a)
    {
      var i :| 0 <= i < |kept| && kept[i] == a;
      var j :| 0 <= j < |files| && files[j] == a;
    }
    FilterNone(kept, isExpired);
  }

  /**
   * `regenerate` is a no-op while loading or when no trigger resolves; otherwise the
   * re-rolled text is stored (and kept even when the trigger is off the path, which only
   * resets loading), and on the path generation starts with the nodes before the trigger.
   */
  lemma RegenerateCases(s: Session, logId: Id, draws: Draws)
    requires UniqueIds(s.logs)
    ensures s.isLoading || TriggerOf(s.logs, logId).None? ==> Regenerated(s, logId, draws) == s
    ensures !s.isLoading && TriggerOf(s.logs, logId).Some? ==>
      var original := TriggerOf(s.logs, logId).value;
      var newText := MessageComposer.ComposedText(ExtractDisplayText(original.text), s.settings, draws);
      var r := Regenerated(s, logId, draws);
      var shown := if newText != original.text then Updated(s.displayLogs, original.(text := newText)) else s.displayLogs;
      var k := FindIndex(shown, IdIs(original.id));
      && Get(r.logs, original.id).Some? && Get(r.logs, original.id).value.text == newText
      && (k == -1 ==> !r.isLoading && r.phase == s.phase && r.displayLogs == shown)
      && (k >= 0 ==> r.isLoading && r.retryCount == 0 && r.phase.Generating? && r.phase.attempt == 0
                     && r.phase.history == shown[..k] && (forall l :: l in r.phase.history ==> l.id != original.id))
  {
    if !s.isLoading && TriggerOf(s.logs, logId).Some? {
      var original := TriggerOf(s.logs, logId).value;
      var newText := MessageComposer.ComposedText(ExtractDisplayText(original.text), s.settings, draws);
      RegeneratedWithCases(s, original, newText);
    }
  }

  lemma RegeneratedWithCases(s: Session, original: Log, newText: string)
    requires !s.isLoading && UniqueIds(s.logs) && Get(s.logs, original.id) == Some(original)
    ensures var r := RegeneratedWith(s, original, newText);
      var shown := if newText != original.text then Updated(s.displayLogs, original.(text := newText)) else s.displayLogs;
      var k := FindIndex(shown, IdIs(original.id));
      && Get(r.logs, original.id).Some? && Get(r.logs, original.id).value.text == newText
      && (k == -1 ==> !r.isLoading && r.phase == s.phase && r.displayLogs == shown)
      && (k >= 0 ==> r.isLoading && r.retryCount == 0 && r.phase.Generating? && r.phase.attempt == 0
                     && r.phase.history == shown[..k] && (forall l :: l in r.phase.history ==> l.id != original.id))
  {
    var trigger := original.(text := newText);
    var rewritten := if newText != original.text then s.(logs := Put(s.logs, trigger), displayLogs := Updated(s.displayLogs, trigger)) else s;
    PutProperties(s.logs, trigger);
    assert Get(rewritten.logs, original.id) == Some(trigger);
    var k := FindIndex(rewritten.displayLogs, IdIs(original.id));
    if k >= 0 {
      StartClearsActiveChild(rewritten, trigger, rewritten.displayLogs[..k], 0);
      BeforeFirstMatch(rewritten.displayLogs, original.id);
    }
  }

  /** The nodes before the first one with id `id` all have other ids. */
  lemma BeforeFirstMatch(path: seq<Log>, id: Id)
    ensures var k := FindIndex(path, IdIs(id));
      k >= 0 ==> forall l :: l in path[..k] ==> l.id != id
  {
    var k := FindIndex(path, IdIs(id));
    if k >= 0 {
      forall l | l in path[..k] ensures l.id != id {
        var j :| 0 <= j < k && path[..k][j] == l;
        assert !IdIs(id)(path[j]);
      }
    }
  }

  /**
   * Confirming the rotation question closes it and makes the next key active; with more
   * than one key the same trigger and history are sent again from attempt 0.
   */
  lemma RotationRestarts(s: Session)
    requires s.alert.RotationPrompt?
    ensures var r := RotationConfirmed(s);
      && r.alert == NoAlert && r.settings == Rotated(s.settings)
      && (|s.settings.apiKeys| <= 1 ==> r == s.(alert := NoAlert))
      && (|s.settings.apiKeys| > 1 ==>
            && r.isLoading && r.retryCount == 0 && r.phase.Generating? && r.phase.attempt == 0
            && r.phase.history == s.alert.history && r.phase.trigger.id == Current(s.logs, s.alert.trigger).id)
  {
  }

  class ChatSession {
    var logs: seq<Log>
    var displayLogs: seq<Log>
    var sessionId: Id
    var isLoading: bool
    var inputMessage: string
    var retryCount: nat
    var attachments: seq<AttachedFile>
    var phase: Phase
    var alert: Alert
    var showCancel: bool
    /** The cost alert: the threshold it reports, when open. */
    var costAlert: Option<real>
    /** The preview last passed to `createOrUpdateSession`. */
    var sessionPreview: Option<string>
    /** `appSettings.value`, of which the session writes only `activeApiKeyId`. */
    var settings: AppSettings
    /** The image-correction service and its dictionary, shared by all sessions. */
    const corrector: ImageCorrection.Corrector

    constructor(id: Id, appSettings: AppSettings, imageCorrection: ImageCorrection.Corrector)
      ensures State() == Session([], [], id, false, "", 0, [], Idle, NoAlert, false, None, None, appSettings)
      ensures corrector == imageCorrection
    {
      logs, displayLogs, sessionId, isLoading, inputMessage := [], [], id, false, "";
      retryCount, attachments, phase, alert, showCancel := 0, [], Idle, NoAlert, false;
      costAlert, sessionPreview, settings := None, None, appSettings;
      corrector := imageCorrection;
    }

    /** The fields, as one value. */
    function State(): Session
      reads this
    {
      Session(logs, displayLogs, sessionId, isLoading, inputMessage, retryCount, attachments, phase, alert,
              showCancel, costAlert, sessionPreview, settings)
    }

    /** Store a new value of every field. */
    method Become(s: Session)
      modifies this
      ensures State() == s
    {
      SetTree(s.logs, s.displayLogs, s.phase);
      SetStatus(s.isLoading, s.retryCount, s.alert, s.showCancel, s.costAlert);
      SetInput(s.sessionId, s.inputMessage, s.attachments, s.sessionPreview, s.settings);
    }

    method SetTree(newLogs: seq<Log>, newDisplay: seq<Log>, newPhase: Phase)
      modifies this`logs, this`displayLogs, this`phase
      ensures logs == newLogs && displayLogs == newDisplay && phase == newPhase
    {
      logs, displayLogs, phase := newLogs, newDisplay, newPhase;
    }

    method SetStatus(loading: bool, count: nat, newAlert: Alert, cancel: bool, cost: Option<real>)
      modifies this`isLoading, this`retryCount, this`alert, this`showCancel, this`costAlert
      ensures isLoading == loading && retryCount == count && alert == newAlert && showCancel == cancel && costAlert == cost
    {
      isLoading, retryCount, alert, showCancel, costAlert := loading, count, newAlert, cancel, cost;
    }

    method SetInput(id: Id, input: string, files: seq<AttachedFile>, preview: Option<string>, appSettings: AppSettings)
      modifies this`sessionId, this`inputMessage, this`attachments, this`sessionPreview, this`settings
      ensures sessionId == id && inputMessage == input && attachments == files && sessionPreview == preview && settings == appSettings
    {
      sessionId, inputMessage, attachments, sessionPreview, settings := id, input, files, preview, appSettings;
    }

    /** `retryStatus`. */
    function RetryStatus(): string
      reads this
    {
      RetryStatusText(isLoading, retryCount, settings.apiErrorHandling.maxRetries)
    }

    /** `getSiblingInfo`. */
    function SiblingInfo(logId: Id): LogTree.SiblingInfo
      reads this
    {
      GetSiblingInfo(logId, logs)
    }

    /** `removeAttachment`. */
    method RemoveAttachment(id: Id)
      modifies this`attachments
      ensures attachments == Filter(old(attachments), (a: AttachedFile) => a.id != id)
      ensures forall a :: a in attachments <==> a in old(attachments) && a.id != id
    {
      attachments := Filter(attachments, (a: AttachedFile) => a.id != id);
    }

    /**
     * `stopGeneration`: cancels the request or the retry timer and clears loading.  A
     * cancelled request fails with an `AbortError`, whose handling also resets the retry
     * count; a cancelled timer leaves it.
     */
    method StopGeneration()
      modifies this`phase, this`isLoading, this`retryCount
      ensures !isLoading && phase == Idle
      ensures retryCount == if old(phase).Generating? then 0 else old(retryCount)
    {
      if phase.Generating? {
        retryCount := 0;
      }
      phase := Idle;
      isLoading := false;
    }

    /** The first half of `_runAiGeneration`: clear the trigger's active child and send the request. */
    method RunAiGeneration(trigger: Log, history: seq<Log>, attempt: nat)
      modifies this
      ensures State() == Started(old(State()), trigger, history, attempt)
    {
      var next := StartStep(State(), trigger, history, attempt);
      Become(next);
    }

    /**
     * The second half of `_runAiGeneration`, when the backend has answered: commit the
     * reply as the trigger's active child, or handle the failure as `Decide` says.
     */
    method CompleteGeneration(reply: Gemini.BackendReply, didCross: bool, freshId: Id, timestamp: string)
      requires phase.Generating?
      modifies this
      ensures State() == Completed(old(State()), corrector.dictionary, reply, didCross, freshId, timestamp)
    {
      var next := CompleteStep(State(), corrector, reply, didCross, freshId, timestamp);
      Become(next);
    }

    /** The retry timer fires: the next attempt starts with the same trigger and history. */
    method FireRetry()
      requires phase.RetryScheduled?
      modifies this
      ensures State() == Started(old(State()), old(phase).trigger, old(phase).history, old(phase).nextAttempt)
    {
      RunAiGeneration(phase.trigger, phase.history, phase.nextAttempt);
    }

    /** The confirm button of the rotation question. */
    method ConfirmRotation()
      requires alert.RotationPrompt?
      modifies this
      ensures State() == RotationConfirmed(old(State()))
    {
      var next := RotationStep(State());
      Become(next);
    }

    /** The cancel button of the rotation question: give the trigger back the child it showed before. */
    method DeclineRotation()
      requires alert.RotationPrompt?
      modifies this`alert, this`logs, this`displayLogs
      ensures alert == NoAlert
      ensures Present(old(alert).originalActiveChildId) ==>
        var restored := SetActiveChild(old(logs), old(alert).trigger.id, old(alert).originalActiveChildId);
        (logs, displayLogs) == (restored, ActivePath(restored))
      ensures !Present(old(alert).originalActiveChildId) ==> (logs, displayLogs) == old((logs, displayLogs))
    {
      var trigger, original := alert.trigger, alert.originalActiveChildId;
      alert := NoAlert;
      if Present(original) {
        logs := SetActiveChild(logs, trigger.id, original);
        displayLogs := CalculateActivePath(logs);
      }
    }

    /** The confirm button of the expired-files question: drop those files and send again. */
    method ConfirmExpiredFiles(draws: Draws, now: string, freshId: Id, timestamp: string)
      requires alert.ExpiredFilesPrompt?
      modifies this, corrector
      ensures State() == ExpiredDropped(old(State()), draws, now, freshId, timestamp).0
      ensures var text := ExpiredDropped(old(State()), draws, now, freshId, timestamp).1;
        corrector.dictionary == if text.Some? then ImageCorrection.DictionaryOf(text.value) else old(corrector.dictionary)
    {
      var expiredFiles := alert.expired;
      attachments := Filter(attachments, (a: AttachedFile) => a !in expiredFiles);
      alert := NoAlert;
      SendMessage(draws, now, freshId, timestamp);
    }

    /** Any other dialog button: the dialog closes. */
    method CloseAlert()
      modifies this`alert
      ensures alert == NoAlert
    {
      alert := NoAlert;
    }

    /**
     * `sendMessage`: nothing while loading or for a blank message with no dice and no
     * files; the expired-files question when a Files API attachment has expired;
     * otherwise the composed text is stored as a user node under the last node on screen
     * and generation starts with the path before it as history.
     */
    method SendMessage(draws: Draws, now: string, freshId: Id, timestamp: string)
      modifies this, corrector
      ensures State() == Sent(old(State()), draws, now, freshId, timestamp).0
      ensures var text := Sent(old(State()), draws, now, freshId, timestamp).1;
        corrector.dictionary == if text.Some? then ImageCorrection.DictionaryOf(text.value) else old(corrector.dictionary)
    {
      var next, dictionaryText := SendStep(State(), draws, now, freshId, timestamp);
      Become(next);
      if dictionaryText.Some? {
        corrector.DefineDictionary(dictionaryText.value);
      }
    }

    /** `regenerate`. */
    method Regenerate(logId: Id, draws: Draws)
      modifies this
      ensures State() == Regenerated(old(State()), logId, draws)
    {
      var next := RegenerateStep(State(), logId, draws);
      Become(next);
    }

    /** `updateLog`: replace a node's text (corrected when the assist is on) and recompute the path. */
    method UpdateLog(id: Id, text: string)
      modifies this`logs, this`displayLogs
      ensures !HasId(old(logs), id) ==> (logs, displayLogs) == old((logs, displayLogs))
      ensures HasId(old(logs), id) ==>
        var edited := Put(old(logs), Get(old(logs), id).value.(text := EditedText(settings, corrector.dictionary, text)));
        (logs, displayLogs) == (edited, ActivePath(edited))
    {
      var log := Get(logs, id);
      if log.Some? {
        var textToSave := text;
        if settings.assist.autoCorrectUrl {
          textToSave := corrector.CorrectText(text);
        }
        var updatedLog := log.value.(text := textToSave);
        logs := Put(logs, updatedLog);
        displayLogs := CalculateActivePath(logs);
      }
    }

    /**
     * `deleteLog`: move the node's children up to its parent, give the parent a new
     * active child, remove the node and recompute the path.
     */
    method DeleteLog(id: Id)
      modifies this`logs, this`displayLogs
      ensures !HasId(old(logs), id) ==> (logs, displayLogs) == old((logs, displayLogs))
      ensures HasId(old(logs), id) ==> (logs, displayLogs) == (DeleteNode(old(logs), id), ActivePath(DeleteNode(old(logs), id)))
    {
      var targetLog := Get(logs, id);
      if targetLog.None? {
        return;
      }
      var target := targetLog.value;
      var parentId := target.parentId;
      var moved := logs;
      for i := 0 to |logs|
        invariant |moved| == |logs|
        invariant forall j :: 0 <= j < i ==> moved[j] == if logs[j].parentId == Some(id) then logs[j].(parentId := parentId) else logs[j]
        invariant forall j :: i <= j < |logs| ==> moved[j] == logs[j]
      {
        if moved[i].parentId == Some(id) {
          moved := moved[i := moved[i].(parentId := parentId)];
        }
      }
      assert moved == Reparented(logs, id, parentId);
      if Present(parentId) && HasId(logs, parentId.value) {
        var nextActiveId: Option<Id> := None;
        if Present(target.activeChildId) && IsChild(logs, id, target.activeChildId.value) {
          nextActiveId := target.activeChildId;
        }
        if !Present(nextActiveId) {
          nextActiveId := FindNewActiveChildAfterDeletion(parentId.value, id, moved);
        }
        moved := SetActiveChild(moved, parentId.value, nextActiveId);
      }
      logs := Remove(moved, id);
      displayLogs := CalculateActivePath(logs);
    }

    /** `switchBranch`: point the parent at the adjacent sibling and recompute the path. */
    method SwitchBranch(logId: Id, direction: Direction)
      modifies this`logs, this`displayLogs
      ensures logs == SessionTree.SwitchBranch(old(logs), logId, direction)
      ensures displayLogs ==
        if FindNextSiblingId(logId, direction, old(logs)).Some? && HasId(old(logs), Get(old(logs), logId).value.parentId.value)
        then ActivePath(logs) else old(displayLogs)
    {
      var targetSiblingId := FindNextSiblingId(logId, direction, logs);
      if targetSiblingId.None? {
        return;
      }
      var log := Get(logs, logId).value;
      var parentLog := Get(logs, log.parentId.value);
      if parentLog.Some? {
        logs := SetActiveChild(logs, log.parentId.value, targetSiblingId);
        displayLogs := CalculateActivePath(logs);
      }
    }

    /**
     * `load`: an id loads that session's stored logs (`stored`, as the repository returns
     * them); no id starts an empty session under `freshId`.  With the assist on, a first
     * user message defines the image-correction dictionary.
     */
    method Load(id: Option<Id>, stored: seq<Log>, freshId: Id)
      modifies this`logs, this`displayLogs, this`sessionId, this`isLoading, corrector
      ensures var loaded := if Present(id) then PutAll([], stored) else [];
        (logs, displayLogs, isLoading) == (loaded, ActivePath(loaded), false)
      ensures sessionId == if Present(id) then id.value else freshId
      ensures corrector.dictionary ==
        if settings.assist.autoCorrectUrl && |displayLogs| > 0 && displayLogs[0].speaker == User
        then ImageCorrection.DictionaryOf(displayLogs[0].text) else old(corrector.dictionary)
    {
      isLoading := true;
      var loaded: seq<Log> := [];
      if Present(id) {
        sessionId := id.value;
        loaded := LoadLogs(stored);
      } else {
        sessionId := freshId;
      }
      var path := CalculateActivePath(loaded);
      logs, displayLogs := loaded, path;
      if settings.assist.autoCorrectUrl && |path| > 0 && path[0].speaker == User {
        corrector.DefineDictionary(path[0].text);
      }
      isLoading := false;
    }
  }
}
