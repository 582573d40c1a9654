/**
 * `GeminiErrorHandler` (src/lib/logic/gemini-error-handler.ts): sorts an error thrown
 * by the Gemini client into one of eight kinds, with a message for the user and a
 * detail line for the log; and maps a finish reason to the note appended to a reply.
 */
module ErrorHandler {
  import opened Types
  import opened Text

  /**
   * The fields of a thrown error the client reads.  `status` and `responseStatus` are
   * `error.status` and `error.response?.status` (a numeric status; a non-numeric one is
   * not modelled); `message` is `error.message`; `name` is `error.name`.
   */
  datatype ApiError = ApiError(status: Option<int>, responseStatus: Option<int>, message: Option<string>, name: string)

  datatype ErrorType =
    | Retryable
    | KeyExpired
    | QuotaExceeded
    | InvalidInput
    | InvalidHistory
    | ModelNotFound
    | PromptBlocked
    | UnknownError

  datatype ErrorAnalysis = ErrorAnalysis(errorType: ErrorType, userMessage: string, technicalDetail: string)

  /** `Number(error.status || error.response?.status)`; `None` is `NaN`, which matches no status. */
  function StatusOf(e: ApiError): Option<int> {
    if e.status.Some? && e.status.value != 0 then e.status else e.responseStatus
  }

  /** `error.message || ''`. */
  function MessageOf(e: ApiError): string {
    if e.message.Some? then e.message.value else ""
  }

  predicate InvalidKeyMessage(m: string) {
    Contains(m, "API key not valid") || Contains(m, "API_KEY_INVALID")
  }

  predicate BlockedMessage(m: string) {
    Contains(m, "Prompt blocked") || Contains(m, "PROHIBITED_CONTENT")
  }

  predicate HistoryOrderMessage(m: string) {
    Contains(m, "alternate between user and model")
  }

  /** An error whose message alone decides its kind. */
  predicate MessageDecides(m: string) {
    InvalidKeyMessage(m) || BlockedMessage(m) || HistoryOrderMessage(m)
  }

  predicate IsStatus(s: Option<int>, codes: set<int>) {
    s.Some? && s.value in codes
  }

  /* The messages `analyzeError` shows the user, one per branch. */
  const InvalidKeyUserMessage: string := "APIキーが無効です。設定を確認してください。"
  const PromptBlockedMessage: string := "入力内容がAIの安全ポリシーに抵触したため、生成がブロックされました。"
  const InvalidHistoryMessage: string := "会話履歴の同期エラーが発生しました。ページを再読み込みするか、新しいチャットを開始してください。"
  const QuotaExceededMessage: string := "利用上限(レート制限)に達しました。しばらく待つか、APIキーを確認してください。"
  const ModelNotFoundMessage: string := "指定されたAIモデルが見つかりません。設定画面でモデル名を確認してください。"
  const RetryableMessage: string := "AIサーバーが混雑しているか、一時的なエラーが発生しています。"
  const InvalidInputMessage: string := "リクエストが無効です。画像形式が非対応か、入力テキストが長すぎる可能性があります。"
  const AuthErrorUserMessage: string := "APIキーの権限がないか、無効です。"
  const UnknownErrorMessage: string := "予期せぬエラーが発生しました。"

  /** `analyzeError`: message checks first, in order, then the status code. */
  function AnalyzeError(e: ApiError): (r: ErrorAnalysis)
    ensures r.userMessage != ""
  {
    var status := StatusOf(e);
    var message := MessageOf(e);
    if InvalidKeyMessage(message) then
      ErrorAnalysis(KeyExpired, InvalidKeyUserMessage, "Invalid API Key: " + message)
    else if BlockedMessage(message) then
      ErrorAnalysis(PromptBlocked, PromptBlockedMessage, "Prompt Blocked: " + message)
    else if HistoryOrderMessage(message) then
      ErrorAnalysis(InvalidHistory, InvalidHistoryMessage,
        "History Order Error: " + message)
    else if status == Some(429) then
      ErrorAnalysis(QuotaExceeded, QuotaExceededMessage,
        "Rate Limit Exceeded (429): " + message)
    else if status == Some(404) then
      ErrorAnalysis(ModelNotFound, ModelNotFoundMessage,
        "Model Not Found (404): " + message)
    else if IsStatus(status, {503, 500, 504}) then
      ErrorAnalysis(Retryable, RetryableMessage,
        "Server Error (" + IntToString(status.value) + "): " + message)
    else if status == Some(400) then
      ErrorAnalysis(InvalidInput, InvalidInputMessage,
        "Bad Request (400): " + message)
    else if IsStatus(status, {401, 403}) then
      ErrorAnalysis(KeyExpired, AuthErrorUserMessage, "Auth Error (" + IntToString(status.value) + "): " + message)
    else
      ErrorAnalysis(UnknownError, UnknownErrorMessage, "Unknown Error: " + message)
  }

  /** The message phrases decide the kind, whatever the status, in this order of priority. */
  lemma MessageKinds(e: ApiError)
    ensures var t := AnalyzeError(e).errorType; var m := MessageOf(e);
      && (InvalidKeyMessage(m) ==> t == KeyExpired)
      && (t == PromptBlocked <==> !InvalidKeyMessage(m) && BlockedMessage(m))
      && (t == InvalidHistory <==> !InvalidKeyMessage(m) && !BlockedMessage(m) && HistoryOrderMessage(m))
  {
  }

  /** Without a deciding phrase the status decides; each kind is stated with both directions. */
  lemma StatusKinds(e: ApiError)
    requires !MessageDecides(MessageOf(e))
    ensures var t := AnalyzeError(e).errorType; var s := StatusOf(e);
      && (t == KeyExpired <==> IsStatus(s, {401, 403}))
      && (t == QuotaExceeded <==> s == Some(429))
      && (t == ModelNotFound <==> s == Some(404))
      && (t == Retryable <==> IsStatus(s, {500, 503, 504}))
      && (t == InvalidInput <==> s == Some(400))
      && (t == UnknownError <==> !IsStatus(s, {400, 401, 403, 404, 429, 500, 503, 504}))
  {
    var s := StatusOf(e);
    if s == Some(429) {
      assert AnalyzeError(e).errorType == QuotaExceeded;
    } else if s == Some(404) {
      assert AnalyzeError(e).errorType == ModelNotFound;
    } else if IsStatus(s, {500, 503, 504}) {
      assert AnalyzeError(e).errorType == Retryable;
    } else if s == Some(400) {
      assert AnalyzeError(e).errorType == InvalidInput;
    } else if IsStatus(s, {401, 403}) {
      assert AnalyzeError(e).errorType == KeyExpired;
    } else {
      assert AnalyzeError(e).errorType == UnknownError;
    }
  }

  /** Every detail line ends with the raw message, whichever branch wrote it. */
  lemma TechnicalDetailEndsWithMessage(e: ApiError)
    ensures EndsWith(AnalyzeError(e).technicalDetail, MessageOf(e))
  {
    var m := MessageOf(e);
    var s := StatusOf(e);
    if InvalidKeyMessage(m) {
      EndsWithSuffix("Invalid API Key: ", m);
    } else if BlockedMessage(m) {
      EndsWithSuffix("Prompt Blocked: ", m);
    } else if HistoryOrderMessage(m) {
      EndsWithSuffix("History Order Error: ", m);
    } else if s == Some(429) {
      EndsWithSuffix("Rate Limit Exceeded (429): ", m);
    } else if s == Some(404) {
      EndsWithSuffix("Model Not Found (404): ", m);
    } else if IsStatus(s, {503, 500, 504}) {
      EndsWithSuffix("Server Error (" + IntToString(s.value) + "): ", m);
    } else if s == Some(400) {
      EndsWithSuffix("Bad Request (400): ", m);
    } else if IsStatus(s, {401, 403}) {
      EndsWithSuffix("Auth Error (" + IntToString(s.value) + "): ", m);
    } else {
      EndsWithSuffix("Unknown Error: ", m);
    }
  }

  lemma EndsWithSuffix(p: string, m: string)
    ensures EndsWith(p + m, m)
  {
    assert (p + m)[|p + m| - |m|..] == m;
  }

  const SafetyNote: string := "\n\n" + "【安全フィルタ】 安全上の理由により、これ以上の回答生成は中断されました（暴力、性的、差別的な表現などの可能性があります）。"
  const RecitationNote: string := "\n\n" + "【著作権保護】 著作権で保護されたコンテンツと類似しているため、生成が中断されました。"
  const MaxTokensNote: string := "\n\n" + "(回答が長すぎるため途中で途切れました。続きを促してください)"
  const OtherNote: string := "\n\n" + "(生成が停止しました)"

  /** `getFinishReasonMessage`: a note for the four abnormal finish reasons, none for `STOP` and the rest. */
  function GetFinishReasonMessage(finishReason: Option<string>): (r: Option<string>)
    ensures r.Some? <==> finishReason.Some? && finishReason.value in {"SAFETY", "RECITATION", "MAX_TOKENS", "OTHER"}
    ensures r.Some? ==> StartsWith(r.value, "\n\n")
  {
    if !Present(finishReason) then None
    else match finishReason.value
      case "SAFETY" => Some(SafetyNote)
      case "RECITATION" => Some(RecitationNote)
      case "MAX_TOKENS" => Some(MaxTokensNote)
      case "OTHER" => Some(OtherNote)
      case _ => None
  }

  /** The four notes are told apart. */
  lemma FinishNotesDistinct(a: string, b: string)
    requires GetFinishReasonMessage(Some(a)).Some? && GetFinishReasonMessage(Some(b)).Some?
    ensures GetFinishReasonMessage(Some(a)) == GetFinishReasonMessage(Some(b)) <==> a == b
  {
    assert |SafetyNote| != |RecitationNote| && |SafetyNote| != |MaxTokensNote| && |SafetyNote| != |OtherNote|;
    assert |RecitationNote| != |MaxTokensNote| && |RecitationNote| != |OtherNote| && |MaxTokensNote| != |OtherNote|;
  }
}
