# simple-gemini-ui core in Dafny

A model of the conversation engine of the simple-gemini-ui chat client, a browser front end for Google's Gemini models. Each chat session is a tree of message nodes. A node links to its parent (`parentId`) and to the child the user is looking at (`activeChildId`). The screen shows the active path from the root down those links. Sending, regenerating, editing, deleting and switching branches all edit this tree. A failed request is retried with exponential backoff, or the user is offered a rotation to the next API key.

The modules follow the source files:

- `Types` (types.dfy): the records (`Log`, `AttachedFile`, `AppSettings`, dice and choice settings) and shared constants such as the hidden-text separator `:::DICE_SEP:::` and the default error-handling settings.
- `Text`, `Lists`, `Order` (text.dfy, order.dfy): the JavaScript string and array primitives the code relies on, such as `split`/`join`, `trim`, `filter`, `findIndex` and a stable sort by `localeCompare`.
- `LogTree` (log_tree.dfy): `LogTreeManager`. It covers the active path with its 10 000-hop guard, sibling position, the adjacent sibling, and the child to activate after a deletion.
- `SessionTree` (session_tree.dfy): the in-place edits `ChatSession` makes to its node map, as functions over the map's entries in insertion order.
- `Chat` (chat_session.dfy): the `ChatSession` class. Its failure decision, backoff and key rotation are functions proved against the source's promises. Its methods update the fields as the source does.
- `HiddenText`, `Dice`, `CustomChoice`, `MessageComposer`: the stored text `hidden + separator + visible`, the dice rolls and custom choices that fill the hidden part, and the request parts built from stored texts. The helpers `cleanForAi`, `extractDisplayText` and `mergeHiddenAndDisplay` are defined identically in dice.ts and custom-choice.ts. They are modelled once, in `HiddenText`.
- `ErrorHandler` (error_handler.dfy): `GeminiErrorHandler`. It sorts an error into one of eight kinds and maps a finish reason to a note.
- `Gemini` (gemini.dfy): `GeminiService`. It covers its history, the request contents and config, the debug trigger words and the reply guards.
- `AiOrchestrator` (ai_orchestrator.dfy): `generate`. It resolves the key and presets, splits thought parts from answer parts, and shapes the result and metadata.
- `Repository` (repository.dfy): `ChatRepository` over two in-memory tables, including the id remapping of `duplicateSession`.
- `ImageCorrection` (image_correction.dfy): `ImageCorrectionService`. It covers the dictionary learned from the first message, Levenshtein distance, the fuzzy search for the extension, keyword matching and the rewrite of image-link lines.
- `TokenCost` (token_cost.dfy): the integer token buckets of `TokenCostService.trackUsage`, the threshold-crossing rule and the token sums of `getStats`.
- `Dropbox` (dropbox.dfy): backup file naming, the date-folder listing and the login state of `DropboxService`.

Inputs replace everything that is not deterministic:

- `Math.random` is a stream of draws in [0, 1).
- `uuidv4` and `new Date()` become fresh ids and time strings.
- The Gemini SDK call is the reply it returns.
- Cancellation is a backend error named `AbortError`.

## Model

| member | source | states |
|---|---|---|
| LogTree.Get | src/lib/logic/log-tree-manager.ts:27 | `logs.get(id)` finds a node exactly when one with that id is stored, and the node it finds carries that id |
| LogTree.GetUnique | src/lib/logic/log-tree-manager.ts:43 | with unique ids, looking up a stored node's id returns that node |
| LogTree.FindRoot | src/lib/logic/log-tree-manager.ts:9-19 | a start node exists exactly when the map is non-empty, and it is one of the stored nodes |
| LogTree.EarliestIsSortedHead | src/lib/logic/log-tree-manager.ts:16 | the fallback root is the head of the stable ascending timestamp sort |
| Order.SortBy | src/lib/logic/log-tree-manager.ts:16 | `slice().sort(...)`: a permutation of the input, of the same length |
| Order.SortBySorted | src/lib/logic/log-tree-manager.ts:16 | the insertion sort standing for `Array.prototype.sort` with a `localeCompare` comparator returns a sorted list |
| Order.SortByMembers | src/lib/logic/log-tree-manager.ts:16 | sorting keeps exactly the same elements |
| Order.SortByStable | src/lib/logic/log-tree-manager.ts:16 | the sort is stable: the elements sharing any one key keep their input order, as `Array.prototype.sort` guarantees |
| Order.SortByHeadFirst | src/lib/logic/log-tree-manager.ts:16 | the head of the sort is the element of the input that every element ahead of it sorts strictly after: among ties the first in input order |
| Order.SortFilterHeadFirst | src/lib/logic/log-tree-manager.ts:83-87 | the head of the sort of the elements passing a filter is the first in input order among the passing elements with the extreme key |
| LogTree.CalculateActivePath | src/lib/logic/log-tree-manager.ts:8-37 | the `while` loop over `current`/`depth` returns exactly the path the recursive walk specifies |
| LogTree.WalkStep | src/lib/logic/log-tree-manager.ts:26-31 | while the active child exists and the hop guard allows, the path continues with `logs[current.activeChildId]` |
| LogTree.WalkEnd | src/lib/logic/log-tree-manager.ts:26-34 | the walk stops on a falsy `activeChildId`, a missing child, or after 10000 hops |
| LogTree.ActivePathStart | src/lib/logic/log-tree-manager.ts:21-22 | a non-empty map's path starts at the chosen root, followed by the walk from it |
| LogTree.WalkProperties | src/lib/logic/log-tree-manager.ts:21-36 | the walk has at most 10000 - depth nodes, all stored, each the active child of the one before; when it is shorter it stops at a node without a live child |
| LogTree.ActivePathProperties | src/lib/logic/log-tree-manager.ts:8-37 | empty path exactly for an empty map; at most 10001 nodes; every node stored; consecutive nodes linked by `activeChildId`; a path shorter than the guard ends at a node with no live child |
| LogTree.ActivePathRoot | src/lib/logic/log-tree-manager.ts:11-19 | the path starts at the first node in map order with a falsy `parentId`; when there is none, at a node with the least timestamp, and among those the first in map order (every node ahead of it in map order has a strictly later timestamp) |
| LogTree.ActivePathMayRepeat | src/lib/logic/log-tree-manager.ts:26-35 | two nodes that name each other as active child give a path of exactly 10001 nodes that repeats the root |
| LogTree.CycleWalkLength | src/lib/logic/log-tree-manager.ts:26-31 | on a two-node `activeChildId` cycle the walk runs until the hop guard |
| LogTree.Siblings | src/lib/logic/log-tree-manager.ts:46-48 | every sibling is a stored node with the same `parentId` |
| LogTree.SiblingsComplete | src/lib/logic/log-tree-manager.ts:46-47 | every stored node with that `parentId` is among the siblings |
| LogTree.SiblingsSorted | src/lib/logic/log-tree-manager.ts:48 | the siblings are in ascending timestamp order |
| LogTree.SiblingIndex | src/lib/logic/log-tree-manager.ts:50 | the `findIndex` position of the first sibling with the node's id, which always exists |
| LogTree.GetSiblingInfo | src/lib/logic/log-tree-manager.ts:42-57 | an unknown id gives `{1,1,false,false}`; otherwise `1 <= current <= total`, `hasPrev` iff `current > 1`, `hasNext` iff `current < total`, `total` is the sibling count and the sibling at `current - 1` is the node |
| LogTree.FindNextSiblingId | src/lib/logic/log-tree-manager.ts:62-77 | a returned id belongs to a known node with a truthy `parentId`, and names a stored node with the same `parentId` |
| LogTree.FindNextSiblingIdStep | src/lib/logic/log-tree-manager.ts:66-76 | for a known non-root node: null exactly when index ±1 is outside the sibling list, otherwise the id of the sibling at index ±1 |
| LogTree.FindNewActiveChildAfterDeletion | src/lib/logic/log-tree-manager.ts:82-88 | null exactly when no other node has that `parentId`; never the deleted id; otherwise the id of a candidate with the greatest timestamp, and among those the first in map order (every candidate ahead of it has a strictly earlier timestamp) |
| HiddenText.CleanForAi | src/lib/services/dice.ts:51-53 | separator-free text is unchanged; otherwise exactly the first separator occurrence is cut out and the rest is kept |
| HiddenText.ExtractDisplayText | src/lib/services/dice.ts:58-65 | identity on separator-free text; otherwise everything after the first separator (later separators kept) |
| HiddenText.MergeHiddenAndDisplay | src/lib/services/dice.ts:70-77 | without a separator the result is the new display text; with one, the hidden prefix before the first separator is kept unchanged |
| HiddenText.ExtractAfterMerge | src/lib/services/dice.ts:58-77 | merging into a text with a separator keeps the first separator at the same place, and extracting afterwards gives back exactly the new display text |
| HiddenText.FirstSeparatorAfterHidden | src/lib/services/dice.ts:44 | in `hidden + SEP + visible` the first separator starts right after the hidden part, when the hidden part cannot overlap the separator |
| HiddenText.ExtractAfterCompose | src/lib/services/dice.ts:44-65 | from `hidden + SEP + visible` extraction gives `visible` and cleaning gives `hidden + visible` |
| Dice.RollInRange | src/lib/services/dice.ts:83 | `floor(r * type) + 1` lies in `[1, type]` for a draw `r` in `[0, 1)` |
| Dice.RollsInRange | src/lib/services/dice.ts:80-86 | `rollDice(count, type)` has `count` values (none for a count below one), each in `[1, type]` |
| Dice.RollDice | src/lib/services/dice.ts:80-86 | the `for` loop pushes exactly the specified sequence of rolls |
| Dice.StoredText | src/lib/services/dice.ts:9-45 | no enabled die leaves the input unchanged; otherwise the text is the dice part, the separator and the input |
| Dice.ProcessInput | src/lib/services/dice.ts:9-45 | the imperative version (roll loops, `push`) returns exactly the stored text the function specifies |
| Dice.RollLabels | src/lib/services/dice.ts:21-24 | the `map` over enabled dice gives one `label:rolls` string per die, rolling from consecutive draws |
| Dice.RollAll | src/lib/services/dice.ts:32-36 | the loop concatenates the rolls of every enabled die in configuration order |
| Dice.RollStep | src/lib/services/dice.ts:33-36 | one loop iteration appends the next die's label and rolls and consumes its draws |
| Dice.LabelsAt | src/lib/services/dice.ts:21-24 | the k-th label is built from the k-th die's own rolls |
| Dice.AllRollsPrefix | src/lib/services/dice.ts:32-36 | the rolls of the first k dice are a prefix of all rolls |
| Dice.AllRollsOfDie | src/lib/services/dice.ts:32-36 | die k contributes exactly its `diceCount` rolls, contiguously in config order, each in `[1, diceType]` |
| Dice.RollStringChars | src/lib/services/dice.ts:37 | the comma-joined rolls hold only digits, minus signs and commas |
| Dice.NoMarkerTrailingComma | src/lib/services/dice.ts:37-40 | without markers the dice part ends with a comma iff the user input is non-empty |
| Dice.NoMarkerPartSeparatorFree | src/lib/services/dice.ts:37-40 | without markers the dice part cannot contain or run into the separator |
| Dice.StoredTextRoundTrip | src/lib/services/dice.ts:44-65 | extracting the display text of the stored text gives back the input, and cleaning it gives the dice part followed by the input |
| CustomChoice.ChoiceIndex | src/lib/services/custom-choice.ts:84 | `floor(r * n)` is a valid index for a draw `r` in `[0, 1)` |
| CustomChoice.RollCustomChoice | src/lib/services/custom-choice.ts:80-86 | `""` for an empty option list, otherwise one of the options |
| CustomChoice.Picks | src/lib/services/custom-choice.ts:21-36 | one pick per enabled choice |
| CustomChoice.Labels | src/lib/services/custom-choice.ts:21-24 | one `label:choice` string per enabled choice |
| CustomChoice.StoredText | src/lib/services/custom-choice.ts:9-45 | no enabled choice leaves the input unchanged; otherwise the text is the choice part, the separator and the input |
| CustomChoice.ProcessInput | src/lib/services/custom-choice.ts:9-45 | the imperative version (loop pushing into `allSelected`) returns exactly the specified stored text |
| CustomChoice.PicksPrefix | src/lib/services/custom-choice.ts:33-36 | the picks of the first k choices are a prefix of all picks |
| CustomChoice.PicksFromOwnOptions | src/lib/services/custom-choice.ts:33-86 | the k-th pick is `""` when choice k has no options, otherwise one of choice k's own options |
| CustomChoice.StoredTextRoundTrip | src/lib/services/custom-choice.ts:44-77 | extracting the display text of the stored text gives back the input, and cleaning it gives the choice part followed by the input |
| MessageComposer.GenerateDicePart | src/lib/logic/message-composer.ts:181-210 | the roll loops return exactly the specified dice part: `""` with no enabled die, the marker form, or the comma-joined rolls with a trailing comma for non-empty input |
| MessageComposer.ComposedText | src/lib/logic/message-composer.ts:10-15 | with no enabled die the saved text is the user text, with no separator added |
| MessageComposer.Compose | src/lib/logic/message-composer.ts:10-23 | returns the composed text and the payload built from it |
| MessageComposer.Recompose | src/lib/logic/message-composer.ts:29-37 | re-composes the text after the first separator (the whole text when there is none), with fresh rolls |
| MessageComposer.DicePartEmpty | src/lib/logic/message-composer.ts:181-209 | with enabled dice the dice part is empty, so no separator is added, exactly in no-marker mode when no roll is drawn and the user text is empty |
| MessageComposer.ComposeMatchesDiceService | src/lib/logic/message-composer.ts:10-15 | `compose` saves the same text as `DiceService.processInput` except exactly in that empty-dice-part case |
| MessageComposer.ComposeRoundTrip | src/lib/logic/message-composer.ts:10-15 | the display text of the saved text is the user text, and the text sent to the model is the dice part followed by it |
| MessageComposer.RecomposeRerolls | src/lib/logic/message-composer.ts:29-37 | recomposing a composed text is composing the original user text again with the new rolls |
| MessageComposer.ParseDiceToJson | src/lib/logic/message-composer.ts:160-179 | the segment loop returns exactly the specified key/value map: `key -> rest` for each labelled segment, or `{Dice: raw}` when none is labelled |
| MessageComposer.ParseStep | src/lib/logic/message-composer.ts:165-173 | a segment whose first colon is past index 0 sets `result[key] = val` and `hasLabel`; any other segment changes nothing |
| MessageComposer.LaterKeysWin | src/lib/logic/message-composer.ts:170 | a key keeps the value of its last labelled segment |
| MessageComposer.FieldKeys | src/lib/logic/message-composer.ts:165-173 | a key is in the map exactly when some segment is labelled with it |
| MessageComposer.DiceLabelSegment | src/lib/logic/message-composer.ts:194 | a `label:rolls` string with a plain label is one whitespace-free segment whose key is the label and whose value is the rolls |
| MessageComposer.LabelColon | src/lib/logic/message-composer.ts:166 | the first colon of `key:value` is right after a colon-free key |
| MessageComposer.DiceJsonOfLabels | src/lib/logic/message-composer.ts:160-196 | parsing the space-joined dice labels maps each die's label to its comma-joined rolls, when labels are plain and the die is the last with its label |
| MessageComposer.LabelsAreWords | src/lib/logic/message-composer.ts:162-196 | `trim().split(/\s+/)` of the joined labels gives back the labels |
| MessageComposer.AttachmentParts | src/lib/logic/message-composer.ts:98-115 | at most one part per attachment |
| MessageComposer.AttachmentPartsAppend | src/lib/logic/message-composer.ts:99-115 | attachment parts of a concatenation are the parts of each half in order |
| MessageComposer.AttachmentPartsComplete | src/lib/logic/message-composer.ts:99-115 | every convertible attachment (inline with data, `fire_storage` with a `fileUri`) gives a part, and every part comes from one |
| MessageComposer.StripMarkersInverse | src/lib/logic/message-composer.ts:65-73 | stripping one `\n`, the start marker and the end marker from `start + combined + end + "\n"` gives back `combined` |
| MessageComposer.TextPartsShape | src/lib/logic/message-composer.ts:49-94 | outside multipart mode: no part exactly when the cleaned text is empty, else one part holding it; in multipart mode: one or two parts, the second, present iff the user part is non-empty, holding it |
| MessageComposer.CreateApiPayload | src/lib/logic/message-composer.ts:43-119 | the parts are the text parts followed by the attachment parts |
| MessageComposer.AttachmentPayload | src/lib/logic/message-composer.ts:98-115 | the loop pushes exactly the specified attachment parts, in input order |
| MessageComposer.MultipartOfComposed | src/lib/logic/message-composer.ts:53-86 | in marker multipart mode the composed text is sent as the parsed dice map, then the user text when non-empty |
| MessageComposer.SinglePartOfComposed | src/lib/logic/message-composer.ts:88-94 | outside multipart mode a composed text with a dice part is sent as one part: dice part followed by user text |
| MessageComposer.FormatHistoryForApi | src/lib/logic/message-composer.ts:125-156 | one entry per log in order; role `user` iff the speaker is `user`; first the cleaned text, then the attachment parts |
| MessageComposer.HistoryMatchesPayload | src/lib/logic/message-composer.ts:88-156 | outside multipart mode a log with non-empty cleaned text appears in history with the same parts as its payload |
| ErrorHandler.AnalyzeError | src/lib/logic/gemini-error-handler.ts:20-93 | every error gets exactly one kind, and a non-empty message for the user |
| ErrorHandler.MessageKinds | src/lib/logic/gemini-error-handler.ts:24-48 | an invalid-key phrase gives `KEY_EXPIRED` whatever the status; otherwise a blocked phrase gives exactly `PROMPT_BLOCKED`; failing both, the history-order phrase gives exactly `INVALID_HISTORY` |
| ErrorHandler.StatusKinds | src/lib/logic/gemini-error-handler.ts:21-92 | without a deciding phrase, both directions: 401/403 iff `KEY_EXPIRED`, 429 iff `QUOTA_EXCEEDED`, 404 iff `MODEL_NOT_FOUND`, 500/503/504 iff `RETRYABLE`, 400 iff `INVALID_INPUT`, any other status iff `UNKNOWN`; the status is `error.status`, falling back to `error.response.status` when the first is falsy |
| ErrorHandler.TechnicalDetailEndsWithMessage | src/lib/logic/gemini-error-handler.ts:22-91 | every detail line ends with the raw message |
| ErrorHandler.GetFinishReasonMessage | src/lib/logic/gemini-error-handler.ts:98-113 | a note exactly for SAFETY, RECITATION, MAX_TOKENS and OTHER (none for a missing or empty reason), each beginning with two newlines |
| ErrorHandler.FinishNotesDistinct | src/lib/logic/gemini-error-handler.ts:102-109 | the four notes are pairwise different |
| Gemini.NormalizeRoles | src/lib/services/gemini.ts:33-38 | one entry per history entry with the same parts; the role is `user` iff the original lowercases to `user`, else `model` |
| Gemini.DebugError | src/lib/services/gemini.ts:49-97 | an error is thrown before any request exactly when the text holds one of the six debug triggers, with status 400, 404, 429 or 503; when `debug:key` is the only trigger present, the error is status 400 with the invalid-key message |
| Gemini.DebugStatuses | src/lib/services/gemini.ts:53-97 | the triggers are tried in order, each giving its status when no earlier one is present: `debug:404` 404, `debug:history` 400, `debug:429` 429, `debug:503` 503, `debug:400` 400, `debug:key` 400 |
| Gemini.DebugKeyIsKeyExpired | src/lib/services/gemini.ts:92-97 | the `debug:key` error is classified `KEY_EXPIRED` by its message despite its 400 status |
| Gemini.DebugKeyTextIsKeyExpired | src/lib/services/gemini.ts:92-97 | a message whose only trigger is `debug:key` fails, and its error is classified `KEY_EXPIRED` |
| Gemini.RequestContents | src/lib/services/gemini.ts:110-128 | the contents start with the history, then the user message when there are parts, then the dummy user prompt, then the dummy model prompt last, each only when set |
| Gemini.PushPrompts | src/lib/services/gemini.ts:110-128 | the pushes build exactly those contents; with no parts every push also lands in the history array, which `contents` aliases |
| Gemini.BuildConfig | src/lib/services/gemini.ts:130-163 | temperature, topK, topP and maxOutputTokens are copied from the generation settings, and unset without them; `thinkingConfig` is set iff `includeThoughts` is on or a budget is set, carrying that budget; `systemInstruction` is set iff non-empty, to the given text |
| Gemini.AssembleConfig | src/lib/services/gemini.ts:130-163 | the step-by-step assignments build exactly that config |
| Gemini.DebugResponse | src/lib/services/gemini.ts:183-202 | `debug:block` removes the candidates and sets the `PROHIBITED_CONTENT` block reason; otherwise the block reason is kept, a reply without candidates is unchanged, and a reply with candidates differs only in the first candidate, whose finish reason the debug triggers force |
| Gemini.ForceFinishReason | src/lib/services/gemini.ts:194-199 | the first trigger present among `debug:safety`, `debug:copyright`, `debug:length`, `debug:other` sets the finish reason to SAFETY, RECITATION, MAX_TOKENS or OTHER; no trigger leaves the candidate unchanged; no other field changes |
| Gemini.HistoryOnlyGrows | src/lib/services/gemini.ts:113-220 | the history only grows; with parts it gains at most the user message, and gains it exactly when the request was sent and accepted |
| Gemini.AcceptedReplies | src/lib/services/gemini.ts:172-227 | a reply is accepted exactly when no debug error fired, the call resolved, and the adjusted reply has no block reason and some candidate; any error thrown after the request was built carries the request payload |
| Gemini.BlockedIsPromptBlocked | src/lib/services/gemini.ts:206-208 | the blocked-prompt error is classified `PROMPT_BLOCKED` unless its reason holds an invalid-key phrase |
| Gemini.GeminiService.constructor | src/lib/services/gemini.ts:27-31 | stores the key, model and system instruction, with an empty history |
| Gemini.GeminiService.StartChat | src/lib/services/gemini.ts:33-38 | replaces the history by the normalised one, changing nothing else |
| Gemini.GeminiService.SendMessage | src/lib/services/gemini.ts:40-228 | returns or throws exactly the specified outcome and leaves the specified history |
| AiOrchestrator.ActiveKey | src/lib/services/ai-orchestrator.ts:25 | a key is found exactly when one carries `activeApiKeyId`, and the one found does |
| AiOrchestrator.PresetText | src/lib/services/ai-orchestrator.ts:28-34 | a disabled prompt resolves to nothing; an enabled one resolves to a text exactly when some preset has the active preset id, and then to the text of the first such preset, as `find` returns |
| AiOrchestrator.NoKeyFailsEarly | src/lib/services/ai-orchestrator.ts:25-26 | with no matching key, or an empty one, `generate` fails with the missing-key error before any backend call |
| AiOrchestrator.SplitParts | src/lib/services/ai-orchestrator.ts:53-67 | the `+=` loop returns exactly the answer and thought concatenations |
| AiOrchestrator.SplitIsPartition | src/lib/services/ai-orchestrator.ts:56-67 | the thoughts are the texts of the `thought === true` parts in order, and the answer the texts of all other parts in order |
| AiOrchestrator.ConcatTextsAppend | src/lib/services/ai-orchestrator.ts:58-66 | concatenating part texts distributes over appending parts |
| AiOrchestrator.ConcatFilterSnoc | src/lib/services/ai-orchestrator.ts:58-66 | one more part adds its text to the side it belongs to and nothing to the other |
| AiOrchestrator.ResultAnswer | src/lib/services/ai-orchestrator.ts:69-93 | a non-empty answer is returned trimmed; thoughts without an answer give an empty answer; neither gives `result.text` or `(応答なし)` |
| AiOrchestrator.TrimmedRawAnswer | src/lib/services/ai-orchestrator.ts:69-93 | the same three cases for the untrimmed fallback text |
| AiOrchestrator.NoResponseTextTrimmed | src/lib/services/ai-orchestrator.ts:71-93 | the fallback text is unchanged by the final trim |
| AiOrchestrator.ResultReasoning | src/lib/services/ai-orchestrator.ts:94 | `thoughtProcess` is the trimmed thoughts, or undefined when they trim to empty |
| AiOrchestrator.CostThreshold | src/lib/services/ai-orchestrator.ts:82 | the threshold is defined exactly when alerts are enabled with a positive threshold |
| AiOrchestrator.LastThree | src/lib/services/ai-orchestrator.ts:89 | `slice(-3)`: the last three entries, or all of them when fewer |
| AiOrchestrator.BuildResult | src/lib/services/ai-orchestrator.ts:77-100 | an alert implies a threshold, usage and a crossing; a present `thoughtProcess` is non-empty; token usage is the reply's |
| AiOrchestrator.ResultMetadata | src/lib/services/ai-orchestrator.ts:78-90 | with minimal metadata only the last three contents are kept, otherwise the payload is kept whole; without usage there is no threshold and no alert; an alert happens exactly with usage, a crossing and a threshold |
| AiOrchestrator.AssembleResult | src/lib/services/ai-orchestrator.ts:52-100 | builds the specified result, with the first candidate's finish reason added |
| AiOrchestrator.Generate | src/lib/services/ai-orchestrator.ts:18-101 | resolves or rejects exactly as the corrected `generate` specifies |
| AiOrchestrator.FinishReasonDropped | src/lib/services/ai-orchestrator.ts:92-100 | as written, a reply that finished for SAFETY reaches the caller without a finish reason, so no note is appended; the corrected result gives the safety note |
| AiOrchestrator.FinishReasonKept | src/lib/services/ai-orchestrator.ts:92-100 | the corrected `generate` fails exactly when the written one does, with the same error, and otherwise differs only by carrying the finish reason |
| TokenCost.BillingInput | src/lib/services/token-cost.ts:78-84 | `max(0, prompt - cached)`: never negative, at least the difference, and equal to one of the two |
| TokenCost.AddUsage | src/lib/services/token-cost.ts:119-130 | a prompt over 200000 tokens adds billed input, output (candidates plus thinking) and cached counts only to the `*Over200k` buckets, any other prompt only to the normal buckets; thinking and total always grow by their counts; date and model are kept |
| TokenCost.CountRequest | src/lib/services/token-cost.ts:78-130 | the in-place `+=` updates give exactly that entry |
| TokenCost.KeyIndex | src/lib/services/token-cost.ts:105-106 | the row for `[today, model]`, or -1 exactly when there is none |
| TokenCost.TrackedKeepsKeys | src/lib/services/token-cost.ts:104-133 | storing keeps one row per (date, model): an existing row is updated in place, otherwise one zero-initialised row is appended; no other row changes |
| TokenCost.TrackedTotals | src/lib/services/token-cost.ts:104-133 | storing a request raises the table's token totals by exactly its billed counts, whichever buckets they went to |
| TokenCost.UsageTable.constructor | src/lib/services/token-cost.ts:104 | the table starts empty |
| TokenCost.UsageTable.TrackUsage | src/lib/services/token-cost.ts:55-147 | true exactly when there is usage, the write commits and `pre < threshold <= pre + current`; nothing is stored without usage, when the pre-request cost already reaches the threshold, or when the write fails, and otherwise the request is stored |
| TokenCost.NoCrossingAbove | src/lib/services/token-cost.ts:69-72 | once the day's cost has reached the threshold no later request reports a crossing |
| TokenCost.AtMostOneCrossing | src/lib/services/token-cost.ts:53-140 | along a day of requests with non-negative costs at most one reports the crossing |
| TokenCost.SelectedRows | src/lib/services/token-cost.ts:175-183 | the rows read are a selection of the table, each within the dates and the model filter |
| TokenCost.SelectedRowsFilter | src/lib/services/token-cost.ts:175-183 | the rows read are exactly the rows of the table within the dates and the model filter, every one of them, in table order |
| TokenCost.GetStats | src/lib/services/token-cost.ts:175-243 | the loops return the sums over the selected rows of normal plus over-200k buckets, and of the thinking tokens |
| TokenCost.TotalsUpdate | src/lib/services/token-cost.ts:216-238 | replacing a row changes the sums by the difference of the two rows |
| ImageCorrection.Min3 | src/lib/services/image-correction.ts:252 | `Math.min` of three: no larger than any argument, and equal to one of them |
| ImageCorrection.EditDistanceStep | src/lib/services/image-correction.ts:249-253 | the recurrence the table cell `d[i][j]` is filled with holds for the edit distance of the prefixes |
| ImageCorrection.Levenshtein | src/lib/services/image-correction.ts:243-256 | the table algorithm over a two-dimensional array returns the edit distance |
| ImageCorrection.FillRow | src/lib/services/image-correction.ts:250-253 | filling row i sets every cell of it to the distance of the prefixes and leaves the other rows alone |
| ImageCorrection.EditDistanceZero | src/lib/services/image-correction.ts:243-256 | the distance is 0 exactly for equal strings |
| ImageCorrection.EditDistanceBounds | src/lib/services/image-correction.ts:243-256 | the distance is at most the longer length and at least the difference of the lengths, so `d(s, "") = |s|` |
| ImageCorrection.EditDistanceSymmetric | src/lib/services/image-correction.ts:243-256 | `d(s, t) = d(t, s)` |
| ImageCorrection.FuzzyIndexFrom | src/lib/services/image-correction.ts:180-199 | the first position from `i` on where a substring of length `|target|` or `|target| - 1` is within distance 1 of the target, or -1 when there is none |
| ImageCorrection.FuzzyIndex | src/lib/services/image-correction.ts:170-200 | -1 exactly when no position matches (the early exit for short texts loses none); otherwise the smallest matching position |
| ImageCorrection.FindFuzzyExtensionIndex | src/lib/services/image-correction.ts:170-200 | the nested loops return exactly that index |
| ImageCorrection.NearAt | src/lib/services/image-correction.ts:183-197 | the inner loop over the two lengths answers whether position i matches |
| ImageCorrection.BestIndex | src/lib/services/image-correction.ts:212-235 | the running minimum ends on a keyword index or -1 |
| ImageCorrection.BestIndexIsBest | src/lib/services/image-correction.ts:215-235 | -1 exactly when no keyword passes its length threshold (0 edits up to 2 characters, 1 up to 5, 2 beyond); otherwise an accepted keyword at the least distance among accepted ones, and the earliest such |
| ImageCorrection.ClosestKeyword | src/lib/services/image-correction.ts:211-241 | a match is an accepted dictionary keyword with its distance; no match returns the input with distance -1 |
| ImageCorrection.ClosestKeywordIsBest | src/lib/services/image-correction.ts:211-241 | for a non-empty input, a match is found exactly when some keyword is accepted, and no accepted keyword is closer |
| ImageCorrection.FindClosestKeyword | src/lib/services/image-correction.ts:211-241 | the loop with its running minimum returns exactly that match |
| ImageCorrection.DropLeading | src/lib/services/image-correction.ts:127 | removes the leading run of quote, bracket and `!` characters: a suffix that does not start with one |
| ImageCorrection.DropTrailing | src/lib/services/image-correction.ts:127 | removes the trailing run: a prefix that does not end with one |
| ImageCorrection.RemoveNoise | src/lib/services/image-correction.ts:129 | no hyphen, comma, dot or whitespace is left, and nothing is added |
| ImageCorrection.IsTargetLine | src/lib/services/image-correction.ts:202-209 | a line is a target exactly when an extension is set and at least two of the three signals occur: `https?` in any case, the extension in the lower-cased line, `app` or `com` in any case |
| ImageCorrection.ValidKeywords | src/lib/services/image-correction.ts:96-142 | every keyword collected from a line is in the dictionary |
| ImageCorrection.CorrectLine | src/lib/services/image-correction.ts:83-158 | a non-target line is unchanged; a target line is unchanged when no keyword is accepted, and becomes `![C](base/kw1/.../kwN.ext "画像")` built from the accepted keywords in order whenever one is accepted |
| ImageCorrection.CorrectLines | src/lib/services/image-correction.ts:83 | one corrected line per line, each corrected on its own |
| ImageCorrection.CorrectedText | src/lib/services/image-correction.ts:76-80 | the text is unchanged when the base URL or the extension is unset |
| ImageCorrection.CorrectLineSingle | src/lib/services/image-correction.ts:151-153 | a corrected line holds no newline |
| ImageCorrection.CorrectedLines | src/lib/services/image-correction.ts:82-161 | splitting the corrected text at newlines gives the corrected lines, so the line count is preserved |
| ImageCorrection.HostRun | src/lib/services/image-correction.ts:27 | `[^/\s]+`: the longest prefix without `/` or whitespace |
| ImageCorrection.LastTld | src/lib/services/image-correction.ts:27 | the greedy host match backs off to the last `.app`/`.com` |
| ImageCorrection.BaseUrlAt | src/lib/services/image-correction.ts:27-29 | a match at `i` is a piece of the text that starts with `https://` in any case, followed by at least one host character and ending in `.app` or `.com` in any case; the greedy `[^/\s]+` backs off to the last such ending in the host run; a match exists whenever the prefix is there and the host run holds such an ending |
| ImageCorrection.BaseUrlFrom | src/lib/services/image-correction.ts:28-29 | a match found from `i` on is the match at some position |
| ImageCorrection.Leftmost | src/lib/services/image-correction.ts:28 | a leftmost search over positions `i` to `n` only returns the result of some position in that range |
| ImageCorrection.LeftmostFirst | src/lib/services/image-correction.ts:28 | the search finds nothing exactly when no position matches, and otherwise returns the match at the first matching position |
| ImageCorrection.BaseUrlFromIsLeftmost | src/lib/services/image-correction.ts:28-29 | the recursive base-URL search is the leftmost search over the positions of the text |
| ImageCorrection.BaseUrlFromLeftmost | src/lib/services/image-correction.ts:27-29 | `text.match` gives null exactly when no position holds a match; otherwise the base URL is the match at the first position holding one |
| ImageCorrection.FirstExtAt | src/lib/services/image-correction.ts:55 | an alternative tried at `i` is one of the alternatives, matching `\.ext\b` there |
| ImageCorrection.FirstExtFrom | src/lib/services/image-correction.ts:55 | trying the alternatives from the k-th on yields one of them, matching at `i` |
| ImageCorrection.FirstExtFromFirst | src/lib/services/image-correction.ts:55 | from the k-th alternative on: nothing exactly when none matches at `i`; otherwise the first that matches |
| ImageCorrection.FirstExtAtFirst | src/lib/services/image-correction.ts:55 | the alternation of the allowed extensions at `i`: nothing exactly when no alternative matches there; otherwise the first alternative in list order that matches |
| ImageCorrection.FallbackExtension | src/lib/services/image-correction.ts:54-58 | the fallback pattern only yields one of its alternatives |
| ImageCorrection.FallbackIsLeftmost | src/lib/services/image-correction.ts:55-57 | the recursive fallback search is the leftmost search over positions of the alternation at each position |
| ImageCorrection.FallbackLeftmost | src/lib/services/image-correction.ts:55-57 | null exactly when no position holds a match; otherwise the alternative matched at the first position holding one |
| ImageCorrection.FallbackNone | src/lib/services/image-correction.ts:55-57 | null exactly when no alternative matches `\.ext\b` at any position of the text |
| ImageCorrection.SegmentOf | src/lib/services/image-correction.ts:33-50 | a segment yields a keyword of 1 to 10 characters, and only an allowed extension |
| ImageCorrection.SegmentOfParts | src/lib/services/image-correction.ts:34-50 | a trimmed segment that is empty or longer than 10 yields nothing; otherwise it yields an extension exactly when the text after its last dot lower-cases to an allowed one, and then that lower-cased text, with the part before the dot as keyword when non-empty; without an extension the whole trimmed segment is the keyword |
| ImageCorrection.Keywords | src/lib/services/image-correction.ts:32-51 | at most one keyword per segment, each of 1 to 10 characters |
| ImageCorrection.KeywordsSingle | src/lib/services/image-correction.ts:48-50 | one segment contributes its keyword when it has one and nothing otherwise |
| ImageCorrection.KeywordsAppend | src/lib/services/image-correction.ts:33-51 | the keywords of joined segment lists are the keywords of the first followed by those of the second, so they come in segment order |
| ImageCorrection.FirstExtension | src/lib/services/image-correction.ts:43 | the first extension found is an allowed one |
| ImageCorrection.FirstFound | src/lib/services/image-correction.ts:43 | a first-found search returns what some element yields |
| ImageCorrection.FirstFoundFirst | src/lib/services/image-correction.ts:43 | the search finds nothing exactly when no element yields anything, and otherwise returns what the first yielding element yields |
| ImageCorrection.FirstExtensionIsFirstFound | src/lib/services/image-correction.ts:43 | the recursive extension search is the first-found search over the segments |
| ImageCorrection.FirstExtensionFirst | src/lib/services/image-correction.ts:33-51 | `if (!foundExtension)`: no extension exactly when no segment yields one; otherwise the extension of the first segment that yields one |
| ImageCorrection.DictionaryWellFormed | src/lib/services/image-correction.ts:19-68 | the stored dictionary has an `https://` base URL of host characters, an allowed extension, and keywords of 1 to 10 characters without newlines |
| ImageCorrection.KeywordsFromSegments | src/lib/services/image-correction.ts:32-34 | keywords hold no newline |
| ImageCorrection.Corrector.constructor | src/lib/services/image-correction.ts:10-14 | the dictionary starts empty |
| ImageCorrection.Corrector.DefineDictionary | src/lib/services/image-correction.ts:19-68 | stores exactly the dictionary specified for the text |
| ImageCorrection.Corrector.PartStep | src/lib/services/image-correction.ts:98-131 | one iteration of the part loop yields exactly the specified candidate or skip |
| ImageCorrection.Corrector.RewriteLine | src/lib/services/image-correction.ts:88-157 | the part loop returns exactly the corrected line |
| ImageCorrection.Corrector.CorrectOneLine | src/lib/services/image-correction.ts:83-158 | the `map` callback returns exactly the corrected line |
| ImageCorrection.Corrector.CorrectText | src/lib/services/image-correction.ts:73-162 | returns exactly the corrected text |
| ImageCorrection.ScanSegments | src/lib/services/image-correction.ts:32-51 | the segment loop finds exactly the first extension and the keywords in order |
| ImageCorrection.ReadSegment | src/lib/services/image-correction.ts:34-50 | one iteration reads exactly the segment's keyword and extension |
| SessionTree.PutProperties | src/lib/state/chat.svelte.ts:343 | `Map.set`: ids stay unique, the key now maps to the new node, every other key is unchanged; an existing key keeps its place and a new key goes last |
| SessionTree.IndexOfAppend | src/lib/state/chat.svelte.ts:343 | appending a node does not move earlier entries |
| SessionTree.SaveNewBranchProperties | src/lib/state/chat.svelte.ts:342-355 | the node is stored, the parent (when present) gets it as active child, a missing parent stays missing, and no other node changes |
| SessionTree.CommitExtendsPath | src/lib/state/chat.svelte.ts:342-355 | committing a node under the last node of a non-empty active path extends that path by exactly the node, with the parent's link updated |
| SessionTree.CommitUnderLast | src/lib/state/chat.svelte.ts:342-355 | the same, for a parent given as the path's last node |
| SessionTree.WalkCommit | src/lib/state/chat.svelte.ts:346-349 | after the commit, walking from any node that reached the parent reaches the new node right after it |
| SessionTree.CommitKeepsRoot | src/lib/state/chat.svelte.ts:342-355 | the commit does not change which node the active path starts at |
| SessionTree.FirstRootKept | src/lib/state/chat.svelte.ts:342-355 | updating a node that keeps its parent link keeps the first root in map order |
| SessionTree.Reparented | src/lib/state/chat.svelte.ts:567-572 | re-parenting changes no id and no position |
| SessionTree.ReparentedGet | src/lib/state/chat.svelte.ts:567-572 | a child of the deleted node gets the deleted node's parent; every other node is unchanged |
| SessionTree.RemoveProperties | src/lib/state/chat.svelte.ts:587 | `Map.delete` keeps ids unique and removes the key |
| SessionTree.RemoveGet | src/lib/state/chat.svelte.ts:587 | removing one key leaves the others as they were |
| SessionTree.DeleteNodeProperties | src/lib/state/chat.svelte.ts:561-590 | the node is gone and every other node stays; its children now point to its parent; the parent keeps its record as re-parenting left it, except that its active child becomes the specified replacement, which is never the deleted id; all other nodes are unchanged |
| SessionTree.SwitchBranchProperties | src/lib/state/chat.svelte.ts:596-610 | no adjacent sibling changes nothing; otherwise the parent's active child becomes the adjacent sibling, which has the same parent, and no other node changes |
| SessionTree.PutAllKeys | src/lib/state/chat.svelte.ts:398 | after loading, a key is present exactly when it was before or is in the loaded logs |
| SessionTree.PutAllLast | src/lib/state/chat.svelte.ts:398 | each key maps to the last loaded log with that id |
| SessionTree.PutAllKeeps | src/lib/state/chat.svelte.ts:398 | keys not loaded keep their node |
| SessionTree.PutAllUnique | src/lib/state/chat.svelte.ts:398 | loading keeps ids unique |
| SessionTree.PutAllSnoc | src/lib/state/chat.svelte.ts:398 | `forEach(set)` is one `set` per log, in order |
| Chat.WaitTimeIsPower | src/lib/state/chat.svelte.ts:275 | the wait before retry number `retryCount` is the initial wait times two to the power `retryCount` |
| Chat.Decide | src/lib/state/chat.svelte.ts:232-331 | a retry is only scheduled while backoff is on and the retry count is below the maximum, and its wait is the backoff wait for that count |
| Chat.DecideOn | src/lib/state/chat.svelte.ts:232-331 | the same bound for the decision taken on an already analysed error |
| Chat.DecideCases | src/lib/state/chat.svelte.ts:232-331 | a failed generation stops silently exactly when it was aborted; it is retried exactly when the error is retryable, backoff is on and retries remain; a key-rotation prompt needs key looping, more than one key and a 429 status or a quota error; every other error is committed as an error node |
| Chat.RetryWaitsAreBackoff | src/lib/state/chat.svelte.ts:264-284 | a retryable error that keeps failing waits through exactly the backoff schedule from the current count up to the maximum |
| Chat.WaitsAreBackoff | src/lib/state/chat.svelte.ts:264-284 | the same schedule, for an already analysed error |
| Chat.BackoffWaits | src/lib/state/chat.svelte.ts:275 | the backoff schedule has one wait per remaining retry, wait k is the wait for count `from + k`, and the waits sum to the difference of the last and first waits (a geometric series) |
| Chat.RetryWaitsSchedule | src/lib/state/chat.svelte.ts:264-284 | a retryable error is retried `maxRetries - retryCount` times, with doubling waits whose total is given in closed form |
| Chat.DefaultRetryWaits | src/lib/state/chat.svelte.ts:264-284 | with the default error-handling settings a retryable error waits 1000, 2000 and 4000 ms |
| Chat.NextKeyIndex | src/lib/state/chat.svelte.ts:362-367 | the index of the next key is always a valid index into the key list |
| Chat.RotateStep | src/lib/state/chat.svelte.ts:357-372 | rotating moves the active key to the next key in the list, wrapping to the first, and leaves the key list unchanged |
| Chat.RotationCycles | src/lib/state/chat.svelte.ts:357-372 | n rotations advance the active key n places round the list |
| Chat.RotationRound | src/lib/state/chat.svelte.ts:357-372 | with distinct key ids, rotating once per key returns to the starting key, and no smaller number of rotations does |
| Chat.RotationFromUnknown | src/lib/state/chat.svelte.ts:362-367 | when the active key id matches no key, rotation selects the first key |
| Chat.PreviewShowsInput | src/lib/state/chat.svelte.ts:455-462 | the session preview is the first 30 characters of what the user typed (the dice part in front is cut off at the separator), or the attachment or new-chat placeholder when nothing was typed |
| Chat.SessionMapStaysUnique | src/lib/state/chat.svelte.ts:342-610 | every update the session makes to its log map keeps log ids unique |
| Chat.LoadLogs | src/lib/state/chat.svelte.ts:394-399 | loading stores each log of the session by id into an empty map; the ids of the result are unique |
| Chat.RetryStatusText | src/lib/state/chat.svelte.ts:80-87 | the status is empty exactly when nothing is loading; otherwise it starts "Thinking" and ends "..."; during a retry it shows `count/max` |
| Chat.SaveNewBranchLog | src/lib/state/chat.svelte.ts:342-355 | the new node is stored, made the parent's active child, and the displayed path is recomputed from the new map |
| Chat.StartStep | src/lib/state/chat.svelte.ts:162-177 | starting a generation sets loading and the retry count, and clears the trigger's active child |
| Chat.CommitStep | src/lib/state/chat.svelte.ts:189-338 | a successful reply is stored as a model node under the trigger, and loading ends |
| Chat.FailStep | src/lib/state/chat.svelte.ts:232-338 | a failure follows the decision taken on the error |
| Chat.DecideStep | src/lib/state/chat.svelte.ts:264-338 | each decision (stop, retry, rotation prompt, commit) changes the session as the source does |
| Chat.CompleteStep | src/lib/state/chat.svelte.ts:189-338 | the backend's answer ends the pending generation as a commit or a failure, as the completed state specifies; the reply is read with the corrected `generate` of the Findings, which keeps the finish reason |
| Chat.StoreUserLog | src/lib/state/chat.svelte.ts:466-499 | the user node is stored under the last displayed node, which gets it as active child, and the path is recomputed |
| Chat.SendStep | src/lib/state/chat.svelte.ts:412-503 | sending follows the source's guards, the expired-file prompt and the store-then-generate path |
| Chat.RegenerateStep | src/lib/state/chat.svelte.ts:505-544 | regeneration follows the source's guards, recomposes the trigger's text and starts a generation from its place on the path |
| Chat.RotationStep | src/lib/state/chat.svelte.ts:302-377 | confirming the rotation prompt rotates the key and restarts the generation at attempt 0 |
| Chat.StartClearsActiveChild | src/lib/state/chat.svelte.ts:162-177 | starting keeps ids unique, clears only the trigger's active child, leaves every other node alone, and records the trigger, the original active child, the history and the attempt |
| Chat.CommitMakesReplyActive | src/lib/state/chat.svelte.ts:189-338 | a commit stores the model node with the corrected reply text under the trigger, makes it the trigger's active child, changes no other node, redisplays the active path and ends loading with the retry count reset |
| Chat.FailureOutcomes | src/lib/state/chat.svelte.ts:232-338 | an abort leaves the map untouched and ends loading; a retry happens exactly when the error is retryable and retries remain, stores the error node unattached and waits the backoff time with the count raised by one; any other failure attaches the error node as the trigger's active child and redisplays; no unrelated node changes |
| Chat.DeclineRestoresActiveChild | src/lib/state/chat.svelte.ts:306-312 | declining the rotation prompt gives the trigger back exactly the active child it had before the generation |
| Chat.SendIgnored | src/lib/state/chat.svelte.ts:413-421 | sending while loading, or with blank input, no enabled dice and no attachments, changes nothing |
| Chat.SendStoresUserNode | src/lib/state/chat.svelte.ts:441-503 | a send stores the composed user node under the last displayed node, makes it that node's active child, changes no other node, clears input and attachments, and starts generation with the active path minus the new node as history |
| Chat.UserLogStored | src/lib/state/chat.svelte.ts:466-499 | storing the user node keeps ids unique, stores it as given, links its parent to it and changes nothing else |
| Chat.ExpiredFilesDropped | src/lib/state/chat.svelte.ts:424-433 | after the expired files are filtered out, none of the remaining attachments is expired |
| Chat.RegenerateCases | src/lib/state/chat.svelte.ts:505-544 | regeneration does nothing while loading or without a trigger; otherwise the trigger's text becomes the recomposed text, and generation starts with the path before the trigger as history, or loading ends when the trigger is off the path |
| Chat.RegeneratedWithCases | src/lib/state/chat.svelte.ts:519-544 | the same, for a given trigger and new text |
| Chat.BeforeFirstMatch | src/lib/state/chat.svelte.ts:532-541 | the history cut before the trigger's index never contains the trigger |
| Chat.RotationRestarts | src/lib/state/chat.svelte.ts:302-377 | confirming closes the prompt and rotates the settings; with one key nothing else happens, otherwise generation restarts at attempt 0 from the same trigger and history |
| Chat.ChatSession.constructor | src/lib/state/chat.svelte.ts:17-58 | a new session holds no logs, is idle with no alert, and uses the given settings and image corrector |
| Chat.ChatSession.RemoveAttachment | src/lib/state/chat.svelte.ts:136-138 | the attachments become the old ones without those of the given id, in order |
| Chat.ChatSession.StopGeneration | src/lib/state/chat.svelte.ts:90-105 | stopping ends loading, cancels a pending retry or generation, and resets the retry count of a running generation as its finally block does |
| Chat.ChatSession.RunAiGeneration | src/lib/state/chat.svelte.ts:162-177 | the session becomes the started state |
| Chat.ChatSession.CompleteGeneration | src/lib/state/chat.svelte.ts:189-338 | the session becomes the completed state, with the corrector's current dictionary applied to the reply, which is read with the corrected `generate` of the Findings |
| Chat.ChatSession.FireRetry | src/lib/state/chat.svelte.ts:279-282 | when the retry timer fires, generation restarts with the same trigger and history at the next attempt |
| Chat.ChatSession.ConfirmRotation | src/lib/state/chat.svelte.ts:302-305 | the session becomes the rotation-confirmed state |
| Chat.ChatSession.DeclineRotation | src/lib/state/chat.svelte.ts:306-312 | the prompt closes, and the trigger's original active child is restored and the path redisplayed when it had one |
| Chat.ChatSession.ConfirmExpiredFiles | src/lib/state/chat.svelte.ts:431-435 | the expired files are dropped and the send is retried; the corrector's dictionary is redefined from the first node when the send makes it the only displayed node |
| Chat.ChatSession.CloseAlert | src/lib/state/chat.svelte.ts:327-328 | closing an informational or expired-file alert closes it |
| Chat.ChatSession.SendMessage | src/lib/state/chat.svelte.ts:412-503 | the session becomes the sent state, and the dictionary is redefined from the first displayed user node when it is the only one |
| Chat.ChatSession.Regenerate | src/lib/state/chat.svelte.ts:505-544 | the session becomes the regenerated state |
| Chat.ChatSession.UpdateLog | src/lib/state/chat.svelte.ts:546-559 | an unknown id changes nothing; otherwise the node's text becomes the edited text (corrected when URL correction is on) and the path is redisplayed |
| Chat.ChatSession.DeleteLog | src/lib/state/chat.svelte.ts:561-590 | an unknown id changes nothing; otherwise the map becomes the tree with the node deleted and the path is redisplayed |
| Chat.ChatSession.SwitchBranch | src/lib/state/chat.svelte.ts:596-610 | the map becomes the branch-switched tree; the path is redisplayed only when a next sibling exists and the parent is present |
| Chat.ChatSession.Load | src/lib/state/chat.svelte.ts:391-410 | loading an id stores that session's logs, no id starts an empty session with a fresh id; loading ends, the path is recomputed, and the dictionary is redefined from a first user node when URL correction is on |
| Repository.CreateOrUpdateTitles | src/lib/db/repository.ts:32-46 | the session exists afterwards with the new update time; an existing session keeps its title and creation time, a new one gets the given title; no other session changes |
| Repository.RenameSurvivesSend | src/lib/db/repository.ts:32-73 | a rename creates or retitles only that session, and a later send does not overwrite the chosen title |
| Repository.FieldUpdatesAreLocal | src/lib/db/repository.ts:15-25 | a text, parent or active-child update changes only that field of that log, adds no log, and is a no-op for an unknown id |
| Repository.DeleteSessionRemovesItsLogs | src/lib/db/repository.ts:84-90 | after deleting a session none of its logs remain, exactly those logs are gone, and every other log is unchanged |
| Repository.CopiesKeepTree | src/lib/db/repository.ts:106-123 | the copies occupy exactly the fresh ids, disjoint from the existing logs; each copy keeps speaker, text, timestamp, thought process and attachments, moves to the new session, and has its parent and active-child links remapped (dropped when the target is not among the copied logs) |
| Repository.CopyKeepsParentLink | src/lib/db/repository.ts:113-123 | a parent link between two logs of the source session becomes the same link between their copies |
| Repository.DuplicateRecord | src/lib/db/repository.ts:126-131 | the duplicate session record has the new id, the source title with the copy suffix, and creation and update times both now |
| Repository.AfterTransitive | src/lib/db/repository.ts:79-82 | the "updated later than" order on sessions is transitive on its complement, so a latest session is well defined |
| Repository.AfterAsymmetric | src/lib/db/repository.ts:79-82 | the order is asymmetric and irreflexive |
| Repository.AfterTotal | src/lib/db/repository.ts:79-82 | any two distinct sessions are ordered one way or the other (ties broken by id) |
| Repository.ChatRepository.constructor | src/lib/db/repository.ts:6 | a new repository has no sessions and no logs |
| Repository.ChatRepository.LoadLogs | src/lib/db/repository.ts:7-9 | the result holds exactly the stored logs of the session, one entry per stored log, sorted by timestamp |
| Repository.ChatRepository.CollectSession | src/lib/db/repository.ts:8 | the `where('sessionId')` query: exactly the stored logs of the session, one entry per stored log |
| Repository.ChatRepository.SaveLog | src/lib/db/repository.ts:11-13 | the log is stored under its id, replacing any earlier one |
| Repository.ChatRepository.UpdateLogText | src/lib/db/repository.ts:15-17 | only the text of that log changes |
| Repository.ChatRepository.UpdateLogParent | src/lib/db/repository.ts:19-21 | only the parent link of that log changes |
| Repository.ChatRepository.UpdateActiveChild | src/lib/db/repository.ts:23-25 | only the active-child link of that log changes |
| Repository.ChatRepository.DeleteLog | src/lib/db/repository.ts:27-29 | the log with that id is removed and nothing else |
| Repository.ChatRepository.CreateOrUpdateSession | src/lib/db/repository.ts:32-46 | the sessions become the created-or-touched map |
| Repository.ChatRepository.GetSession | src/lib/db/repository.ts:49-51 | the result is present exactly when the session is stored, and is that record |
| Repository.ChatRepository.UpdateSessionTitle | src/lib/db/repository.ts:54-73 | the sessions become the retitled map |
| Repository.ChatRepository.TouchSession | src/lib/db/repository.ts:75-77 | only the update time of an existing session changes |
| Repository.ChatRepository.GetLatestSessionId | src/lib/db/repository.ts:79-82 | no id exactly when there are no sessions; otherwise a stored session that no other session was updated after |
| Repository.ChatRepository.DeleteSession | src/lib/db/repository.ts:84-90 | the session and all of its logs are removed, and nothing else |
| Repository.ChatRepository.DuplicateSession | src/lib/db/repository.ts:93-138 | an unknown source fails with "session not found" and changes nothing; otherwise a new session record is added and every log of the source is copied under a fresh id into it |
| Repository.ChatRepository.CollectSessionLogIds | src/lib/db/repository.ts:100 | the ids listed are exactly the session's log ids, each once |
| Repository.AssignIds | src/lib/db/repository.ts:106-110 | every source log gets the fresh id drawn in its position, and no two logs share a new id |
| Dropbox.Sanitized | src/lib/services/dropbox.ts:127-128 | every path-unsafe or control character of the title is replaced by `_`, every other character is kept, and the length is unchanged |
| Dropbox.SafeTitle | src/lib/services/dropbox.ts:127-130 | the file-name title is never empty, at most 50 characters long, and free of path-unsafe characters |
| Dropbox.TrimKeepsSafe | src/lib/services/dropbox.ts:129 | trimming a sanitized title keeps it free of unsafe characters |
| Dropbox.SafeTitleKeepsPlainTitle | src/lib/services/dropbox.ts:127-130 | a short title with only safe characters and no surrounding whitespace is used unchanged |
| Dropbox.BlankTitleIsUntitled | src/lib/services/dropbox.ts:130 | a title made only of whitespace becomes "Untitled" |
| Dropbox.DateDir | src/lib/services/dropbox.ts:126 | the date folder never contains the `T` separator |
| Dropbox.DateDirOfIsoTime | src/lib/services/dropbox.ts:126 | for an ISO time the date folder is its `YYYY-MM-DD` date part |
| Dropbox.Pad2Injective | src/lib/services/dropbox.ts:137-141 | two-digit zero padding is injective below 100 |
| Dropbox.TimeStampInjective | src/lib/services/dropbox.ts:136-141 | two different valid clock times give different `HHMMSS` stamps |
| Dropbox.TimeStampDigits | src/lib/services/dropbox.ts:136-141 | the stamp consists of decimal digits only |
| Dropbox.ManualBackupsAreNewFiles | src/lib/services/dropbox.ts:132-157 | a manual backup never overwrites the automatic backup of the session, and manual backups at different seconds never overwrite each other |
| Dropbox.FileNameShape | src/lib/services/dropbox.ts:132-143 | the file name starts with the safe title, `_` and the session id, ends with `.json`, and contains no `/` when the title and id do not |
| Dropbox.BackupPathSplits | src/lib/services/dropbox.ts:145 | the upload path splits at `/` into exactly the root, the date folder and the file name |
| Dropbox.DateFoldersSpec | src/lib/services/dropbox.ts:189-201 | the listed date folders are exactly the folder entries whose name has the `YYYY-MM-DD` shape, newest first |
| Dropbox.JsonFiles | src/lib/services/dropbox.ts:207-209 | every listed file name ends with `.json` and there are at most as many as entries |
| Dropbox.JsonFilesComplete | src/lib/services/dropbox.ts:207-209 | every `.json` entry is listed with its name and lower-case path, and nothing else is |
| Dropbox.UploadFolderIsListed | src/lib/services/dropbox.ts:126-201 | a backup is stored in the date folder of its upload time, and that folder appears in the date-folder listing once it exists |
| Dropbox.DropboxService.constructor | src/lib/services/dropbox.ts:22-40 | the client exists exactly when a non-empty access token was stored |
| Dropbox.DropboxService.IsLoggedIn | src/lib/services/dropbox.ts:108-110 | logged in exactly when a client exists |
| Dropbox.DropboxService.Logout | src/lib/services/dropbox.ts:101-106 | after logout the service is not logged in |
| Dropbox.DropboxService.UploadSession | src/lib/services/dropbox.ts:114-166 | not logged in fails with "Not logged in"; an upload error is passed on; otherwise the backup goes to the date-folder path with the session's file name |
| Dropbox.DropboxService.ListDateFolders | src/lib/services/dropbox.ts:189-201 | empty when logged out or when listing fails, otherwise the date folders of the root listing |
| Dropbox.DropboxService.ListSessionsInDate | src/lib/services/dropbox.ts:203-214 | empty when logged out or when listing fails; otherwise the `.json` files of the given date folder |

## Left out

- I/O and the SDK: the Gemini SDK, Dexie/IndexedDB, `localStorage`, `fetch`, Dropbox network calls and console logging. Backend answers and listings are inputs. The tables are in-memory maps.
- Concurrency and timing: `setTimeout`, `AbortController`, `await tick()` and Svelte reactivity. The retry timer is the `RetryScheduled` phase, fired by `FireRetry`. The error dialog's callback closures are the `alert` states and the methods that answer them.
- One generation at a time: the model does not capture a node edited while a request is in flight, because the trigger node is looked up by id when the reply arrives.
- The repository writes that `ChatSession` issues (`saveLog`, `updateActiveChild`, `updateLogParent`, `updateLogText`, `deleteLog`, `createOrUpdateSession`) are not mirrored inside `Chat`. `ChatRepository` is modelled on its own.
- Log `metadata` and `tokenUsage` are not modelled. This covers request payloads, error records, the finish reason stored in metadata, and the JSON deep copies. The minimal-metadata truncation is modelled on the request payload in `AiOrchestrator`.
- `addFiles` and the upload flag: attachment processing (attachment.ts) is not part of this model. Attachments are given values.
- Floating-point pricing: USD costs, exchange rates and the date ranges of `getStats`. The cost before a request and the request's cost are abstract reals supplied by the caller. Whether the threshold was crossed reaches `AiOrchestrator` as the parameter `didCross`.
- Dropbox login (`login`, `handleAuthCallback`), `cleanupOldBackups`, `downloadSession` and the uploaded JSON content are not modelled. Only the login state, naming and listings are.
- Dates are compared as strings. `localeCompare` on ISO-8601 timestamps and date names is lexicographic order here. Expiry of attached files compares ISO strings instead of `Date` values.
- Strings are sequences of code points. `substring(0, 50)`, `slice(0, 30)` and the 1–10 character rule of `defineDictionary` count characters, not UTF-16 code units. `toLowerCase` is its ASCII part.
- Expired attachments are identified by value equality, standing in for object identity in `includes`.
- Repository.ChatRepository.LoadLogs: the order among logs with equal timestamps is not fixed, because IndexedDB's tie order is not visible in the source.
- Repository.ChatRepository.DuplicateSession: fresh ids are a caller-supplied injective sequence, assumed absent from the tables; a Dexie `ConstraintError` on a clash is not modelled.
- The image-correction dictionary applied to a reply is the corrector's state when the reply arrives, as in the source, where `correctText` reads the static dictionary after the `await`.
- `init` is not modelled as a method of its own. It is `GetLatestSessionId` followed by `Load`.
- Chat.Completed: the reply is read with the corrected `generate` (`AiOrchestrator.CorrectedGeneration`), which returns the first candidate's finish reason. The written one drops it, so here a finish note is appended where the source appends none. The as-written behaviour is kept in `AiOrchestrator.FinishReasonDropped` (see Findings).
- Chat.CompleteStep: the same corrected `generate` as `Chat.Completed`, so a finish note is appended that the written source never appends.
- Chat.ChatSession.CompleteGeneration: the same corrected `generate` as `Chat.Completed`, so a finish note is appended that the written source never appends.
- Gemini.PartText: the text of a dice part (`JSON.stringify` of the dice map) counts as empty. A debug trigger written inside a dice label is therefore not found, and the key order of the JSON text is not modelled.
- ErrorHandler.AnalyzeError: statuses are numbers or absent. `Number(...)` of a non-numeric status gives `NaN`, which matches no `case` of the status switch and takes its `default` branch; a non-numeric status is not modelled.

Where the code and its design description differ, the model follows the code:

- Stopping a generation does not restore the `activeChildId` cleared when it started.
- Error nodes written before a retry are stored without being attached to their parent.
- The active path may visit a node more than once when the `activeChildId` links form a cycle. Only its length is bounded, by the hop guard.

## Findings

| source | as written | input that shows it | evidently intended | confidence | as-written member | corrected member |
|---|---|---|---|---|---|---|
| src/lib/services/ai-orchestrator.ts:92-100 | the object `generate` returns has no `finishReason` field, so `getFinishReasonMessage(result.finishReason)` in src/lib/state/chat.svelte.ts:197 always receives `undefined` and no finish-reason note is ever appended to a reply | a reply whose first candidate has `finishReason: "SAFETY"` | the first candidate's finish reason is returned, so the safety, recitation, length or other note is appended | not executed | AiOrchestrator.FinishReasonDropped | AiOrchestrator.FinishReasonKept |
