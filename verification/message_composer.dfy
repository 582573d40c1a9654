/**
 * `MessageComposer` (src/lib/logic/message-composer.ts): builds the text stored for a
 * new user message (dice rolls hidden before the separator), rebuilds it with fresh
 * rolls for a regeneration, and turns stored texts into the parts sent to the model.
 * `Math.random` is the injected stream `draws`; the composer rolls its dice exactly as
 * `DiceService` does, so the rolls are those of module `Dice`.
 */
module MessageComposer {
  import opened Types
  import opened Text
  import opened HiddenText
  import Dice

  /* ---------------- the hidden dice part ---------------- */

  /** What `_generateDicePart` returns: "" with no enabled die, otherwise the dice part. */
  function DicePartFor(userText: string, settings: AppSettings, draws: Draws): string {
    var active := Dice.ActiveDice(settings);
    if |active| == 0 then "" else Dice.DicePart(userText, active, settings.diceRollMarkers, draws)
  }

  /**
   * `_generateDicePart`, die after die.  Its inner `for` loop over `diceCount` is the
   * loop of `DiceService.rollDice`, so it is `Dice.RollDice` here.
   */
  method GenerateDicePart(userText: string, settings: AppSettings, draws: Draws) returns (part: string)
    ensures part == DicePartFor(userText, settings, draws)
  {
    var activeDice := Dice.ActiveDice(settings);
    if |activeDice| == 0 {
      return "";
    }
    var markers := settings.diceRollMarkers;
    var next: nat := 0;
    var i := 0;
    if UsesMarkers(markers) {
      var parts: seq<string> := [];
      while i < |activeDice|
        invariant 0 <= i <= |activeDice|
        invariant parts == Dice.Labels(activeDice[..i], draws)
        invariant next == Dice.DrawsUsed(activeDice[..i])
      {
        var d := activeDice[i];
        Dice.RollStep(activeDice, i, draws);
        var rolls := Dice.RollDice(d.diceCount, d.diceType, draws, next);
        parts := parts + [Dice.Label(d, rolls)];
        next := next + Dice.Iterations(d.diceCount);
        i := i + 1;
      }
      assert activeDice[..i] == activeDice;
      part := MarkerStart(markers) + Join(parts, " ") + MarkerEnd(markers) + "\n";
    } else {
      var allRolls: seq<int> := [];
      while i < |activeDice|
        invariant 0 <= i <= |activeDice|
        invariant allRolls == Dice.AllRolls(activeDice[..i], draws)
        invariant next == Dice.DrawsUsed(activeDice[..i])
      {
        var d := activeDice[i];
        Dice.RollStep(activeDice, i, draws);
        var rolls := Dice.RollDice(d.diceCount, d.diceType, draws, next);
        allRolls := allRolls + rolls;
        next := next + Dice.Iterations(d.diceCount);
        i := i + 1;
      }
      assert activeDice[..i] == activeDice;
      var rollString := Join(Dice.Strs(allRolls), ",");
      part := if userText != "" then rollString + "," else rollString;
    }
  }

  /* ---------------- compose / recompose ---------------- */

  /** The `textToSave` of `compose`: the dice part and the separator in front of the text, when there is a dice part. */
  function ComposedText(userText: string, settings: AppSettings, draws: Draws): (r: string)
    ensures |Dice.ActiveDice(settings)| == 0 ==> r == userText
  {
    var dicePart := DicePartFor(userText, settings, draws);
    if dicePart != "" then dicePart + DiceSeparator + userText else userText
  }

  /** `compose`: the text to store and the request parts for it (without attachments). */
  method Compose(userText: string, settings: AppSettings, draws: Draws) returns (textToSave: string, apiContent: seq<Part>)
    ensures textToSave == ComposedText(userText, settings, draws)
    ensures apiContent == TextParts(textToSave, settings)
  {
    var dicePart := GenerateDicePart(userText, settings, draws);
    textToSave := if dicePart != "" then dicePart + DiceSeparator + userText else userText;
    apiContent := CreateApiPayload(textToSave, settings, []);
  }

  /** `recompose`: keeps the visible text of a stored message and rolls its dice again. */
  method Recompose(currentLogText: string, settings: AppSettings, draws: Draws) returns (textToSave: string)
    ensures textToSave == ComposedText(ExtractDisplayText(currentLogText), settings, draws)
  {
    var userText := currentLogText;
    if HasSeparator(currentLogText) {
      SplitTailJoin(currentLogText, DiceSeparator);
      userText := Join(Split(currentLogText, DiceSeparator)[1..], DiceSeparator);
    }
    var apiContent;
    textToSave, apiContent := Compose(userText, settings, draws);
  }

  /** A dice part is empty only in no-marker mode with no roll at all and no user text. */
  lemma DicePartEmpty(userText: string, settings: AppSettings, draws: Draws)
    requires |Dice.ActiveDice(settings)| > 0
    ensures DicePartFor(userText, settings, draws) == "" <==>
      !UsesMarkers(settings.diceRollMarkers) && Dice.DrawsUsed(Dice.ActiveDice(settings)) == 0 && userText == ""
  {
    var active := Dice.ActiveDice(settings);
    var rolls := Dice.AllRolls(active, draws);
    if !UsesMarkers(settings.diceRollMarkers) && |rolls| > 0 {
      JoinLastChar(Dice.Strs(rolls), ",");
    }
  }

  /**
   * `compose` stores what `DiceService.processInput` stores, except for the one case in
   * which the dice part is empty: there `compose` stores the bare (empty) text and
   * `processInput` stores a lone separator.
   */
  lemma ComposeMatchesDiceService(userText: string, settings: AppSettings, draws: Draws)
    ensures ComposedText(userText, settings, draws) == Dice.StoredText(userText, settings, draws) <==>
      !(|Dice.ActiveDice(settings)| > 0 && !UsesMarkers(settings.diceRollMarkers)
        && Dice.DrawsUsed(Dice.ActiveDice(settings)) == 0 && userText == "")
  {
    if |Dice.ActiveDice(settings)| > 0 {
      DicePartEmpty(userText, settings, draws);
      if DicePartFor(userText, settings, draws) == "" {
        assert Dice.StoredText(userText, settings, draws) == DiceSeparator;
      }
    }
  }

  /**
   * The user sees what they typed: extracting the display text from the composed text
   * gives it back, provided a marker-mode dice part does not itself hold the separator
   * and, when there is no dice part at all, the text holds none either.
   */
  lemma ComposeRoundTrip(userText: string, settings: AppSettings, draws: Draws)
    requires DicePartFor(userText, settings, draws) != "" || !HasSeparator(userText)
    requires UsesMarkers(settings.diceRollMarkers) ==> !HasSeparator(DicePartFor(userText, settings, draws))
    ensures ExtractDisplayText(ComposedText(userText, settings, draws)) == userText
    ensures CleanForAi(ComposedText(userText, settings, draws)) == DicePartFor(userText, settings, draws) + userText
  {
    var h := DicePartFor(userText, settings, draws);
    if h != "" {
      if UsesMarkers(settings.diceRollMarkers) {
        assert h[|h| - 1] == '\n';
      } else {
        Dice.NoMarkerPartSeparatorFree(userText, Dice.ActiveDice(settings), settings.diceRollMarkers, draws);
      }
      assert DiceSeparator == [':', ':', ':', 'D', 'I', 'C', 'E', '_', 'S', 'E', 'P', ':', ':', ':'];
      ExtractAfterCompose(h, userText);
    }
  }

  /** Regenerating keeps the user's text and replaces only the rolls with those of the new draws. */
  lemma RecomposeRerolls(userText: string, settings: AppSettings, first: Draws, second: Draws)
    requires DicePartFor(userText, settings, first) != "" || !HasSeparator(userText)
    requires UsesMarkers(settings.diceRollMarkers) ==> !HasSeparator(DicePartFor(userText, settings, first))
    ensures ComposedText(ExtractDisplayText(ComposedText(userText, settings, first)), settings, second)
      == ComposedText(userText, settings, second)
  {
    ComposeRoundTrip(userText, settings, first);
  }

  /* ---------------- the dice JSON of multipart requests ---------------- */

  /** A segment with a colon after at least one character is a `key:value` label. */
  predicate Labelled(w: string) {
    IndexOf(w, ":") > 0
  }

  function KeyOf(w: string): string
    requires Labelled(w)
  {
    w[..IndexOf(w, ":")]
  }

  function ValueOf(w: string): string
    requires Labelled(w)
  {
    w[IndexOf(w, ":") + 1..]
  }

  /** The record the labels among `ws` build, a later label overwriting an earlier one with the same key. */
  function Fields(ws: seq<string>): map<string, string> {
    if |ws| == 0 then map[]
    else
      var m := Fields(ws[..|ws| - 1]);
      var w := ws[|ws| - 1];
      if Labelled(w) then m[KeyOf(w) := ValueOf(w)] else m
  }

  predicate HasLabel(ws: seq<string>) {
    exists i :: 0 <= i < |ws| && Labelled(ws[i])
  }

  /** The record `_parseDiceToJson` serialises: the labels, or `{Dice: raw}` when there is none. */
  function DiceJson(raw: string): map<string, string> {
    var ws := Words(Trim(raw));
    if HasLabel(ws) then Fields(ws) else map["Dice" := raw]
  }

  /** `_parseDiceToJson`, with the source's loop over the whitespace-separated segments. */
  method ParseDiceToJson(raw: string) returns (result: map<string, string>)
    ensures result == DiceJson(raw)
  {
    var segments := Words(Trim(raw));
    var fields: map<string, string> := map[];
    var hasLabel := false;
    var i := 0;
    while i < |segments|
      invariant 0 <= i <= |segments|
      invariant fields == Fields(segments[..i])
      invariant hasLabel <==> HasLabel(segments[..i])
    {
      var seg := segments[i];
      ParseStep(segments, i);
      var colonIndex := IndexOf(seg, ":");
      if colonIndex > 0 {
        fields := fields[seg[..colonIndex] := seg[colonIndex + 1..]];
        hasLabel := true;
      }
      i := i + 1;
    }
    assert segments[..i] == segments;
    result := if hasLabel then fields else map["Dice" := raw];
  }

  /** One more segment adds its label, if it is one, to the record. */
  lemma ParseStep(ws: seq<string>, i: nat)
    requires i < |ws|
    ensures Fields(ws[..i + 1]) == if Labelled(ws[i]) then Fields(ws[..i])[KeyOf(ws[i]) := ValueOf(ws[i])] else Fields(ws[..i])
    ensures HasLabel(ws[..i + 1]) <==> HasLabel(ws[..i]) || Labelled(ws[i])
  {
    var pre := ws[..i + 1];
    assert pre[..i] == ws[..i];
    if HasLabel(pre) && !Labelled(ws[i]) {
      var k :| 0 <= k < i + 1 && Labelled(pre[k]);
      assert pre[k] == ws[..i][k];
    }
    if HasLabel(ws[..i]) {
      var k :| 0 <= k < i && Labelled(ws[..i][k]);
      assert pre[k] == ws[..i][k];
    }
    if Labelled(ws[i]) {
      assert Labelled(pre[i]);
    }
  }

  /** A label no later label overrides keeps its value in the record. */
  lemma {:induction false} LaterKeysWin(ws: seq<string>, i: nat)
    requires i < |ws| && Labelled(ws[i])
    requires forall j :: i < j < |ws| && Labelled(ws[j]) ==> KeyOf(ws[j]) != KeyOf(ws[i])
    ensures KeyOf(ws[i]) in Fields(ws) && Fields(ws)[KeyOf(ws[i])] == ValueOf(ws[i])
    decreases |ws|
  {
    if i < |ws| - 1 {
      var init := ws[..|ws| - 1];
      LaterKeysWin(init, i);
    }
  }

  /** The record has a key exactly for the keys of the labels. */
  lemma {:induction false} FieldKeys(ws: seq<string>, key: string)
    ensures key in Fields(ws) <==> exists i :: 0 <= i < |ws| && Labelled(ws[i]) && KeyOf(ws[i]) == key
    decreases |ws|
  {
    if |ws| > 0 {
      var init := ws[..|ws| - 1];
      FieldKeys(init, key);
      if exists i :: 0 <= i < |init| && Labelled(init[i]) && KeyOf(init[i]) == key {
        var i :| 0 <= i < |init| && Labelled(init[i]) && KeyOf(init[i]) == key;
        assert ws[i] == init[i];
      }
      if exists i :: 0 <= i < |ws| && Labelled(ws[i]) && KeyOf(ws[i]) == key {
        var i :| 0 <= i < |ws| && Labelled(ws[i]) && KeyOf(ws[i]) == key;
        if i < |ws| - 1 {
          assert init[i] == ws[i];
        }
      }
    }
  }

  /**
   * A marker-mode label whose instruction text is non-empty, has no whitespace and no
   * colon is a single segment whose key is the instruction and whose value the rolls.
   */
  lemma DiceLabelSegment(d: DiceRoll, rolls: seq<int>)
    requires d.instructionText != "" && NoWs(d.instructionText) && ':' !in d.instructionText
    ensures Dice.Label(d, rolls) != "" && NoWs(Dice.Label(d, rolls))
    ensures Labelled(Dice.Label(d, rolls))
    ensures KeyOf(Dice.Label(d, rolls)) == d.instructionText
    ensures ValueOf(Dice.Label(d, rolls)) == Join(Dice.Strs(rolls), ",")
  {
    LabelNoWs(d, rolls);
    LabelColon(d.instructionText, Join(Dice.Strs(rolls), ","));
  }

  lemma LabelNoWs(d: DiceRoll, rolls: seq<int>)
    requires NoWs(d.instructionText)
    ensures NoWs(Dice.Label(d, rolls))
  {
    var v := Join(Dice.Strs(rolls), ",");
    Dice.RollStringChars(rolls);
    RollCharsNoWs(v);
    NoWsConcat(d.instructionText, ":");
    NoWsConcat(d.instructionText + ":", v);
  }

  lemma RollCharsNoWs(v: string)
    requires CharsIn(v, Dice.RollChars + {','})
    ensures NoWs(v)
  {
    forall i | 0 <= i < |v| ensures !IsWs(v[i]) {
      assert v[i] in Dice.RollChars + {','};
    }
  }

  lemma NoWsConcat(a: string, b: string)
    requires NoWs(a) && NoWs(b)
    ensures NoWs(a + b)
  {
    forall i | 0 <= i < |a + b| ensures !IsWs((a + b)[i]) {
      if i >= |a| { assert (a + b)[i] == b[i - |a|]; }
    }
  }

  /** The first colon of `key:value` is the one after a colon-free key. */
  lemma LabelColon(key: string, value: string)
    requires ':' !in key
    ensures IndexOf(key + ":" + value, ":") == |key|
  {
    var w := key + ":" + value;
    assert OccursAt(w, ":", |key|);
    forall j | 0 <= j < |key| ensures !OccursAt(w, ":", j) {
      assert w[j] == key[j];
      assert w[j..j + 1] == [w[j]];
    }
    IndexOfIs(w, ":", |key|);
  }

  /**
   * What the model receives as the first part of a marker-mode multipart request: the
   * record maps each die's instruction text to its rolls joined with commas (the last
   * die wins when two share an instruction text).
   */
  lemma DiceJsonOfLabels(active: seq<DiceRoll>, draws: Draws, k: nat)
    requires k < |active|
    requires forall i :: 0 <= i < |active| ==>
      active[i].instructionText != "" && NoWs(active[i].instructionText) && ':' !in active[i].instructionText
    requires forall j :: k < j < |active| ==> active[j].instructionText != active[k].instructionText
    ensures var json := DiceJson(Join(Dice.Labels(active, draws), " "));
      active[k].instructionText in json
      && json[active[k].instructionText] == Join(Dice.Strs(Dice.DieRolls(active, k, draws)), ",")
  {
    var labels := Dice.Labels(active, draws);
    LabelsAreWords(active, draws);
    LabelAtSegment(active, draws, k);
    assert HasLabel(labels);
    LaterKeysWin(labels, k);
  }

  /** The space-joined labels split back into the labels, each a `key:value` word for its die. */
  lemma LabelsAreWords(active: seq<DiceRoll>, draws: Draws)
    requires forall i :: 0 <= i < |active| ==>
      active[i].instructionText != "" && NoWs(active[i].instructionText) && ':' !in active[i].instructionText
    ensures var labels := Dice.Labels(active, draws);
      && Words(Trim(Join(labels, " "))) == labels
      && forall i :: 0 <= i < |labels| ==>
           Labelled(labels[i]) && KeyOf(labels[i]) == active[i].instructionText
           && ValueOf(labels[i]) == Join(Dice.Strs(Dice.DieRolls(active, i, draws)), ",")
  {
    var labels := Dice.Labels(active, draws);
    forall i | 0 <= i < |active|
      ensures labels[i] != "" && NoWs(labels[i]) && Labelled(labels[i])
      ensures KeyOf(labels[i]) == active[i].instructionText
      ensures ValueOf(labels[i]) == Join(Dice.Strs(Dice.DieRolls(active, i, draws)), ",")
    {
      LabelAtSegment(active, draws, i);
    }
    if |labels| > 0 {
      WordsJoin(labels);
      JoinEnds(labels);
      TrimUnchanged(Join(labels, " "));
    } else {
      assert Join(labels, " ") == "";
    }
  }

  /** The `i`-th marker-mode label is a `key:value` word for die `i`. */
  lemma LabelAtSegment(active: seq<DiceRoll>, draws: Draws, i: nat)
    requires i < |active|
    requires active[i].instructionText != "" && NoWs(active[i].instructionText) && ':' !in active[i].instructionText
    ensures var l := Dice.Labels(active, draws)[i];
      && l != "" && NoWs(l) && Labelled(l)
      && KeyOf(l) == active[i].instructionText
      && ValueOf(l) == Join(Dice.Strs(Dice.DieRolls(active, i, draws)), ",")
  {
    Dice.LabelsAt(active, i, draws);
    DiceLabelSegment(active[i], Dice.DieRolls(active, i, draws));
  }

  /** A space-joined list of words that do not start or end with whitespace starts and ends with none. */
  lemma {:induction false} JoinEnds(parts: seq<string>)
    requires |parts| > 0
    requires forall i :: 0 <= i < |parts| ==> parts[i] != "" && NoWs(parts[i])
    ensures var s := Join(parts, " "); s != [] && !IsWs(s[0]) && !IsWs(s[|s| - 1])
    decreases |parts|
  {
    JoinLastChar(parts, " ");
    if |parts| > 1 {
      JoinEnds(parts[1..]);
    }
  }

  /* ---------------- request parts ---------------- */

  /** The request part of one attachment, if it can be sent. */
  function AttachmentPart(file: AttachedFile): Option<Part> {
    if file.storageType == Inline && Present(file.data) then Some(InlineData(file.mimeType, file.data.value))
    else if file.storageType == FireStorage && Present(file.fileUri) then Some(FileData(file.mimeType, file.fileUri.value))
    else None
  }

  /** The attachment parts, in attachment order; attachments without data or URI are skipped. */
  function AttachmentParts(files: seq<AttachedFile>): (r: seq<Part>)
    ensures |r| <= |files|
  {
    if |files| == 0 then []
    else
      var p := AttachmentPart(files[|files| - 1]);
      AttachmentParts(files[..|files| - 1]) + (if p.Some? then [p.value] else [])
  }

  /** Attachment parts keep the order of the attachments. */
  lemma {:induction false} AttachmentPartsAppend(a: seq<AttachedFile>, b: seq<AttachedFile>)
    ensures AttachmentParts(a + b) == AttachmentParts(a) + AttachmentParts(b)
    decreases |b|
  {
    if |b| > 0 {
      var init := b[..|b| - 1];
      assert (a + b)[..|a + b| - 1] == a + init;
      AttachmentPartsAppend(a, init);
    } else {
      assert a + b == a;
    }
  }

  /** Every sendable attachment has its part, and every part comes from a sendable attachment. */
  lemma {:induction false} AttachmentPartsComplete(files: seq<AttachedFile>)
    ensures forall i :: 0 <= i < |files| && AttachmentPart(files[i]).Some? ==>
      AttachmentPart(files[i]).value in AttachmentParts(files)
    ensures forall p :: p in AttachmentParts(files) ==>
      exists i :: 0 <= i < |files| && AttachmentPart(files[i]) == Some(p)
    decreases |files|
  {
    if |files| > 0 {
      var init := files[..|files| - 1];
      AttachmentPartsComplete(init);
      forall p | p in AttachmentParts(files)
        ensures exists i :: 0 <= i < |files| && AttachmentPart(files[i]) == Some(p)
      {
        if p in AttachmentParts(init) {
          var i :| 0 <= i < |init| && AttachmentPart(init[i]) == Some(p);
          assert files[i] == init[i];
        }
      }
    }
  }

  /** `useMultipart` of the dice markers, false when absent. */
  predicate UseMultipart(settings: AppSettings) {
    settings.diceRollMarkers.Some? && settings.diceRollMarkers.value.useMultipart
  }

  /** Removes a trailing line feed, then the start marker, then the end marker, each only where present. */
  function StripMarkers(raw: string, start: string, end: string): string {
    var r1 := if EndsWith(raw, "\n") then raw[..|raw| - 1] else raw;
    var r2 := if StartsWith(r1, start) then r1[|start|..] else r1;
    if EndsWith(r2, end) then r2[..|r2| - |end|] else r2
  }

  /** Stripping undoes the marker framing `_generateDicePart` puts around the labels. */
  lemma StripMarkersInverse(start: string, combined: string, end: string)
    ensures StripMarkers(start + combined + end + "\n", start, end) == combined
  {
    var raw := start + combined + end + "\n";
    assert raw[..|raw| - 1] == start + combined + end;
    assert (start + combined + end)[|start|..] == combined + end;
    assert (combined + end)[..|combined|] == combined;
  }

  /** The text parts of `createApiPayload`. */
  function TextParts(fullText: string, settings: AppSettings): seq<Part>
  {
    if HasSeparator(fullText) && UseMultipart(settings) then
      var markers := settings.diceRollMarkers;
      var dicePartRaw := StripMarkers(Split(fullText, DiceSeparator)[0], MarkerStart(markers), MarkerEnd(markers));
      // `parts.slice(1).join(DICE_SEPARATOR)` is the display text
      var userPartRaw := ExtractDisplayText(fullText);
      var part1 := if UsesMarkers(markers) then DiceJsonPart(DiceJson(dicePartRaw)) else TextPart(dicePartRaw);
      [part1] + (if userPartRaw != "" then [TextPart(userPartRaw)] else [])
    else
      var processedText := CleanForAi(fullText);
      if processedText != "" then [TextPart(processedText)] else []
  }

  /**
   * Without a separator or without multipart the request holds the cleaned text as one
   * part, or nothing when that is empty; with both, the dice part comes first and the
   * user's visible text follows as a second part when it is not empty.
   */
  lemma TextPartsShape(fullText: string, settings: AppSettings)
    ensures var r := TextParts(fullText, settings);
      !(HasSeparator(fullText) && UseMultipart(settings)) ==>
        (r == [] <==> CleanForAi(fullText) == "") && (r != [] ==> r == [TextPart(CleanForAi(fullText))])
    ensures var r := TextParts(fullText, settings);
      HasSeparator(fullText) && UseMultipart(settings) ==>
        1 <= |r| <= 2 && (|r| == 2 <==> ExtractDisplayText(fullText) != "")
        && (|r| == 2 ==> r[1] == TextPart(ExtractDisplayText(fullText)))
  {
    if HasSeparator(fullText) && UseMultipart(settings) {
      var r := TextParts(fullText, settings);
      assert |r| == 2 <==> ExtractDisplayText(fullText) != "";
    }
  }

  /** `createApiPayload`: the text parts followed by the parts of the attachments. */
  method CreateApiPayload(fullText: string, settings: AppSettings, attachments: seq<AttachedFile>) returns (parts: seq<Part>)
    ensures parts == TextParts(fullText, settings) + AttachmentParts(attachments)
  {
    var textParts := TextParts(fullText, settings);
    var attachmentParts := AttachmentPayload(attachments);
    parts := textParts + attachmentParts;
  }

  /** The attachment loop of `createApiPayload`. */
  method AttachmentPayload(attachments: seq<AttachedFile>) returns (attachmentParts: seq<Part>)
    ensures attachmentParts == AttachmentParts(attachments)
  {
    attachmentParts := [];
    var i := 0;
    while i < |attachments|
      invariant 0 <= i <= |attachments|
      invariant attachmentParts == AttachmentParts(attachments[..i])
    {
      assert attachments[..i + 1][..i] == attachments[..i];
      var file := attachments[i];
      if file.storageType == Inline && Present(file.data) {
        attachmentParts := attachmentParts + [InlineData(file.mimeType, file.data.value)];
      } else if file.storageType == FireStorage && Present(file.fileUri) {
        attachmentParts := attachmentParts + [FileData(file.mimeType, file.fileUri.value)];
      }
      i := i + 1;
    }
    assert attachments[..i] == attachments;
  }

  /**
   * A composed marker-mode message sent as multipart reaches the model as the record of
   * its dice labels, followed by the user's text when there is any.
   */
  lemma MultipartOfComposed(userText: string, settings: AppSettings, draws: Draws)
    requires |Dice.ActiveDice(settings)| > 0 && UsesMarkers(settings.diceRollMarkers) && UseMultipart(settings)
    requires !HasSeparator(DicePartFor(userText, settings, draws))
    ensures TextParts(ComposedText(userText, settings, draws), settings)
      == [DiceJsonPart(DiceJson(Join(Dice.Labels(Dice.ActiveDice(settings), draws), " ")))]
         + (if userText != "" then [TextPart(userText)] else [])
  {
    var markers := settings.diceRollMarkers;
    var combined := Join(Dice.Labels(Dice.ActiveDice(settings), draws), " ");
    var h := DicePartFor(userText, settings, draws);
    assert h == MarkerStart(markers) + combined + MarkerEnd(markers) + "\n";
    var t := h + DiceSeparator + userText;
    assert DiceSeparator == [':', ':', ':', 'D', 'I', 'C', 'E', '_', 'S', 'E', 'P', ':', ':', ':'];
    assert h[|h| - 1] == '\n';
    ExtractAfterCompose(h, userText);
    FirstSeparatorAfterHidden(h, userText);
    SplitHead(t, DiceSeparator);
    assert t[..|h|] == h;
    StripMarkersInverse(MarkerStart(markers), combined, MarkerEnd(markers));
  }

  /** Without multipart a composed message reaches the model as one text: dice part and user text joined. */
  lemma SinglePartOfComposed(userText: string, settings: AppSettings, draws: Draws)
    requires !UseMultipart(settings)
    requires DicePartFor(userText, settings, draws) != ""
    requires UsesMarkers(settings.diceRollMarkers) ==> !HasSeparator(DicePartFor(userText, settings, draws))
    ensures TextParts(ComposedText(userText, settings, draws), settings)
      == [TextPart(DicePartFor(userText, settings, draws) + userText)]
  {
    ComposeRoundTrip(userText, settings, draws);
  }

  /* ---------------- history ---------------- */

  /** One history turn: `user` for user messages, `model` otherwise. */
  function HistoryTurn(l: Log): Content {
    Content(if l.speaker == User then "user" else "model",
      [TextPart(CleanForAi(l.text))] + AttachmentParts(l.attachments))
  }

  /** `formatHistoryForApi`: one turn per log, in order, with the separator removed from each text. */
  function FormatHistoryForApi(logs: seq<Log>): (r: seq<Content>)
    ensures |r| == |logs|
    ensures forall i :: 0 <= i < |logs| ==>
      (r[i].role == "user" <==> logs[i].speaker == User)
      && |r[i].parts| >= 1 && r[i].parts[0] == TextPart(CleanForAi(logs[i].text))
      && r[i].parts[1..] == AttachmentParts(logs[i].attachments)
  {
    seq(|logs|, i requires 0 <= i < |logs| => HistoryTurn(logs[i]))
  }

  /**
   * In single-part mode a message with text appears in later history exactly as it was
   * sent: the same parts that `createApiPayload` made for it.
   */
  lemma HistoryMatchesPayload(l: Log, settings: AppSettings)
    requires !UseMultipart(settings) && CleanForAi(l.text) != ""
    ensures FormatHistoryForApi([l])[0].parts == TextParts(l.text, settings) + AttachmentParts(l.attachments)
  {
  }
}
