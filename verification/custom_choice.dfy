/**
 * `CustomChoiceService` (src/lib/services/custom-choice.ts): picks one option at
 * random from each enabled choice list and hides the picks in front of the user's
 * text.  Its `cleanForAi`, `extractDisplayText` and `mergeHiddenAndDisplay` are those
 * of module `HiddenText`.  A list with no options takes no draw from `Math.random`.
 */
module CustomChoice {
  import opened Types
  import opened Text
  import opened Lists
  import opened HiddenText

  /** `Math.floor(Math.random() * n)`, an index into a list of `n` options. */
  function ChoiceIndex(draw: real, n: int): (k: int)
    requires 0.0 <= draw < 1.0 && n >= 1
    ensures 0 <= k < n
  {
    var x := draw * n as real;
    assert x < n as real by {
      assert (1.0 - draw) * n as real > 0.0;
    }
    x.Floor
  }

  /** `rollCustomChoice`: "" for an empty list, otherwise one of the options. */
  function RollCustomChoice(options: seq<string>, draw: real): (r: string)
    requires 0.0 <= draw < 1.0
    ensures |options| == 0 ==> r == ""
    ensures |options| > 0 ==> r in options
  {
    if |options| == 0 then "" else options[ChoiceIndex(draw, |options|)]
  }

  /** `settings.customChoiceRolls?.filter(c => c.isEnabled) ?? []`. */
  function ActiveChoices(settings: AppSettings): seq<CustomChoiceRoll> {
    Filter(settings.customChoiceRolls, (c: CustomChoiceRoll) => c.isEnabled)
  }

  /** Draws taken by the picks of `choices`: one per non-empty list. */
  function DrawsUsed(choices: seq<CustomChoiceRoll>): nat {
    if |choices| == 0 then 0
    else DrawsUsed(choices[..|choices| - 1]) + (if |choices[|choices| - 1].options| > 0 then 1 else 0)
  }

  /** The pick for the `k`-th list, made with the first draw after those of the lists before it. */
  function Pick(choices: seq<CustomChoiceRoll>, k: nat, draws: Draws): string
    requires k < |choices| && Uniform(draws)
  {
    RollCustomChoice(choices[k].options, draws(DrawsUsed(choices[..k])))
  }

  /** All picks, in configuration order. */
  function Picks(choices: seq<CustomChoiceRoll>, draws: Draws): (r: seq<string>)
    requires Uniform(draws)
    ensures |r| == |choices|
  {
    if |choices| == 0 then []
    else Picks(choices[..|choices| - 1], draws) + [Pick(choices, |choices| - 1, draws)]
  }

  /** `${instructionText}:${selected}`. */
  function Label(c: CustomChoiceRoll, selected: string): string {
    c.instructionText + ":" + selected
  }

  function Labels(choices: seq<CustomChoiceRoll>, picks: seq<string>): (r: seq<string>)
    requires |picks| == |choices|
    ensures |r| == |choices|
  {
    seq(|choices|, k requires 0 <= k < |choices| => Label(choices[k], picks[k]))
  }

  /** The hidden part for a non-empty list of enabled choices. */
  function ChoicePart(userInput: string, active: seq<CustomChoiceRoll>, markers: Option<Markers>, draws: Draws): string
    requires Uniform(draws)
  {
    var picks := Picks(active, draws);
    if UsesMarkers(markers) then
      MarkerStart(markers) + Join(Labels(active, picks), " ") + MarkerEnd(markers) + "\n"
    else
      var selectedString := Join(picks, ",");
      if userInput != "" then selectedString + "," else selectedString
  }

  /** The text `processInput` returns. */
  function StoredText(userInput: string, settings: AppSettings, draws: Draws): (r: string)
    requires Uniform(draws)
    ensures |ActiveChoices(settings)| == 0 ==> r == userInput
    ensures |ActiveChoices(settings)| > 0 ==>
      r == ChoicePart(userInput, ActiveChoices(settings), settings.customChoiceMarkers, draws) + DiceSeparator + userInput
  {
    var active := ActiveChoices(settings);
    if |active| == 0 then userInput
    else ChoicePart(userInput, active, settings.customChoiceMarkers, draws) + DiceSeparator + userInput
  }

  /** `processInput`, picking list after list as the source does. */
  method ProcessInput(userInput: string, settings: AppSettings, draws: Draws) returns (text: string)
    requires Uniform(draws)
    ensures text == StoredText(userInput, settings, draws)
  {
    var activeChoices := ActiveChoices(settings);
    if |activeChoices| == 0 {
      return userInput;
    }
    var markers := settings.customChoiceMarkers;
    var allSelected: seq<string> := [];
    var next: nat := 0;
    var i := 0;
    while i < |activeChoices|
      invariant 0 <= i <= |activeChoices|
      invariant allSelected == Picks(activeChoices[..i], draws)
      invariant next == DrawsUsed(activeChoices[..i])
    {
      var c := activeChoices[i];
      assert activeChoices[..i + 1][..i] == activeChoices[..i];
      var selected := RollCustomChoice(c.options, draws(next));
      if |c.options| > 0 {
        next := next + 1;
      }
      allSelected := allSelected + [selected];
      i := i + 1;
    }
    assert activeChoices[..i] == activeChoices;
    var choicePart: string;
    if UsesMarkers(markers) {
      choicePart := MarkerStart(markers) + Join(Labels(activeChoices, allSelected), " ") + MarkerEnd(markers) + "\n";
    } else {
      var selectedString := Join(allSelected, ",");
      choicePart := if userInput != "" then selectedString + "," else selectedString;
    }
    text := choicePart + DiceSeparator + userInput;
  }

  /** Picks of a prefix of the lists are a prefix of the picks. */
  lemma {:induction false} PicksPrefix(choices: seq<CustomChoiceRoll>, k: nat, draws: Draws)
    requires k <= |choices| && Uniform(draws)
    ensures Picks(choices, draws)[..k] == Picks(choices[..k], draws)
    decreases |choices|
  {
    if k < |choices| {
      var init := choices[..|choices| - 1];
      assert init[..k] == choices[..k];
      PicksPrefix(init, k, draws);
    } else {
      assert choices[..k] == choices;
    }
  }

  /** The pick for each enabled list is one of its own options, or "" when it has none. */
  lemma PicksFromOwnOptions(choices: seq<CustomChoiceRoll>, draws: Draws)
    requires Uniform(draws)
    ensures forall k :: 0 <= k < |choices| ==>
      if |choices[k].options| == 0 then Picks(choices, draws)[k] == ""
      else Picks(choices, draws)[k] in choices[k].options
  {
    var p := Picks(choices, draws);
    forall k | 0 <= k < |choices|
      ensures if |choices[k].options| == 0 then p[k] == "" else p[k] in choices[k].options
    {
      PicksPrefix(choices, k + 1, draws);
      var first := choices[..k + 1];
      assert first[..k] == choices[..k];
      assert p[k] == p[..k + 1][k] == Picks(first, draws)[k];
      assert Picks(first, draws)[k] == Pick(first, k, draws);
    }
  }

  /**
   * Extracting the display text from what `processInput` stores gives back the user's
   * input, provided the picks, labels and markers do not themselves form a separator
   * in front of the real one.
   */
  lemma StoredTextRoundTrip(userInput: string, settings: AppSettings, draws: Draws)
    requires Uniform(draws) && |ActiveChoices(settings)| > 0
    requires var h := ChoicePart(userInput, ActiveChoices(settings), settings.customChoiceMarkers, draws);
      !HasSeparator(h) &&
      (!UsesMarkers(settings.customChoiceMarkers) && userInput == "" ==> h == [] || h[|h| - 1] !in DiceSeparator)
    ensures ExtractDisplayText(StoredText(userInput, settings, draws)) == userInput
    ensures CleanForAi(StoredText(userInput, settings, draws))
      == ChoicePart(userInput, ActiveChoices(settings), settings.customChoiceMarkers, draws) + userInput
  {
    var h := ChoicePart(userInput, ActiveChoices(settings), settings.customChoiceMarkers, draws);
    assert DiceSeparator == [':', ':', ':', 'D', 'I', 'C', 'E', '_', 'S', 'E', 'P', ':', ':', ':'];
    if UsesMarkers(settings.customChoiceMarkers) {
      assert h[|h| - 1] == '\n';
    } else if userInput != "" {
      assert h[|h| - 1] == ',';
    }
    ExtractAfterCompose(h, userInput);
  }
}
