/**
 * `DiceService` (src/lib/services/dice.ts): rolls the enabled dice and hides the
 * result in front of the user's text, before the separator.  `Math.random` is the
 * injected stream `draws`; dice are rolled in configuration order and each die takes
 * `diceCount` consecutive draws.
 */
module Dice {
  import opened Types
  import opened Text
  import opened Lists
  import opened HiddenText

  /** One die: `Math.floor(Math.random() * type) + 1`. */
  function Roll(draw: real, diceType: int): int {
    (draw * diceType as real).Floor + 1
  }

  /** A draw in [0, 1) gives a face in [1, diceType]. */
  lemma RollInRange(draw: real, diceType: int)
    requires 0.0 <= draw < 1.0 && diceType >= 1
    ensures 1 <= Roll(draw, diceType) <= diceType
  {
    var t := diceType as real;
    assert draw * t < t by {
      assert (1.0 - draw) * t > 0.0;
    }
    assert 0.0 <= draw * t;
  }

  /** How many times `for (let i = 0; i < count; i++)` runs. */
  function Iterations(count: int): nat {
    if count > 0 then count else 0
  }

  /** The values `rollDice(count, type)` returns when its draws start at `draws(from)`. */
  function Rolls(count: int, diceType: int, draws: Draws, from: nat): (r: seq<int>)
    ensures |r| == Iterations(count)
  {
    seq(Iterations(count), i requires 0 <= i < Iterations(count) => Roll(draws(from + i), diceType))
  }

  /** `rollDice`: exactly `count` values (none for `count <= 0`), each in [1, type] for a proper die. */
  lemma RollsInRange(count: int, diceType: int, draws: Draws, from: nat)
    requires Uniform(draws) && diceType >= 1
    ensures |Rolls(count, diceType, draws, from)| == Iterations(count)
    ensures forall i :: 0 <= i < Iterations(count) ==> 1 <= Rolls(count, diceType, draws, from)[i] <= diceType
  {
    forall i | 0 <= i < Iterations(count) ensures 1 <= Rolls(count, diceType, draws, from)[i] <= diceType {
      RollInRange(draws(from + i), diceType);
    }
  }

  /** `rollDice`, with the source's loop. */
  method RollDice(count: int, diceType: int, draws: Draws, from: nat) returns (rolls: seq<int>)
    ensures rolls == Rolls(count, diceType, draws, from)
  {
    rolls := [];
    var i: nat := 0;
    while i < count
      invariant i <= Iterations(count)
      invariant rolls == Rolls(i, diceType, draws, from)
    {
      rolls := rolls + [Roll(draws(from + i), diceType)];
      i := i + 1;
    }
  }

  /** `settings.diceRolls?.filter(d => d.isEnabled) ?? []`. */
  function ActiveDice(settings: AppSettings): seq<DiceRoll> {
    Filter(settings.diceRolls, (d: DiceRoll) => d.isEnabled)
  }

  /** Draws taken by rolling all of `dice` in order. */
  function DrawsUsed(dice: seq<DiceRoll>): nat {
    if |dice| == 0 then 0 else DrawsUsed(dice[..|dice| - 1]) + Iterations(dice[|dice| - 1].diceCount)
  }

  /** The rolls of the `k`-th die, which starts after the draws of the dice before it. */
  function DieRolls(dice: seq<DiceRoll>, k: nat, draws: Draws): seq<int>
    requires k < |dice|
  {
    Rolls(dice[k].diceCount, dice[k].diceType, draws, DrawsUsed(dice[..k]))
  }

  function Strs(xs: seq<int>): (r: seq<string>)
    ensures |r| == |xs|
  {
    seq(|xs|, i requires 0 <= i < |xs| => IntToString(xs[i]))
  }

  /** `${instructionText}:${rolls.join(',')}`. */
  function Label(d: DiceRoll, rolls: seq<int>): string {
    d.instructionText + ":" + Join(Strs(rolls), ",")
  }

  /** The marker-mode labels, one per die. */
  function Labels(dice: seq<DiceRoll>, draws: Draws): (r: seq<string>)
    ensures |r| == |dice|
  {
    if |dice| == 0 then []
    else Labels(dice[..|dice| - 1], draws) + [Label(dice[|dice| - 1], DieRolls(dice, |dice| - 1, draws))]
  }

  /** The no-marker-mode rolls: those of every die, in order. */
  function AllRolls(dice: seq<DiceRoll>, draws: Draws): (r: seq<int>)
    ensures |r| == DrawsUsed(dice)
  {
    if |dice| == 0 then []
    else AllRolls(dice[..|dice| - 1], draws) + DieRolls(dice, |dice| - 1, draws)
  }

  /** The hidden part for a non-empty list of enabled dice. */
  function DicePart(userInput: string, active: seq<DiceRoll>, markers: Option<Markers>, draws: Draws): string {
    if UsesMarkers(markers) then
      MarkerStart(markers) + Join(Labels(active, draws), " ") + MarkerEnd(markers) + "\n"
    else
      var rollString := Join(Strs(AllRolls(active, draws)), ",");
      if userInput != "" then rollString + "," else rollString
  }

  /** The text `processInput` returns. */
  function StoredText(userInput: string, settings: AppSettings, draws: Draws): (r: string)
    ensures |ActiveDice(settings)| == 0 ==> r == userInput
    ensures |ActiveDice(settings)| > 0 ==>
      r == DicePart(userInput, ActiveDice(settings), settings.diceRollMarkers, draws) + DiceSeparator + userInput
  {
    var active := ActiveDice(settings);
    if |active| == 0 then userInput
    else DicePart(userInput, active, settings.diceRollMarkers, draws) + DiceSeparator + userInput
  }

  /** `processInput`, rolling die after die as the source does. */
  method ProcessInput(userInput: string, settings: AppSettings, draws: Draws) returns (text: string)
    ensures text == StoredText(userInput, settings, draws)
  {
    var activeDice := ActiveDice(settings);
    if |activeDice| == 0 {
      return userInput;
    }
    var markers := settings.diceRollMarkers;
    var dicePart: string;
    if UsesMarkers(markers) {
      var parts := RollLabels(activeDice, draws);
      dicePart := MarkerStart(markers) + Join(parts, " ") + MarkerEnd(markers) + "\n";
    } else {
      var allRolls := RollAll(activeDice, draws);
      var rollString := Join(Strs(allRolls), ",");
      dicePart := if userInput != "" then rollString + "," else rollString;
    }
    text := dicePart + DiceSeparator + userInput;
  }

  /** The marker-mode loop of `processInput`: one label per die, each die taking the draws after the last. */
  method RollLabels(activeDice: seq<DiceRoll>, draws: Draws) returns (parts: seq<string>)
    ensures parts == Labels(activeDice, draws)
  {
    parts := [];
    var next: nat := 0;
    var i := 0;
    while i < |activeDice|
      invariant 0 <= i <= |activeDice|
      invariant parts == Labels(activeDice[..i], draws)
      invariant next == DrawsUsed(activeDice[..i])
    {
      var d := activeDice[i];
      RollStep(activeDice, i, draws);
      var rolls := RollDice(d.diceCount, d.diceType, draws, next);
      parts := parts + [Label(d, rolls)];
      next := next + Iterations(d.diceCount);
      i := i + 1;
    }
    assert activeDice[..i] == activeDice;
  }

  /** The other loop of `processInput`: the rolls of every die, in order. */
  method RollAll(activeDice: seq<DiceRoll>, draws: Draws) returns (allRolls: seq<int>)
    ensures allRolls == AllRolls(activeDice, draws)
  {
    allRolls := [];
    var next: nat := 0;
    var i := 0;
    while i < |activeDice|
      invariant 0 <= i <= |activeDice|
      invariant allRolls == AllRolls(activeDice[..i], draws)
      invariant next == DrawsUsed(activeDice[..i])
    {
      var d := activeDice[i];
      RollStep(activeDice, i, draws);
      var rolls := RollDice(d.diceCount, d.diceType, draws, next);
      allRolls := allRolls + rolls;
      next := next + Iterations(d.diceCount);
      i := i + 1;
    }
    assert activeDice[..i] == activeDice;
  }

  /** Rolling one more die appends its label and its rolls, and moves the draw position past them. */
  lemma RollStep(dice: seq<DiceRoll>, i: nat, draws: Draws)
    requires i < |dice|
    ensures var r := Rolls(dice[i].diceCount, dice[i].diceType, draws, DrawsUsed(dice[..i]));
      && Labels(dice[..i + 1], draws) == Labels(dice[..i], draws) + [Label(dice[i], r)]
      && AllRolls(dice[..i + 1], draws) == AllRolls(dice[..i], draws) + r
      && DrawsUsed(dice[..i + 1]) == DrawsUsed(dice[..i]) + Iterations(dice[i].diceCount)
  {
    assert dice[..i + 1][..i] == dice[..i];
  }

  /** The `k`-th marker-mode label is that of die `k` with its own rolls. */
  lemma {:induction false} LabelsAt(dice: seq<DiceRoll>, k: nat, draws: Draws)
    requires k < |dice|
    ensures Labels(dice, draws)[k] == Label(dice[k], DieRolls(dice, k, draws))
    decreases |dice|
  {
    if k < |dice| - 1 {
      var init := dice[..|dice| - 1];
      assert init[..k] == dice[..k];
      LabelsAt(init, k, draws);
    }
  }

  /** The rolls of the first `k` dice are a prefix of the rolls of all of them. */
  lemma {:induction false} AllRollsPrefix(dice: seq<DiceRoll>, k: nat, draws: Draws)
    requires k <= |dice|
    ensures DrawsUsed(dice[..k]) <= DrawsUsed(dice)
    ensures AllRolls(dice, draws)[..DrawsUsed(dice[..k])] == AllRolls(dice[..k], draws)
    decreases |dice|
  {
    if k < |dice| {
      var init := dice[..|dice| - 1];
      assert init[..k] == dice[..k];
      AllRollsPrefix(init, k, draws);
    } else {
      assert dice[..k] == dice;
    }
  }

  /**
   * In no-marker mode, die `k` contributes exactly its own rolls, at the position after
   * the dice before it; with a draw stream from `Math.random` each lies in [1, diceType].
   */
  lemma AllRollsOfDie(dice: seq<DiceRoll>, k: nat, draws: Draws)
    requires k < |dice|
    ensures DrawsUsed(dice[..k]) + Iterations(dice[k].diceCount) <= |AllRolls(dice, draws)|
    ensures AllRolls(dice, draws)[DrawsUsed(dice[..k])..DrawsUsed(dice[..k]) + Iterations(dice[k].diceCount)]
      == DieRolls(dice, k, draws)
    ensures Uniform(draws) && dice[k].diceType >= 1 ==>
      forall r :: r in DieRolls(dice, k, draws) ==> 1 <= r <= dice[k].diceType
  {
    var pre := DrawsUsed(dice[..k]);
    var n := Iterations(dice[k].diceCount);
    AllRollsPrefix(dice, k + 1, draws);
    var first := dice[..k + 1];
    assert first[..k] == dice[..k];
    assert DrawsUsed(first) == pre + n;
    assert AllRolls(first, draws) == AllRolls(dice[..k], draws) + DieRolls(dice, k, draws);
    var all := AllRolls(dice, draws);
    assert all[pre..pre + n] == all[..pre + n][pre..pre + n];
    if Uniform(draws) && dice[k].diceType >= 1 {
      RollsInRange(dice[k].diceCount, dice[k].diceType, draws, pre);
    }
  }

  const RollChars: set<char> := {'-', '0', '1', '2', '3', '4', '5', '6', '7', '8', '9'}

  lemma RollStringChars(rolls: seq<int>)
    ensures CharsIn(Join(Strs(rolls), ","), RollChars + {','})
  {
    JoinCharsIn(Strs(rolls), ",", RollChars + {','});
  }

  /**
   * In no-marker mode the hidden part ends with a comma exactly when the user typed
   * something.
   */
  lemma NoMarkerTrailingComma(userInput: string, active: seq<DiceRoll>, markers: Option<Markers>, draws: Draws)
    requires !UsesMarkers(markers)
    ensures EndsWith(DicePart(userInput, active, markers, draws), ",") <==> userInput != ""
  {
    var rolls := AllRolls(active, draws);
    var rollString := Join(Strs(rolls), ",");
    if |rolls| > 0 {
      JoinLastChar(Strs(rolls), ",");
      var last := rollString[|rollString| - 1];
      assert '0' <= last <= '9';
      if userInput == "" {
        assert rollString[|rollString| - 1..] == [last];
      }
    }
  }

  /** None of the characters of a roll string occurs in the separator. */
  lemma RollCharsNotInSeparator()
    ensures forall c :: c in RollChars + {','} ==> c !in DiceSeparator
  {
    assert DiceSeparator == [':', ':', ':', 'D', 'I', 'C', 'E', '_', 'S', 'E', 'P', ':', ':', ':'];
  }

  /** The no-marker hidden part is made of digits, minus signs and commas, so it cannot hold the separator. */
  lemma NoMarkerPartSeparatorFree(userInput: string, active: seq<DiceRoll>, markers: Option<Markers>, draws: Draws)
    requires !UsesMarkers(markers)
    ensures var h := DicePart(userInput, active, markers, draws);
      !HasSeparator(h) && (h == [] || h[|h| - 1] !in DiceSeparator)
  {
    var h := DicePart(userInput, active, markers, draws);
    var rs := Join(Strs(AllRolls(active, draws)), ",");
    var allowed := RollChars + {','};
    RollStringChars(AllRolls(active, draws));
    RollCharsNotInSeparator();
    assert CharsIn(h, allowed) by {
      forall i | 0 <= i < |h| ensures h[i] in allowed {
        if i < |rs| { assert h[i] == rs[i]; }
      }
    }
    assert ':' !in h by {
      forall i | 0 <= i < |h| ensures h[i] != ':' {
        assert h[i] in allowed;
      }
    }
    NoOccurrenceWithoutHead(h, DiceSeparator);
  }

  /**
   * Extracting the display text from what `processInput` stores gives back the user's
   * input, and `cleanForAi` joins the hidden part directly to it.  In marker mode this
   * needs the configured labels and markers to be free of the separator; the rolls of
   * no-marker mode never contain it.
   */
  lemma StoredTextRoundTrip(userInput: string, settings: AppSettings, draws: Draws)
    requires |ActiveDice(settings)| > 0
    requires UsesMarkers(settings.diceRollMarkers) ==>
      !HasSeparator(DicePart(userInput, ActiveDice(settings), settings.diceRollMarkers, draws))
    ensures ExtractDisplayText(StoredText(userInput, settings, draws)) == userInput
    ensures CleanForAi(StoredText(userInput, settings, draws))
      == DicePart(userInput, ActiveDice(settings), settings.diceRollMarkers, draws) + userInput
  {
    var markers := settings.diceRollMarkers;
    var h := DicePart(userInput, ActiveDice(settings), markers, draws);
    if !UsesMarkers(markers) {
      NoMarkerPartSeparatorFree(userInput, ActiveDice(settings), markers, draws);
    } else {
      assert h[|h| - 1] == '\n';
    }
    ExtractAfterCompose(h, userInput);
  }
}
