/**
 * The stored text of a user message is `hidden + DICE_SEPARATOR + visible`: the
 * hidden part holds dice rolls or custom choices meant for the model only.  These
 * are the helpers `cleanForAi`, `extractDisplayText` and `mergeHiddenAndDisplay`,
 * which `DiceService` (src/lib/services/dice.ts) and `CustomChoiceService`
 * (src/lib/services/custom-choice.ts) define identically.
 */
module HiddenText {
  import opened Types
  import opened Text

  predicate HasSeparator(text: string) {
    Contains(text, DiceSeparator)
  }

  /** Index of the first separator (meaningful when `HasSeparator(text)`). */
  function SepIndex(text: string): int {
    IndexOf(text, DiceSeparator)
  }

  /** `cleanForAi`: the stored text without its first separator. */
  function CleanForAi(text: string): (r: string)
    ensures !HasSeparator(text) ==> r == text
    ensures HasSeparator(text) ==>
      |r| == |text| - |DiceSeparator| && r == text[..SepIndex(text)] + text[SepIndex(text) + |DiceSeparator|..]
  {
    RemoveFirst(text, DiceSeparator)
  }

  /** `extractDisplayText`: what the user sees, everything after the first separator. */
  function ExtractDisplayText(text: string): (r: string)
    ensures !HasSeparator(text) ==> r == text
    ensures HasSeparator(text) ==> r == text[SepIndex(text) + |DiceSeparator|..]
  {
    if HasSeparator(text) then
      SplitTailJoin(text, DiceSeparator);
      Join(Split(text, DiceSeparator)[1..], DiceSeparator)
    else text
  }

  /** `mergeHiddenAndDisplay`: keeps the hidden prefix of the old text and puts `newDisplay` after it. */
  function MergeHiddenAndDisplay(original: string, newDisplay: string): (r: string)
    ensures !HasSeparator(original) ==> r == newDisplay
    ensures HasSeparator(original) ==>
      SepIndex(original) <= |r| && r[..SepIndex(original)] == original[..SepIndex(original)]
  {
    if HasSeparator(original) then
      SplitHead(original, DiceSeparator);
      Split(original, DiceSeparator)[0] + DiceSeparator + newDisplay
    else newDisplay
  }

  /**
   * Merging then extracting gives back the new display text, and the merged text has
   * its first separator where the original had it.
   */
  lemma ExtractAfterMerge(original: string, newDisplay: string)
    requires HasSeparator(original)
    ensures HasSeparator(MergeHiddenAndDisplay(original, newDisplay))
    ensures SepIndex(MergeHiddenAndDisplay(original, newDisplay)) == SepIndex(original)
    ensures ExtractDisplayText(MergeHiddenAndDisplay(original, newDisplay)) == newDisplay
  {
    var i := SepIndex(original);
    var n := i + |DiceSeparator|;
    var m := MergeHiddenAndDisplay(original, newDisplay);
    SplitHead(original, DiceSeparator);
    assert m == original[..i] + DiceSeparator + newDisplay;
    assert original[i..n] == DiceSeparator;
    assert m[..n] == original[..n] by {
      assert original[..n] == original[..i] + original[i..n];
    }
    OccursInPrefix(original, m, DiceSeparator, n, i);
    forall j | 0 <= j < i ensures !OccursAt(m, DiceSeparator, j) {
      OccursInPrefix(original, m, DiceSeparator, n, j);
    }
    IndexOfIs(m, DiceSeparator, i);
  }

  /**
   * When the hidden part holds no separator and does not end in a separator character,
   * the first separator of `hidden + SEP + visible` is the one placed between them.
   */
  lemma FirstSeparatorAfterHidden(hidden: string, visible: string)
    requires !HasSeparator(hidden)
    requires hidden == [] || hidden[|hidden| - 1] !in DiceSeparator
    ensures SepIndex(hidden + DiceSeparator + visible) == |hidden|
  {
    var t := hidden + DiceSeparator + visible;
    var h := |hidden|;
    assert t[h..h + |DiceSeparator|] == DiceSeparator;
    forall j | 0 <= j < h ensures !OccursAt(t, DiceSeparator, j) {
      if j + |DiceSeparator| <= h {
        assert t[j..j + |DiceSeparator|] == hidden[j..j + |DiceSeparator|];
        assert !OccursAt(hidden, DiceSeparator, j);
      } else {
        assert t[h - 1] == hidden[h - 1];
      }
    }
    IndexOfIs(t, DiceSeparator, h);
  }

  /** Composing a hidden part with a visible text and extracting gives the visible text back. */
  lemma ExtractAfterCompose(hidden: string, visible: string)
    requires !HasSeparator(hidden)
    requires hidden == [] || hidden[|hidden| - 1] !in DiceSeparator
    ensures HasSeparator(hidden + DiceSeparator + visible)
    ensures ExtractDisplayText(hidden + DiceSeparator + visible) == visible
    ensures CleanForAi(hidden + DiceSeparator + visible) == hidden + visible
  {
    var t := hidden + DiceSeparator + visible;
    FirstSeparatorAfterHidden(hidden, visible);
    assert t[|hidden| + |DiceSeparator|..] == visible;
    assert t[..|hidden|] == hidden;
  }
}
