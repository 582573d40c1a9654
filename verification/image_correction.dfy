/**
 * `ImageCorrectionService` (src/lib/services/image-correction.ts): learns a dictionary
 * (base URL, image extension, whitelisted keywords) from the first user message and
 * rewrites the image-link lines of a reply into `![C](base/kw1/kw2.ext "画像")`,
 * keeping only whitelisted keywords matched within a small edit distance.  The static
 * `dictionary` field is the field of a `Corrector` object.
 */
module ImageCorrection {
  import opened Types
  import opened Text

  /** `ALLOWED_EXTENSIONS`, in the order the fallback pattern tries them. */
  const AllowedExtensions: seq<string> := ["jpg", "png", "webp", "avif", "jpeg", "gif"]

  datatype Dictionary = Dictionary(baseUrl: Option<string>, extension: Option<string>, keywords: seq<string>)

  /* ---------------- edit distance ---------------- */

  function Min3(a: int, b: int, c: int): (m: int)
    ensures m <= a && m <= b && m <= c
    ensures m == a || m == b || m == c
  {
    if a <= b && a <= c then a else if b <= c then b else c
  }

  /** Levenshtein distance, by the recurrence on the last characters. */
  function EditDistance(s: string, t: string): nat
    decreases |s| + |t|
  {
    if |s| == 0 then |t|
    else if |t| == 0 then |s|
    else Min3(EditDistance(s[..|s| - 1], t) + 1,
              EditDistance(s, t[..|t| - 1]) + 1,
              EditDistance(s[..|s| - 1], t[..|t| - 1]) + (if s[|s| - 1] == t[|t| - 1] then 0 else 1))
  }

  /** One cell of the table in terms of its three neighbours, for prefixes of `s` and `t`. */
  lemma EditDistanceStep(s: string, t: string, i: nat, j: nat)
    requires 1 <= i <= |s| && 1 <= j <= |t|
    ensures EditDistance(s[..i], t[..j]) ==
      Min3(EditDistance(s[..i - 1], t[..j]) + 1,
           EditDistance(s[..i], t[..j - 1]) + 1,
           EditDistance(s[..i - 1], t[..j - 1]) + (if s[i - 1] == t[j - 1] then 0 else 1))
  {
    assert s[..i][..i - 1] == s[..i - 1];
    assert t[..j][..j - 1] == t[..j - 1];
  }

  /** `_levenshtein`: the dynamic-programming table, filled row by row. */
  method Levenshtein(s1: string, s2: string) returns (dist: nat)
    ensures dist == EditDistance(s1, s2)
  {
    var len1 := |s1|;
    var len2 := |s2|;
    var d := new nat[len1 + 1, len2 + 1];
    for i := 0 to len1 + 1
      invariant forall i' :: 0 <= i' < i ==> d[i', 0] == i'
    {
      d[i, 0] := i;
    }
    for j := 0 to len2 + 1
      invariant forall i' :: 0 <= i' <= len1 ==> d[i', 0] == i'
      invariant forall j' :: 0 <= j' < j ==> d[0, j'] == j'
    {
      d[0, j] := j;
    }
    for i := 1 to len1 + 1
      invariant forall i', j' :: 0 <= i' < i && 0 <= j' <= len2 ==> d[i', j'] == EditDistance(s1[..i'], s2[..j'])
      invariant forall i' :: i <= i' <= len1 ==> d[i', 0] == i'
    {
      FillRow(d, s1, s2, i);
    }
    assert s1[..len1] == s1 && s2[..len2] == s2;
    dist := d[len1, len2];
  }

  /** Row `i` of the table, from row `i - 1` and the first column; the other rows stay as they are. */
  method FillRow(d: array2<nat>, s1: string, s2: string, i: nat)
    requires d.Length0 == |s1| + 1 && d.Length1 == |s2| + 1 && 1 <= i <= |s1|
    requires forall j' :: 0 <= j' <= |s2| ==> d[i - 1, j'] == EditDistance(s1[..i - 1], s2[..j'])
    requires d[i, 0] == i
    modifies d
    ensures forall j' :: 0 <= j' <= |s2| ==> d[i, j'] == EditDistance(s1[..i], s2[..j'])
    ensures forall i', j' :: 0 <= i' <= |s1| && 0 <= j' <= |s2| && i' != i ==> d[i', j'] == old(d[i', j'])
  {
    assert d[i, 0] == EditDistance(s1[..i], s2[..0]);
    for j := 1 to |s2| + 1
      invariant forall j' :: 0 <= j' < j ==> d[i, j'] == EditDistance(s1[..i], s2[..j'])
      invariant forall i', j' :: 0 <= i' <= |s1| && 0 <= j' <= |s2| && i' != i ==> d[i', j'] == old(d[i', j'])
    {
      var cost := if s1[i - 1] == s2[j - 1] then 0 else 1;
      var above, left, diagonal := d[i - 1, j], d[i, j - 1], d[i - 1, j - 1];
      EditDistanceStep(s1, s2, i, j);
      d[i, j] := Min3(above + 1, left + 1, diagonal + cost);
      assert d[i, j] == EditDistance(s1[..i], s2[..j]);
    }
  }

  /** A string is at distance 0 from itself, and only from itself. */
  lemma {:induction false} EditDistanceZero(s: string, t: string)
    ensures EditDistance(s, t) == 0 <==> s == t
    decreases |s| + |t|
  {
    if |s| > 0 && |t| > 0 {
      EditDistanceZero(s[..|s| - 1], t[..|t| - 1]);
      if s == t {
        assert s[..|s| - 1] == t[..|t| - 1];
      }
    }
  }

  /** The distance lies between the difference and the larger of the two lengths. */
  lemma {:induction false} EditDistanceBounds(s: string, t: string)
    ensures EditDistance(s, t) <= if |s| < |t| then |t| else |s|
    ensures EditDistance(s, t) >= if |s| < |t| then |t| - |s| else |s| - |t|
    decreases |s| + |t|
  {
    if |s| > 0 && |t| > 0 {
      EditDistanceBounds(s[..|s| - 1], t);
      EditDistanceBounds(s, t[..|t| - 1]);
      EditDistanceBounds(s[..|s| - 1], t[..|t| - 1]);
    }
  }

  lemma {:induction false} EditDistanceSymmetric(s: string, t: string)
    ensures EditDistance(s, t) == EditDistance(t, s)
    decreases |s| + |t|
  {
    if |s| > 0 && |t| > 0 {
      EditDistanceSymmetric(s[..|s| - 1], t);
      EditDistanceSymmetric(s, t[..|t| - 1]);
      EditDistanceSymmetric(s[..|s| - 1], t[..|t| - 1]);
    }
  }

  /* ---------------- fuzzy extension search ---------------- */

  /** The `len` characters of `text` from `i` are within distance 1 of `target`. */
  predicate WithinOne(text: string, target: string, i: int, len: int) {
    0 <= i && 0 <= len && i + len <= |text| && EditDistance(text[i..i + len], target) <= 1
  }

  /** A substring of length `|target|` or `|target| - 1` at `i` is within distance 1 of `target`. */
  predicate FuzzyAt(text: string, target: string, i: int) {
    WithinOne(text, target, i, |target|) || WithinOne(text, target, i, |target| - 1)
  }

  function FuzzyIndexFrom(text: string, target: string, i: nat): (r: int)
    ensures r == -1 || (i <= r <= |text| && FuzzyAt(text, target, r))
    ensures r != -1 ==> forall j :: i <= j < r ==> !FuzzyAt(text, target, j)
    ensures r == -1 ==> forall j :: i <= j <= |text| ==> !FuzzyAt(text, target, j)
    decreases |text| + 1 - i
  {
    if i > |text| then -1
    else if FuzzyAt(text, target, i) then i
    else FuzzyIndexFrom(text, target, i + 1)
  }

  /**
   * The first position of a near-occurrence of `target`, or -1.  The early exit for a
   * text shorter than `|target| - 1` loses nothing: no position can match then.
   */
  function FuzzyIndex(text: string, target: string): (r: int)
    requires |target| >= 1
    ensures r == -1 <==> forall j :: 0 <= j <= |text| ==> !FuzzyAt(text, target, j)
    ensures r != -1 ==> (0 <= r <= |text| && FuzzyAt(text, target, r)
                         && forall j :: 0 <= j < r ==> !FuzzyAt(text, target, j))
  {
    if |text| < |target| - 1 then -1 else FuzzyIndexFrom(text, target, 0)
  }

  /** `_findFuzzyExtensionIndex`; the target is always "." followed by the extension. */
  method FindFuzzyExtensionIndex(text: string, target: string) returns (r: int)
    requires |target| >= 1
    ensures r == FuzzyIndex(text, target)
  {
    var targetLen := |target|;
    var textLen := |text|;
    if textLen < targetLen - 1 {
      return -1;
    }
    var i := 0;
    while i <= textLen
      invariant 0 <= i <= textLen + 1
      invariant FuzzyIndexFrom(text, target, 0) == FuzzyIndexFrom(text, target, i)
    {
      var near := NearAt(text, target, i);
      if near {
        return i;
      }
      i := i + 1;
    }
    return -1;
  }

  /** The inner loop of `_findFuzzyExtensionIndex`: the two lengths tried at position `i`. */
  method NearAt(text: string, target: string, i: nat) returns (near: bool)
    requires |target| >= 1
    ensures near == FuzzyAt(text, target, i)
  {
    var targetLen := |target|;
    var lengthsToCheck := [targetLen, targetLen - 1];
    var k := 0;
    while k < 2
      invariant 0 <= k <= 2
      invariant forall k' :: 0 <= k' < k ==> !WithinOne(text, target, i, lengthsToCheck[k'])
    {
      var len := lengthsToCheck[k];
      if i + len <= |text| {
        var dist := Levenshtein(text[i..i + len], target);
        if dist <= 1 {
          return true;
        }
      }
      k := k + 1;
    }
    assert !WithinOne(text, target, i, lengthsToCheck[0]) && !WithinOne(text, target, i, lengthsToCheck[1]);
    return false;
  }

  /* ---------------- keyword whitelist ---------------- */

  /** The acceptance thresholds: exact for keywords of up to 2 characters, 1 edit up to 5, 2 edits beyond. */
  predicate Acceptable(keyword: string, dist: nat) {
    if |keyword| <= 2 then dist == 0 else if |keyword| <= 5 then dist <= 1 else dist <= 2
  }

  predicate Accepted(input: string, keyword: string) {
    Acceptable(keyword, EditDistance(input, keyword))
  }

  /**
   * The index of the keyword the running minimum of `_findClosestKeywordWithLog` ends
   * on, or -1.
   */
  function BestIndex(input: string, keywords: seq<string>): (p: int)
    ensures -1 <= p < |keywords|
  {
    if |keywords| == 0 then -1
    else
      var n := |keywords| - 1;
      var p := BestIndex(input, keywords[..n]);
      if p >= 0 && EditDistance(input, keywords[n]) >= EditDistance(input, keywords[p]) then p
      else if Accepted(input, keywords[n]) then n
      else p
  }

  /**
   * The running minimum ends on the earliest accepted keyword at the least distance
   * among accepted ones, and on -1 exactly when no keyword is accepted.
   */
  lemma {:induction false} BestIndexIsBest(input: string, keywords: seq<string>)
    ensures var p := BestIndex(input, keywords);
      && (p == -1 <==> forall q :: 0 <= q < |keywords| ==> !Accepted(input, keywords[q]))
      && (p >= 0 ==> Accepted(input, keywords[p]))
      && (p >= 0 ==> forall q :: 0 <= q < |keywords| && Accepted(input, keywords[q]) ==>
            EditDistance(input, keywords[q]) >= EditDistance(input, keywords[p]))
      && (p >= 0 ==> forall q :: 0 <= q < p && Accepted(input, keywords[q]) ==>
            EditDistance(input, keywords[q]) > EditDistance(input, keywords[p]))
    decreases |keywords|
  {
    if |keywords| > 0 {
      var n := |keywords| - 1;
      var init := keywords[..n];
      BestIndexIsBest(input, init);
      assert forall q :: 0 <= q < n ==> init[q] == keywords[q];
    }
  }

  datatype KeywordMatch = KeywordMatch(matched: bool, word: string, distance: int)

  /** `_findClosestKeywordWithLog`: the best keyword, or the input itself with distance -1. */
  function ClosestKeyword(input: string, keywords: seq<string>): (r: KeywordMatch)
    ensures r.matched ==> r.word in keywords && Accepted(input, r.word) && r.distance == EditDistance(input, r.word)
    ensures !r.matched ==> r.word == input && r.distance == -1
  {
    BestIndexIsBest(input, keywords);
    var p := BestIndex(input, keywords);
    if p >= 0 && keywords[p] != "" then KeywordMatch(true, keywords[p], EditDistance(input, keywords[p]))
    else KeywordMatch(false, input, -1)
  }

  /**
   * For the non-empty inputs it is called with, a keyword matches exactly when some
   * keyword is accepted, and no accepted keyword is closer than the one returned.
   */
  lemma ClosestKeywordIsBest(input: string, keywords: seq<string>)
    requires input != ""
    ensures var r := ClosestKeyword(input, keywords);
      && (r.matched <==> exists q :: 0 <= q < |keywords| && Accepted(input, keywords[q]))
      && (r.matched ==> forall k :: k in keywords && Accepted(input, k) ==> EditDistance(input, k) >= r.distance)
  {
    BestIndexIsBest(input, keywords);
    var p := BestIndex(input, keywords);
    if p >= 0 {
      if keywords[p] == "" {
        assert EditDistance(input, "") == |input|;
      }
    }
  }

  /** The running minimum of `_findClosestKeywordWithLog`. */
  method FindClosestKeyword(input: string, keywords: seq<string>) returns (r: KeywordMatch)
    ensures r == ClosestKeyword(input, keywords)
  {
    var bestMatch: Option<string> := None;
    var bestIndex := -1;
    var minDistance: Option<nat> := None;
    for i := 0 to |keywords|
      invariant bestIndex == BestIndex(input, keywords[..i])
      invariant bestIndex == -1 ==> bestMatch.None? && minDistance.None?
      invariant bestIndex >= 0 ==> (bestMatch == Some(keywords[bestIndex])
                                    && minDistance == Some(EditDistance(input, keywords[bestIndex])))
    {
      assert keywords[..i + 1][..i] == keywords[..i];
      assert bestIndex >= 0 ==> keywords[..i][bestIndex] == keywords[bestIndex];
      var target := keywords[i];
      var dist := Levenshtein(input, target);
      if minDistance.Some? && dist >= minDistance.value {
        continue;
      }
      var len := |target|;
      var isAcceptable := false;
      if len <= 2 {
        if dist == 0 { isAcceptable := true; }
      } else if len <= 5 {
        if dist <= 1 { isAcceptable := true; }
      } else {
        if dist <= 2 { isAcceptable := true; }
      }
      if isAcceptable {
        minDistance := Some(dist);
        bestMatch := Some(target);
        bestIndex := i;
      }
    }
    assert keywords[..|keywords|] == keywords;
    if bestMatch.Some? && bestMatch.value != "" {
      return KeywordMatch(true, bestMatch.value, minDistance.value);
    }
    return KeywordMatch(false, input, -1);
  }

  /* ---------------- target lines ---------------- */

  /** A case-insensitive (ASCII) search for a lower-case word. */
  predicate ContainsIgnoringCase(line: string, word: string) {
    Contains(ToLower(line), word)
  }

  /** How many of the three signals a line shows: `https?`, the extension, `app|com`. */
  function Signals(extension: string, line: string): nat {
    (if ContainsIgnoringCase(line, "http") then 1 else 0)
    + (if Contains(ToLower(line), extension) then 1 else 0)
    + (if ContainsIgnoringCase(line, "app") || ContainsIgnoringCase(line, "com") then 1 else 0)
  }

  /** `_isTargetLine`: an extension is known and the line shows at least two of the three signals. */
  function IsTargetLine(d: Dictionary, line: string): (r: bool)
    ensures r <==> (Present(d.extension) &&
      var http := ContainsIgnoringCase(line, "http");
      var ext := Contains(ToLower(line), d.extension.value);
      var host := ContainsIgnoringCase(line, "app") || ContainsIgnoringCase(line, "com");
      (http && ext) || (http && host) || (ext && host))
  {
    Present(d.extension) && Signals(d.extension.value, line) >= 2
  }

  /* ---------------- cleaning a candidate ---------------- */

  const LeadingNoise: set<char> := {'"', '\'', '(', '!'}
  const TrailingNoise: set<char> := {'"', '\'', ')', '!'}

  /** Removes the longest prefix made of `noise` characters. */
  function DropLeading(s: string, noise: set<char>): (r: string)
    ensures |r| <= |s| && r == s[|s| - |r|..]
    ensures r == "" || r[0] !in noise
  {
    if |s| > 0 && s[0] in noise then DropLeading(s[1..], noise) else s
  }

  /** Removes the longest suffix made of `noise` characters. */
  function DropTrailing(s: string, noise: set<char>): (r: string)
    ensures |r| <= |s| && r == s[..|r|]
    ensures r == "" || r[|r| - 1] !in noise
  {
    if |s| > 0 && s[|s| - 1] in noise then DropTrailing(s[..|s| - 1], noise) else s
  }

  predicate Noise(c: char) {
    c == '-' || c == ',' || c == '.' || IsWs(c)
  }

  /** Removes every hyphen, comma, dot and whitespace character. */
  function RemoveNoise(s: string): (r: string)
    ensures forall j :: 0 <= j < |r| ==> !Noise(r[j])
    ensures |r| <= |s|
  {
    if |s| == 0 then ""
    else (if Noise(s[0]) then "" else [s[0]]) + RemoveNoise(s[1..])
  }

  /** The two `replace` calls: outer quote, bracket and `!` runs, then all noise characters. */
  function Clean(s: string): string {
    RemoveNoise(DropTrailing(DropLeading(s, LeadingNoise), TrailingNoise))
  }

  /* ---------------- rewriting a line ---------------- */

  /** The separators of a path: `/` and `\`. */
  function PathParts(line: string): seq<string> {
    SplitAny(line, {'/', '\\'})
  }

  /**
   * The keyword candidate part `i` yields, or `None` when it is skipped: empty after
   * trimming; the last part without a near-occurrence of ".ext" (otherwise cut there);
   * empty after cleaning.
   */
  function PartCandidate(extension: string, parts: seq<string>, i: nat): Option<string>
    requires i < |parts|
  {
    var candidate := Trim(parts[i]);
    if candidate == "" then None
    else
      var cut :=
        if i == |parts| - 1 then
          var splitIndex := FuzzyIndex(candidate, "." + extension);
          if splitIndex == -1 then None else Some(candidate[..splitIndex])
        else Some(candidate);
      if cut.None? then None
      else
        var cleaned := Clean(cut.value);
        if cleaned == "" then None else Some(cleaned)
  }

  /** The accepted keywords of `parts[..n]`, in order. */
  function ValidKeywords(d: Dictionary, parts: seq<string>, n: nat): (r: seq<string>)
    requires n <= |parts|
    ensures forall k :: 0 <= k < |r| ==> r[k] in d.keywords
  {
    if n == 0 then []
    else
      var valid := ValidKeywords(d, parts, n - 1);
      var candidate := PartCandidate(OrElse(d.extension, ""), parts, n - 1);
      if candidate.None? then valid
      else
        var result := ClosestKeyword(candidate.value, d.keywords);
        if result.matched then valid + [result.word] else valid
  }

  const AltText: string := " \"画像\")"

  /** The rebuilt image line. */
  function RebuiltLine(d: Dictionary, valid: seq<string>): string {
    "![C](" + OrElse(d.baseUrl, "") + "/" + Join(valid, "/") + "." + OrElse(d.extension, "") + AltText
  }

  /** One line of `correctText`. */
  function CorrectLine(d: Dictionary, line: string): (r: string)
    ensures !IsTargetLine(d, line) ==> r == line
    ensures r == line || (IsTargetLine(d, line)
      && r == RebuiltLine(d, ValidKeywords(d, PathParts(line), |PathParts(line)|))
      && |ValidKeywords(d, PathParts(line), |PathParts(line)|)| > 0)
    ensures IsTargetLine(d, line) && |ValidKeywords(d, PathParts(line), |PathParts(line)|)| > 0
      ==> r == RebuiltLine(d, ValidKeywords(d, PathParts(line), |PathParts(line)|))
  {
    if !IsTargetLine(d, line) then line
    else
      var parts := PathParts(line);
      var valid := ValidKeywords(d, parts, |parts|);
      if |valid| == 0 then line else RebuiltLine(d, valid)
  }

  function CorrectLines(d: Dictionary, lines: seq<string>): (r: seq<string>)
    ensures |r| == |lines|
    ensures forall i :: 0 <= i < |r| ==> r[i] == CorrectLine(d, lines[i])
  {
    seq(|lines|, i requires 0 <= i < |lines| => CorrectLine(d, lines[i]))
  }

  /** `correctText`: line by line, and only with a complete dictionary. */
  function CorrectedText(d: Dictionary, text: string): (r: string)
    ensures !Present(d.baseUrl) || !Present(d.extension) ==> r == text
  {
    if !Present(d.baseUrl) || !Present(d.extension) then text
    else Join(CorrectLines(d, SplitChar(text, '\n')), "\n")
  }

  /* ---------------- the dictionary ---------------- */

  /** A character a host name may contain in the base-URL pattern: not `/`, not whitespace. */
  predicate HostChar(c: char) {
    c != '/' && !IsWs(c)
  }

  /** The longest prefix of host characters. */
  function HostRun(s: string): (r: string)
    ensures |r| <= |s| && r == s[..|r|]
    ensures forall j :: 0 <= j < |r| ==> HostChar(r[j])
  {
    if |s| > 0 && HostChar(s[0]) then [s[0]] + HostRun(s[1..]) else ""
  }

  /** ".app" or ".com", ignoring case, at `k`, after at least one host character. */
  predicate TldAt(run: string, k: int) {
    1 <= k && k + 4 <= |run| && (ToLower(run[k..k + 4]) == ".app" || ToLower(run[k..k + 4]) == ".com")
  }

  /** The greedy host match backs off to the last such position at or before `k`. */
  function LastTld(run: string, k: int): (r: int)
    ensures r == -1 || (1 <= r <= k && TldAt(run, r))
    ensures forall j :: r < j <= k ==> !TldAt(run, j)
    decreases k
  {
    if k < 1 then -1 else if TldAt(run, k) then k else LastTld(run, k - 1)
  }

  const HttpsPrefix: string := "https://"

  /** A match of the base-URL pattern starting at `i`. */
  function BaseUrlAt(text: string, i: nat): (r: Option<string>)
    ensures r.Some? ==> (|r.value| >= 8 && i + |r.value| <= |text| && r.value == text[i..i + |r.value|]
                         && ToLower(r.value[..8]) == HttpsPrefix && forall j :: 8 <= j < |r.value| ==> HostChar(r.value[j]))
    ensures r.Some? ==> |r.value| >= 13 && TldAt(r.value[8..], |r.value| - 12)
    ensures r.Some? ==> var run := HostRun(text[i + 8..]);
      |r.value| - 8 <= |run| && forall j :: |r.value| - 12 < j ==> !TldAt(run, j)
    ensures i + 8 <= |text| && ToLower(text[i..i + 8]) == HttpsPrefix ==>
      var run := HostRun(text[i + 8..]);
      (exists j :: TldAt(run, j)) ==> r.Some?
  {
    if i + 8 <= |text| && ToLower(text[i..i + 8]) == HttpsPrefix then
      var run := HostRun(text[i + 8..]);
      var k := LastTld(run, |run| - 4);
      if k >= 1 then
        assert text[i..i + 8 + k + 4][8..] == run[..k + 4];
        assert run[..k + 4][k..k + 4] == run[k..k + 4];
        Some(text[i..i + 8 + k + 4])
      else None
    else None
  }

  /**
   * A regular-expression search without the global flag: the match at the first
   * position from `i` below `n` where `matchAt` finds one.
   */
  function Leftmost<T>(matchAt: nat -> Option<T>, i: nat, n: nat): (r: Option<T>)
    ensures r.Some? ==> exists j :: i <= j < n && matchAt(j) == r
    decreases n - i
  {
    if i >= n then None
    else if matchAt(i).Some? then matchAt(i)
    else Leftmost(matchAt, i + 1, n)
  }

  /** No match anywhere gives none; otherwise the first position that matches decides. */
  lemma {:induction false} LeftmostFirst<T>(matchAt: nat -> Option<T>, i: nat, n: nat)
    ensures Leftmost(matchAt, i, n).None? <==> forall j :: i <= j < n ==> matchAt(j).None?
    ensures forall j ::
      i <= j < n && matchAt(j).Some? && (forall k :: i <= k < j ==> matchAt(k).None?) ==>
        Leftmost(matchAt, i, n) == matchAt(j)
    decreases n - i
  {
    if i < n && matchAt(i).None? {
      LeftmostFirst(matchAt, i + 1, n);
    }
  }

  /** The leftmost match at or after `i`. */
  function BaseUrlFrom(text: string, i: nat): (r: Option<string>)
    ensures r.Some? ==> exists j :: i <= j < |text| && BaseUrlAt(text, j) == r
    decreases |text| - i
  {
    if i >= |text| then None
    else if BaseUrlAt(text, i).Some? then BaseUrlAt(text, i)
    else BaseUrlFrom(text, i + 1)
  }

  lemma {:induction false} BaseUrlFromIsLeftmost(text: string, i: nat)
    ensures BaseUrlFrom(text, i) == Leftmost((j: nat) => BaseUrlAt(text, j), i, |text|)
    decreases |text| - i
  {
    if i < |text| && BaseUrlAt(text, i).None? {
      BaseUrlFromIsLeftmost(text, i + 1);
    }
  }

  /**
   * `BaseUrlFrom` is the leftmost match: none when no position from `i` on matches, and
   * otherwise the match at the first position that matches.
   */
  lemma {:induction false} BaseUrlFromLeftmost(text: string, i: nat)
    ensures BaseUrlFrom(text, i).None? <==> forall j :: i <= j < |text| ==> BaseUrlAt(text, j).None?
    ensures forall j ::
      i <= j < |text| && BaseUrlAt(text, j).Some? && (forall k :: i <= k < j ==> BaseUrlAt(text, k).None?) ==>
        BaseUrlFrom(text, i) == BaseUrlAt(text, j)
  {
    var matchAt := (j: nat) => BaseUrlAt(text, j);
    BaseUrlFromIsLeftmost(text, i);
    LeftmostFirst(matchAt, i, |text|);
    forall j | i <= j < |text| ensures matchAt(j) == BaseUrlAt(text, j) { }
  }

  predicate WordChar(c: char) {
    'a' <= c <= 'z' || 'A' <= c <= 'Z' || '0' <= c <= '9' || c == '_'
  }

  /** `\.ext\b`, ignoring case, at `i`. */
  predicate ExtAt(text: string, i: nat, ext: string) {
    i < |text| && text[i] == '.' && i + 1 + |ext| <= |text| && ToLower(text[i + 1..i + 1 + |ext|]) == ext
    && (i + 1 + |ext| == |text| || !WordChar(text[i + 1 + |ext|]))
  }

  /** The first alternative from index `k` on that matches at `i`. */
  function FirstExtFrom(text: string, i: nat, alternatives: seq<string>, k: nat): (r: Option<string>)
    ensures r.Some? ==> r.value in alternatives && ExtAt(text, i, r.value)
    decreases |alternatives| - k
  {
    if k >= |alternatives| then None
    else if ExtAt(text, i, alternatives[k]) then Some(alternatives[k])
    else FirstExtFrom(text, i, alternatives, k + 1)
  }

  /** The first alternative that matches at `i`. */
  function FirstExtAt(text: string, i: nat, alternatives: seq<string>): (r: Option<string>)
    ensures r.Some? ==> r.value in alternatives && ExtAt(text, i, r.value)
  {
    FirstExtFrom(text, i, alternatives, 0)
  }

  /** Trying the alternatives from index `k` on, in order. */
  lemma {:induction false} FirstExtFromFirst(text: string, i: nat, alternatives: seq<string>, k: nat)
    ensures FirstExtFrom(text, i, alternatives, k).None? <==> forall k' :: k <= k' < |alternatives| ==> !ExtAt(text, i, alternatives[k'])
    ensures forall k' ::
      k <= k' < |alternatives| && ExtAt(text, i, alternatives[k']) && (forall k'' :: k <= k'' < k' ==> !ExtAt(text, i, alternatives[k''])) ==>
        FirstExtFrom(text, i, alternatives, k) == Some(alternatives[k'])
    decreases |alternatives| - k
  {
    if k < |alternatives| && !ExtAt(text, i, alternatives[k]) {
      FirstExtFromFirst(text, i, alternatives, k + 1);
    }
  }

  /**
   * The regular-expression alternation tries its alternatives in order: none matches
   * when no alternative matches at `i`, and otherwise the first that does.
   */
  lemma FirstExtAtFirst(text: string, i: nat, alternatives: seq<string>)
    ensures FirstExtAt(text, i, alternatives).None? <==> forall k :: 0 <= k < |alternatives| ==> !ExtAt(text, i, alternatives[k])
    ensures forall k ::
      0 <= k < |alternatives| && ExtAt(text, i, alternatives[k]) && (forall k' :: 0 <= k' < k ==> !ExtAt(text, i, alternatives[k'])) ==>
        FirstExtAt(text, i, alternatives) == Some(alternatives[k])
  {
    FirstExtFromFirst(text, i, alternatives, 0);
  }

  /** The fallback extension pattern `\.(alternatives)\b`: the leftmost `.ext` with a word boundary after it. */
  function FallbackExtension(text: string, i: nat, alternatives: seq<string>): (r: Option<string>)
    ensures r.Some? ==> r.value in alternatives
    decreases |text| - i
  {
    if i >= |text| then None
    else
      var m := FirstExtAt(text, i, alternatives);
      if m.Some? then m else FallbackExtension(text, i + 1, alternatives)
  }

  lemma {:induction false} FallbackIsLeftmost(text: string, i: nat, alternatives: seq<string>)
    ensures FallbackExtension(text, i, alternatives) == Leftmost((j: nat) => FirstExtAt(text, j, alternatives), i, |text|)
    decreases |text| - i
  {
    if i < |text| && FirstExtAt(text, i, alternatives).None? {
      FallbackIsLeftmost(text, i + 1, alternatives);
    }
  }

  /**
   * The fallback pattern finds the leftmost position where one of the alternatives
   * matches, and there the first alternative that matches.
   */
  lemma FallbackLeftmost(text: string, i: nat, alternatives: seq<string>)
    ensures FallbackExtension(text, i, alternatives).None? <==> forall j :: i <= j < |text| ==> FirstExtAt(text, j, alternatives).None?
    ensures forall j ::
      i <= j < |text| && FirstExtAt(text, j, alternatives).Some? && (forall j' :: i <= j' < j ==> FirstExtAt(text, j', alternatives).None?) ==>
        FallbackExtension(text, i, alternatives) == FirstExtAt(text, j, alternatives)
  {
    var matchAt := (j: nat) => FirstExtAt(text, j, alternatives);
    FallbackIsLeftmost(text, i, alternatives);
    LeftmostFirst(matchAt, i, |text|);
    forall j | i <= j < |text| ensures matchAt(j) == FirstExtAt(text, j, alternatives) { }
  }

  /** The fallback finds nothing exactly when no alternative matches anywhere from `i` on. */
  lemma FallbackNone(text: string, i: nat, alternatives: seq<string>)
    ensures FallbackExtension(text, i, alternatives).None? <==>
      forall j, k :: i <= j < |text| && 0 <= k < |alternatives| ==> !ExtAt(text, j, alternatives[k])
  {
    FallbackLeftmost(text, i, alternatives);
    var r := FallbackExtension(text, i, alternatives);
    if r.None? {
      forall j, k | i <= j < |text| && 0 <= k < |alternatives| ensures !ExtAt(text, j, alternatives[k]) {
        FirstExtAtFirst(text, j, alternatives);
      }
    } else {
      var j :| i <= j < |text| && FirstExtAt(text, j, alternatives).Some?;
      var v := FirstExtAt(text, j, alternatives).value;
      var k :| 0 <= k < |alternatives| && alternatives[k] == v;
      assert ExtAt(text, j, alternatives[k]);
    }
  }

  datatype SegmentInfo = SegmentInfo(keyword: Option<string>, extension: Option<string>)

  /**
   * What one comma- or newline-separated segment contributes: nothing when it trims to
   * more than 10 characters or to nothing; an allowed extension after its last dot is
   * split off, lower-cased.
   */
  function SegmentOf(segment: string): (r: SegmentInfo)
    ensures r.keyword.Some? ==> 1 <= |r.keyword.value| <= 10
    ensures r.extension.Some? ==> r.extension.value in AllowedExtensions
  {
    var s := Trim(segment);
    if |s| == 0 || |s| > 10 then SegmentInfo(None, None)
    else
      var dotIndex := LastIndexOfChar(s, '.');
      if dotIndex != -1 && ToLower(s[dotIndex + 1..]) in AllowedExtensions then
        SegmentInfo(if dotIndex > 0 then Some(s[..dotIndex]) else None, Some(ToLower(s[dotIndex + 1..])))
      else SegmentInfo(Some(s), None)
  }

  /**
   * What a segment yields, in terms of its trimmed text `s` and the last dot `d` in it:
   * nothing outside 1 to 10 characters; the lower-cased part after `d` as the extension
   * when it is an allowed one, with the part before `d` (if any) as the keyword;
   * otherwise the whole of `s` as the keyword.
   */
  lemma SegmentOfParts(segment: string)
    ensures var s := Trim(segment);
      (|s| == 0 || |s| > 10) ==> SegmentOf(segment) == SegmentInfo(None, None)
    ensures var s := Trim(segment); var d := LastIndexOfChar(s, '.'); var r := SegmentOf(segment);
      1 <= |s| <= 10 ==>
        && (r.extension.Some? <==> d != -1 && ToLower(s[d + 1..]) in AllowedExtensions)
        && (r.extension.Some? ==> r.extension.value == ToLower(s[d + 1..]) && r.keyword == (if d > 0 then Some(s[..d]) else None))
        && (r.extension.None? ==> r.keyword == Some(s))
  { }

  /** The keywords of the segments, in segment order. */
  function Keywords(segments: seq<string>): (r: seq<string>)
    ensures |r| <= |segments|
    ensures forall k :: 0 <= k < |r| ==> 1 <= |r[k]| <= 10
  {
    if |segments| == 0 then []
    else
      var info := SegmentOf(segments[|segments| - 1]);
      Keywords(segments[..|segments| - 1]) + (if info.keyword.Some? then [info.keyword.value] else [])
  }

  /**
   * A value found by the first element of `xs` that `found` finds one in, tried
   * element by element in order and kept once found.
   */
  function FirstFound<T>(xs: seq<T>, found: T -> Option<string>): (r: Option<string>)
    ensures r.Some? ==> exists k :: 0 <= k < |xs| && found(xs[k]) == r
  {
    if |xs| == 0 then None
    else
      var earlier := FirstFound(xs[..|xs| - 1], found);
      if earlier.Some? then earlier else found(xs[|xs| - 1])
  }

  /** Nothing is found exactly when no element finds anything; otherwise the first element that does decides. */
  lemma {:induction false} FirstFoundFirst<T>(xs: seq<T>, found: T -> Option<string>)
    ensures FirstFound(xs, found).None? ==> forall k :: 0 <= k < |xs| ==> found(xs[k]).None?
    ensures (forall k :: 0 <= k < |xs| ==> found(xs[k]).None?) ==> FirstFound(xs, found).None?
    ensures forall k ::
      0 <= k < |xs| && found(xs[k]).Some? && (forall j :: 0 <= j < k ==> found(xs[j]).None?) ==>
        FirstFound(xs, found) == found(xs[k])
    decreases |xs|
  {
    if |xs| > 0 {
      var n := |xs| - 1;
      var init := xs[..n];
      FirstFoundFirst(init, found);
      assert forall k :: 0 <= k < n ==> init[k] == xs[k];
    }
  }

  /** The extension of the first segment that has one. */
  function FirstExtension(segments: seq<string>): (r: Option<string>)
    ensures r.Some? ==> r.value in AllowedExtensions
  {
    if |segments| == 0 then None
    else
      var earlier := FirstExtension(segments[..|segments| - 1]);
      if earlier.Some? then earlier else SegmentOf(segments[|segments| - 1]).extension
  }

  lemma {:induction false} FirstExtensionIsFirstFound(segments: seq<string>)
    ensures FirstExtension(segments) == FirstFound(segments, (segment: string) => SegmentOf(segment).extension)
    decreases |segments|
  {
    if |segments| > 0 {
      FirstExtensionIsFirstFound(segments[..|segments| - 1]);
    }
  }

  /** The keywords of a single segment: its keyword, when it has one. */
  lemma KeywordsSingle(segment: string)
    ensures Keywords([segment]) == if SegmentOf(segment).keyword.Some? then [SegmentOf(segment).keyword.value] else []
  {
    assert [segment][..0] == [];
  }

  /**
   * The keywords of consecutive runs of segments follow one another: together with
   * `KeywordsSingle`, the keywords are those of the segments one by one, in order.
   */
  lemma {:induction false} KeywordsAppend(a: seq<string>, b: seq<string>)
    ensures Keywords(a + b) == Keywords(a) + Keywords(b)
    decreases |b|
  {
    if |b| == 0 {
      assert a + b == a;
    } else {
      var n := |b| - 1;
      assert (a + b)[..|a + b| - 1] == a + b[..n];
      assert (a + b)[|a + b| - 1] == b[n];
      KeywordsAppend(a, b[..n]);
    }
  }

  /**
   * The extension the segment loop settles on is that of the first segment that has
   * one, and there is none exactly when no segment has one.
   */
  lemma FirstExtensionFirst(segments: seq<string>)
    ensures FirstExtension(segments).None? <==> forall k :: 0 <= k < |segments| ==> SegmentOf(segments[k]).extension.None?
    ensures forall k ::
      0 <= k < |segments| && SegmentOf(segments[k]).extension.Some? && (forall j :: 0 <= j < k ==> SegmentOf(segments[j]).extension.None?) ==>
        FirstExtension(segments) == SegmentOf(segments[k]).extension
  {
    var found := (segment: string) => SegmentOf(segment).extension;
    FirstExtensionIsFirstFound(segments);
    FirstFoundFirst(segments, found);
    forall k | 0 <= k < |segments| ensures found(segments[k]) == SegmentOf(segments[k]).extension { }
  }

  function Segments(text: string): seq<string> {
    SplitAny(text, {'\n', ','})
  }

  /** The dictionary `defineDictionary` stores for `text`. */
  function DictionaryOf(text: string): Dictionary {
    var segments := Segments(text);
    var found := FirstExtension(segments);
    Dictionary(BaseUrlFrom(text, 0), if found.Some? then found else FallbackExtension(text, 0, AllowedExtensions), Keywords(segments))
  }

  /** What every dictionary `defineDictionary` stores satisfies. */
  ghost predicate WellFormed(d: Dictionary) {
    && (d.baseUrl.Some? ==>
          (|d.baseUrl.value| >= 8 && ToLower(d.baseUrl.value[..8]) == HttpsPrefix
           && forall j :: 8 <= j < |d.baseUrl.value| ==> HostChar(d.baseUrl.value[j])))
    && (d.extension.Some? ==> d.extension.value in AllowedExtensions)
    && (forall k :: 0 <= k < |d.keywords| ==> 1 <= |d.keywords[k]| <= 10 && '\n' !in d.keywords[k])
  }

  /** `defineDictionary` always stores a well-formed dictionary. */
  lemma DictionaryWellFormed(text: string)
    ensures WellFormed(DictionaryOf(text))
  {
    var segments := Segments(text);
    var base := BaseUrlFrom(text, 0);
    var found := FirstExtension(segments);
    var fallback := FallbackExtension(text, 0, AllowedExtensions);
    var extension := if found.Some? then found else fallback;
    assert DictionaryOf(text) == Dictionary(base, extension, Keywords(segments));
    assert base.Some? ==>
      && |base.value| >= 8 && ToLower(base.value[..8]) == HttpsPrefix
      && forall j :: 8 <= j < |base.value| ==> HostChar(base.value[j])
    by {
      if base.Some? {
        var j :| 0 <= j < |text| && BaseUrlAt(text, j) == base;
      }
    }
    assert extension.Some? ==> extension.value in AllowedExtensions;
    KeywordsFromSegments(segments);
  }

  /** Keywords come from segments without newlines, so they have none either. */
  lemma {:induction false} KeywordsFromSegments(segments: seq<string>)
    requires forall k :: 0 <= k < |segments| ==> '\n' !in segments[k]
    ensures forall k :: 0 <= k < |Keywords(segments)| ==> '\n' !in Keywords(segments)[k]
    decreases |segments|
  {
    if |segments| > 0 {
      var init := segments[..|segments| - 1];
      KeywordsFromSegments(init);
      SegmentKeywordSingle(segments[|segments| - 1]);
    }
  }

  /** The keyword of a segment without newlines has none. */
  lemma SegmentKeywordSingle(segment: string)
    requires '\n' !in segment
    ensures SegmentOf(segment).keyword.Some? ==> '\n' !in SegmentOf(segment).keyword.value
  {
    var info := SegmentOf(segment);
    if info.keyword.Some? {
      var s := Trim(segment);
      TrimAvoids(segment, '\n');
      assert info.keyword.value == s || info.keyword.value == s[..LastIndexOfChar(s, '.')];
    }
  }

  /** Trimming keeps a character out. */
  lemma TrimAvoids(s: string, c: char)
    requires c !in s
    ensures c !in Trim(s)
  {
    var t := TrimStart(s);
    assert t == s[|s| - |t|..];
    assert Trim(s) == t[..|Trim(s)|];
  }

  /* ---------------- line structure ---------------- */

  lemma AltTextChars()
    ensures '\n' !in AltText && '\n' !in "![C](" && '\n' !in "/" && '\n' !in "."
  {
    assert AltText == [' ', '"', '画', '像', '"', ')'];
    assert "![C](" == ['!', '[', 'C', ']', '('];
  }

  lemma ExtensionChars(ext: string)
    requires ext in AllowedExtensions
    ensures '\n' !in ext
  {
    assert AllowedExtensions == [['j', 'p', 'g'], ['p', 'n', 'g'], ['w', 'e', 'b', 'p'], ['a', 'v', 'i', 'f'],
                                 ['j', 'p', 'e', 'g'], ['g', 'i', 'f']];
  }

  /** The base URL of a well-formed dictionary is one line. */
  lemma BaseUrlSingle(d: Dictionary)
    requires WellFormed(d) && d.baseUrl.Some?
    ensures '\n' !in d.baseUrl.value
  {
    var b := d.baseUrl.value;
    forall j | 0 <= j < |b| ensures b[j] != '\n' {
      if j < 8 {
        assert ToLower(b[..8])[j] == LowerChar(b[j]);
        assert HttpsPrefix == ['h', 't', 't', 'p', 's', ':', '/', '/'];
      }
    }
  }

  /** A rebuilt line made of pieces without newlines has none. */
  lemma RebuiltLineSingle(d: Dictionary, valid: seq<string>)
    requires '\n' !in OrElse(d.baseUrl, "") && '\n' !in OrElse(d.extension, "")
    requires forall k :: 0 <= k < |valid| ==> '\n' !in valid[k]
    ensures '\n' !in RebuiltLine(d, valid)
  {
    AltTextChars();
    JoinAvoids(valid, "/", '\n');
  }

  /** With a well-formed dictionary, no corrected line contains a newline. */
  lemma CorrectLineSingle(d: Dictionary, line: string)
    requires WellFormed(d)
    requires '\n' !in line
    ensures '\n' !in CorrectLine(d, line)
  {
    var parts := PathParts(line);
    var valid := ValidKeywords(d, parts, |parts|);
    if IsTargetLine(d, line) && |valid| > 0 {
      ExtensionChars(d.extension.value);
      forall k | 0 <= k < |valid| ensures '\n' !in valid[k] {
        var i :| 0 <= i < |d.keywords| && d.keywords[i] == valid[k];
      }
      if d.baseUrl.Some? {
        BaseUrlSingle(d);
      }
      RebuiltLineSingle(d, valid);
    }
  }

  /**
   * `correctText` keeps the number of lines, and line `i` of the result is line `i` of
   * the input, corrected.
   */
  lemma CorrectedLines(d: Dictionary, text: string)
    requires WellFormed(d) && Present(d.baseUrl) && Present(d.extension)
    ensures SplitChar(CorrectedText(d, text), '\n') == CorrectLines(d, SplitChar(text, '\n'))
    ensures |SplitChar(CorrectedText(d, text), '\n')| == |SplitChar(text, '\n')|
  {
    var lines := SplitChar(text, '\n');
    var corrected := CorrectLines(d, lines);
    forall k | 0 <= k < |corrected| ensures '\n' !in corrected[k] {
      CorrectLineSingle(d, lines[k]);
    }
    SplitJoinChar(corrected, '\n');
  }

  /** The segment loop of `defineDictionary`: the first extension and the keywords, in order. */
  method ScanSegments(segments: seq<string>) returns (foundExtension: Option<string>, extractedKeywords: seq<string>)
    ensures foundExtension == FirstExtension(segments)
    ensures extractedKeywords == Keywords(segments)
  {
    foundExtension := None;
    extractedKeywords := [];
    for i := 0 to |segments|
      invariant foundExtension == FirstExtension(segments[..i])
      invariant extractedKeywords == Keywords(segments[..i])
    {
      assert segments[..i + 1][..i] == segments[..i];
      var info := ReadSegment(segments[i]);
      if info.extension.Some? && foundExtension.None? {
        foundExtension := info.extension;
      }
      if info.keyword.Some? {
        extractedKeywords := extractedKeywords + [info.keyword.value];
      }
    }
    assert segments[..|segments|] == segments;
  }

  /** The body of the segment loop: a trimmed segment of 1 to 10 characters, its extension split off. */
  method ReadSegment(segment: string) returns (info: SegmentInfo)
    ensures info == SegmentOf(segment)
  {
    var s := Trim(segment);
    if |s| == 0 || |s| > 10 {
      return SegmentInfo(None, None);
    }
    var keywordPart := s;
    var extension: Option<string> := None;
    var dotIndex := LastIndexOfChar(s, '.');
    if dotIndex != -1 {
      var potentialExt := ToLower(s[dotIndex + 1..]);
      if potentialExt in AllowedExtensions {
        extension := Some(potentialExt);
        keywordPart := s[..dotIndex];
      }
    }
    info := SegmentInfo(if |keywordPart| > 0 then Some(keywordPart) else None, extension);
  }

  /* ---------------- the service ---------------- */

  class Corrector {
    var dictionary: Dictionary

    constructor()
      ensures dictionary == Dictionary(None, None, [])
    {
      dictionary := Dictionary(None, None, []);
    }

    /** `defineDictionary`: the segment loop, then the fallback extension search. */
    method DefineDictionary(text: string)
      modifies this
      ensures dictionary == DictionaryOf(text)
    {
      var baseUrl := BaseUrlFrom(text, 0);
      var foundExtension, extractedKeywords := ScanSegments(Segments(text));
      if foundExtension.None? {
        foundExtension := FallbackExtension(text, 0, AllowedExtensions);
      }
      dictionary := Dictionary(baseUrl, foundExtension, extractedKeywords);
    }

    /** The steps one path part goes through before the whitelist lookup. */
    static method PartStep(extension: string, parts: seq<string>, i: nat) returns (c: Option<string>)
      requires i < |parts|
      ensures c == PartCandidate(extension, parts, i)
    {
      var candidate := Trim(parts[i]);
      var isLastPart := i == |parts| - 1;
      if candidate == "" {
        return None;
      }
      if isLastPart {
        var splitIndex := FindFuzzyExtensionIndex(candidate, "." + extension);
        if splitIndex == -1 {
          return None;
        }
        candidate := candidate[..splitIndex];
      }
      candidate := DropTrailing(DropLeading(candidate, LeadingNoise), TrailingNoise);
      candidate := RemoveNoise(candidate);
      if candidate == "" {
        return None;
      }
      return Some(candidate);
    }

    /** The candidate loop of one target line. */
    method RewriteLine(line: string) returns (r: string)
      requires IsTargetLine(dictionary, line)
      ensures r == CorrectLine(dictionary, line)
    {
      var d := dictionary;
      var parts := PathParts(line);
      var validKeywords: seq<string> := [];
      for i := 0 to |parts|
        invariant validKeywords == ValidKeywords(d, parts, i)
      {
        var candidate := PartStep(OrElse(d.extension, ""), parts, i);
        if candidate.None? {
          continue;
        }
        var result := FindClosestKeyword(candidate.value, d.keywords);
        if result.matched {
          validKeywords := validKeywords + [result.word];
        }
      }
      if |validKeywords| == 0 {
        return line;
      }
      r := RebuiltLine(d, validKeywords);
    }

    /** The `map` callback of `correctText`. */
    method CorrectOneLine(line: string) returns (r: string)
      ensures r == CorrectLine(dictionary, line)
    {
      if !IsTargetLine(dictionary, line) {
        return line;
      }
      r := RewriteLine(line);
    }

    /** `correctText`. */
    method CorrectText(text: string) returns (r: string)
      ensures r == CorrectedText(dictionary, text)
    {
      if !Present(dictionary.baseUrl) || !Present(dictionary.extension) {
        return text;
      }
      var lines := SplitChar(text, '\n');
      var correctedLines: seq<string> := [];
      for i := 0 to |lines|
        invariant correctedLines == CorrectLines(dictionary, lines[..i])
      {
        var newLine := CorrectOneLine(lines[i]);
        assert lines[..i + 1] == lines[..i] + [lines[i]];
        correctedLines := correctedLines + [newLine];
      }
      assert lines[..|lines|] == lines;
      r := Join(correctedLines, "\n");
    }
  }
}
