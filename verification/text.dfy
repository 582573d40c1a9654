/**
 * String primitives the JavaScript source relies on (`includes`, `indexOf`,
 * `split`/`join` with a string separator, `replace` of the first occurrence,
 * `trim`, `startsWith`/`endsWith`, `toLowerCase`, number-to-string), stated
 * over `string` = `seq<char>`.
 */
module Text {

  /** JavaScript's WhiteSpace and LineTerminator code points (the `\s` class and what `trim` removes). */
  predicate IsWs(c: char) {
    c == ' ' || c == '\t' || c == '\n' || c == '\r' || c == '\U{000B}' || c == '\U{000C}'
    || c == '\U{00A0}' || c == '\U{1680}' || ('\U{2000}' <= c <= '\U{200A}')
    || c == '\U{2028}' || c == '\U{2029}' || c == '\U{202F}' || c == '\U{205F}'
    || c == '\U{3000}' || c == '\U{FEFF}'
  }

  /** `sub` occurs in `s` starting at index `i`. */
  predicate OccursAt(s: string, sub: string, i: int) {
    0 <= i && i + |sub| <= |s| && s[i..i + |sub|] == sub
  }

  /** First occurrence of `sub` at or after `from`, or -1 (`s.indexOf(sub, from)`). */
  function IndexOfFrom(s: string, sub: string, from: nat): (r: int)
    ensures r == -1 || (from <= r && OccursAt(s, sub, r))
    ensures r != -1 ==> forall j :: from <= j < r ==> !OccursAt(s, sub, j)
    ensures r == -1 ==> forall j :: from <= j ==> !OccursAt(s, sub, j)
    decreases |s| + 1 - from
  {
    if from + |sub| > |s| then -1
    else if s[from..from + |sub|] == sub then from
    else IndexOfFrom(s, sub, from + 1)
  }

  /** `s.indexOf(sub)`. */
  function IndexOf(s: string, sub: string): (r: int)
    ensures r == -1 || OccursAt(s, sub, r)
    ensures r != -1 ==> forall j :: 0 <= j < r ==> !OccursAt(s, sub, j)
    ensures r == -1 ==> forall j :: !OccursAt(s, sub, j)
  {
    IndexOfFrom(s, sub, 0)
  }

  /** Every character of `s` is one of `allowed`. */
  predicate CharsIn(s: string, allowed: set<char>) {
    forall i :: 0 <= i < |s| ==> s[i] in allowed
  }

  lemma {:induction false} JoinCharsIn(parts: seq<string>, sep: string, allowed: set<char>)
    requires CharsIn(sep, allowed)
    requires forall k :: 0 <= k < |parts| ==> CharsIn(parts[k], allowed)
    ensures CharsIn(Join(parts, sep), allowed)
    decreases |parts|
  {
    if |parts| > 1 {
      JoinCharsIn(parts[1..], sep, allowed);
      var a := parts[0] + sep;
      var j := Join(parts[1..], sep);
      assert Join(parts, sep) == a + j;
      forall i | 0 <= i < |a + j| ensures (a + j)[i] in allowed {
        if i >= |a| { assert (a + j)[i] == j[i - |a|]; }
      }
    }
  }

  /** A string without `sub[0]` contains no occurrence of `sub`. */
  lemma NoOccurrenceWithoutHead(s: string, sub: string)
    requires |sub| > 0 && sub[0] !in s
    ensures !Contains(s, sub)
  {
  }

  /** A join whose last part is non-empty ends with that part's last character. */
  lemma {:induction false} JoinLastChar(parts: seq<string>, sep: string)
    requires |parts| > 0 && |parts[|parts| - 1]| > 0
    ensures |Join(parts, sep)| > 0
    ensures Join(parts, sep)[|Join(parts, sep)| - 1] == parts[|parts| - 1][|parts[|parts| - 1]| - 1]
    decreases |parts|
  {
    if |parts| > 1 {
      JoinLastChar(parts[1..], sep);
    }
  }

  /** The first occurrence is at `i` exactly when `sub` occurs at `i` and nowhere before. */
  lemma IndexOfIs(s: string, sub: string, i: int)
    requires OccursAt(s, sub, i)
    requires forall j :: 0 <= j < i ==> !OccursAt(s, sub, j)
    ensures IndexOf(s, sub) == i
  {
  }

  /** Two strings agreeing on their first `n` characters have the same occurrences inside that prefix. */
  lemma OccursInPrefix(a: string, b: string, sub: string, n: int, j: int)
    requires 0 <= j && j + |sub| <= n <= |a| && n <= |b| && a[..n] == b[..n]
    ensures OccursAt(a, sub, j) <==> OccursAt(b, sub, j)
  {
    assert a[j..j + |sub|] == a[..n][j..j + |sub|];
    assert b[j..j + |sub|] == b[..n][j..j + |sub|];
  }

  /** `s.includes(sub)`. */
  predicate Contains(s: string, sub: string) {
    IndexOf(s, sub) >= 0
  }

  lemma ContainsWitness(s: string, sub: string, i: int)
    requires OccursAt(s, sub, i)
    ensures Contains(s, sub)
  {
  }

  lemma ConcatContains(a: string, sub: string, b: string)
    ensures Contains(a + sub + b, sub)
  {
    assert (a + sub + b)[|a|..|a| + |sub|] == sub;
    ContainsWitness(a + sub + b, sub, |a|);
  }

  /** `s.replace(sub, "")` with a string pattern: removes the first occurrence only. */
  function RemoveFirst(s: string, sub: string): (r: string)
    ensures IndexOf(s, sub) == -1 ==> r == s
    ensures IndexOf(s, sub) >= 0 ==>
      r == s[..IndexOf(s, sub)] + s[IndexOf(s, sub) + |sub|..]
  {
    var i := IndexOf(s, sub);
    if i < 0 then s else s[..i] + s[i + |sub|..]
  }

  predicate StartsWith(s: string, prefix: string) {
    |prefix| <= |s| && s[..|prefix|] == prefix
  }

  predicate EndsWith(s: string, suffix: string) {
    |suffix| <= |s| && s[|s| - |suffix|..] == suffix
  }

  /** `s.split(sep)` for a non-empty string separator. */
  function Split(s: string, sep: string): (parts: seq<string>)
    requires |sep| > 0
    ensures |parts| >= 1
    decreases |s|
  {
    var i := IndexOf(s, sep);
    if i < 0 then [s] else [s[..i]] + Split(s[i + |sep|..], sep)
  }

  /** `parts.join(sep)`. */
  function Join(parts: seq<string>, sep: string): string
  {
    if |parts| == 0 then ""
    else if |parts| == 1 then parts[0]
    else parts[0] + sep + Join(parts[1..], sep)
  }

  /** Splitting and re-joining with the same separator gives back the string. */
  lemma {:induction false} JoinSplit(s: string, sep: string)
    requires |sep| > 0
    ensures Join(Split(s, sep), sep) == s
    decreases |s|
  {
    var i := IndexOf(s, sep);
    if i >= 0 {
      var rest := s[i + |sep|..];
      JoinSplit(rest, sep);
      var tail := Split(rest, sep);
      assert Split(s, sep) == [s[..i]] + tail;
      JoinCons(s[..i], tail, sep);
      assert s[i..i + |sep|] == sep;
      SliceSplit(s, i, i + |sep|);
    }
  }

  lemma SliceSplit(s: string, i: nat, j: nat)
    requires i <= j <= |s|
    ensures s == s[..i] + s[i..j] + s[j..]
  {
  }

  lemma JoinCons(p: string, tail: seq<string>, sep: string)
    requires |tail| >= 1
    ensures Join([p] + tail, sep) == p + sep + Join(tail, sep)
  {
    assert ([p] + tail)[1..] == tail;
  }

  /** `parts[0]` of `s.split(sep)` is the prefix before the first separator. */
  lemma SplitHead(s: string, sep: string)
    requires |sep| > 0
    ensures IndexOf(s, sep) >= 0 ==> Split(s, sep)[0] == s[..IndexOf(s, sep)]
    ensures IndexOf(s, sep) < 0 ==> Split(s, sep) == [s]
  {
  }

  /** `s.split(sep).slice(1).join(sep)` is the text after the first separator. */
  lemma SplitTailJoin(s: string, sep: string)
    requires |sep| > 0 && IndexOf(s, sep) >= 0
    ensures Join(Split(s, sep)[1..], sep) == s[IndexOf(s, sep) + |sep|..]
  {
    var i := IndexOf(s, sep);
    var tail := Split(s[i + |sep|..], sep);
    assert Split(s, sep) == [s[..i]] + tail;
    assert ([s[..i]] + tail)[1..] == tail;
    JoinSplit(s[i + |sep|..], sep);
  }

  /** `s.split(c)` for a single-character separator, with no empty-string special case needed. */
  function SplitChar(s: string, c: char): (parts: seq<string>)
    ensures |parts| >= 1
    ensures forall k :: 0 <= k < |parts| ==> c !in parts[k]
  {
    SplitCharNoSep(s, c);
    Split(s, [c])
  }

  lemma {:induction false} SplitCharNoSep(s: string, c: char)
    ensures forall k :: 0 <= k < |Split(s, [c])| ==> c !in Split(s, [c])[k]
    decreases |s|
  {
    var i := IndexOf(s, [c]);
    if i < 0 {
      forall j | 0 <= j < |s| ensures s[j] != c {
        assert !OccursAt(s, [c], j);
        assert s[j..j + 1] == [s[j]];
      }
    } else {
      SplitCharNoSep(s[i + 1..], c);
      forall j | 0 <= j < i ensures s[j] != c {
        assert !OccursAt(s, [c], j);
        assert s[j..j + 1] == [s[j]];
      }
    }
  }

  /** `c` does not occur in `s`, so `s.split(c)` leaves it whole. */
  lemma NoCharNoIndex(s: string, c: char)
    requires c !in s
    ensures IndexOf(s, [c]) == -1
  {
    forall j | 0 <= j && j + 1 <= |s| ensures !OccursAt(s, [c], j) {
      assert s[j..j + 1] == [s[j]];
    }
  }

  /** Joining parts free of `c` with `c` and splitting at `c` gives the parts back. */
  lemma {:induction false} SplitJoinChar(parts: seq<string>, c: char)
    requires |parts| >= 1
    requires forall k :: 0 <= k < |parts| ==> c !in parts[k]
    ensures Split(Join(parts, [c]), [c]) == parts
    decreases |parts|
  {
    var p := parts[0];
    if |parts| == 1 {
      NoCharNoIndex(p, c);
    } else {
      var rest := Join(parts[1..], [c]);
      var s := p + [c] + rest;
      assert Join(parts, [c]) == s;
      forall j | 0 <= j < |p| ensures !OccursAt(s, [c], j) {
        assert s[j] == p[j];
        assert s[j..j + 1] == [s[j]];
      }
      assert s[|p|..|p| + 1] == [c];
      IndexOfIs(s, [c], |p|);
      assert s[|p| + 1..] == rest;
      assert s[..|p|] == p;
      assert Split(s, [c]) == [s[..|p|]] + Split(s[|p| + 1..], [c]);
      SplitJoinChar(parts[1..], c);
      assert parts == [p] + parts[1..];
    }
  }

  /** A join avoids `c` when the separator and every part do. */
  lemma {:induction false} JoinAvoids(parts: seq<string>, sep: string, c: char)
    requires c !in sep
    requires forall k :: 0 <= k < |parts| ==> c !in parts[k]
    ensures c !in Join(parts, sep)
    decreases |parts|
  {
    if |parts| > 1 {
      JoinAvoids(parts[1..], sep, c);
    }
  }

  /** `s.split(re)` for a regular expression matching any single character of `seps`. */
  function SplitAny(s: string, seps: set<char>): (parts: seq<string>)
    ensures |parts| >= 1
    ensures forall k :: 0 <= k < |parts| ==> forall j :: 0 <= j < |parts[k]| ==> parts[k][j] !in seps
    decreases |s|
  {
    if |s| == 0 then [""]
    else
      var rest := SplitAny(s[1..], seps);
      if s[0] in seps then [""] + rest else [[s[0]] + rest[0]] + rest[1..]
  }

  /** `s.lastIndexOf(c)`. */
  function LastIndexOfChar(s: string, c: char): (r: int)
    ensures -1 <= r < |s|
    ensures r >= 0 ==> s[r] == c && forall j :: r < j < |s| ==> s[j] != c
    ensures r == -1 ==> forall j :: 0 <= j < |s| ==> s[j] != c
  {
    if |s| == 0 then -1 else if s[|s| - 1] == c then |s| - 1 else LastIndexOfChar(s[..|s| - 1], c)
  }

  function TrimStart(s: string): (r: string)
    ensures |r| <= |s| && r == s[|s| - |r|..]
    ensures r == [] || !IsWs(r[0])
  {
    if |s| > 0 && IsWs(s[0]) then TrimStart(s[1..]) else s
  }

  function TrimEnd(s: string): (r: string)
    ensures |r| <= |s| && r == s[..|r|]
    ensures r == [] || !IsWs(r[|r| - 1])
  {
    if |s| > 0 && IsWs(s[|s| - 1]) then TrimEnd(s[..|s| - 1]) else s
  }

  /** `s.trim()`. */
  function Trim(s: string): string {
    TrimEnd(TrimStart(s))
  }

  /** Character `i` of `s.trim()` is the character of `s` just after the leading whitespace. */
  lemma TrimIndex(s: string, i: int)
    requires 0 <= i < |Trim(s)|
    ensures 0 <= |s| - |TrimStart(s)| + i < |s|
    ensures Trim(s)[i] == s[|s| - |TrimStart(s)| + i]
  {
    var a := TrimStart(s);
    assert Trim(s)[i] == a[i];
  }

  /** `p + q` starts with `p`. */
  lemma StartsWithAppend(p: string, q: string)
    ensures StartsWith(p + q, p)
  {
    assert (p + q)[..|p|] == p;
  }

  /** Appending at the front keeps a suffix. */
  lemma EndsWithAppend(p: string, q: string, e: string)
    requires EndsWith(q, e)
    ensures EndsWith(p + q, e)
  {
    assert (p + q)[|p + q| - |e|..] == q[|q| - |e|..];
  }

  /** `s` holds no whitespace character. */
  predicate NoWs(s: string) {
    forall i :: 0 <= i < |s| ==> !IsWs(s[i])
  }

  /** A string that neither starts nor ends with whitespace is its own `trim()`. */
  lemma TrimUnchanged(s: string)
    requires s == [] || (!IsWs(s[0]) && !IsWs(s[|s| - 1]))
    ensures Trim(s) == s
  {
  }

  /** The longest whitespace-free prefix of `s`. */
  function TakeWord(s: string): (w: string)
    ensures |w| <= |s| && w == s[..|w|] && NoWs(w)
    ensures |w| < |s| ==> IsWs(s[|w|])
    ensures |s| > 0 && !IsWs(s[0]) ==> |w| > 0
  {
    if |s| == 0 || IsWs(s[0]) then "" else [s[0]] + TakeWord(s[1..])
  }

  /**
   * The maximal runs of non-whitespace characters of `s`: `s.trim().split(/\s+/)`
   * without the single "" that JavaScript returns for a blank string.
   */
  function Words(s: string): (r: seq<string>)
    ensures forall k :: 0 <= k < |r| ==> r[k] != "" && NoWs(r[k])
    decreases |s|
  {
    if |s| == 0 then []
    else if IsWs(s[0]) then Words(s[1..])
    else var w := TakeWord(s); [w] + Words(s[|w|..])
  }

  lemma {:induction false} TakeWordBeforeSpace(a: string, c: char, b: string)
    requires NoWs(a) && IsWs(c)
    ensures TakeWord(a + [c] + b) == a
    decreases |a|
  {
    if |a| > 0 {
      assert (a + [c] + b)[1..] == a[1..] + [c] + b;
      TakeWordBeforeSpace(a[1..], c, b);
      assert a == [a[0]] + a[1..];
    }
  }

  lemma {:induction false} TakeWordAll(a: string)
    requires NoWs(a)
    ensures TakeWord(a) == a
    decreases |a|
  {
    if |a| > 0 {
      TakeWordAll(a[1..]);
      assert a == [a[0]] + a[1..];
    }
  }

  /** Splitting a space-joined list of non-empty whitespace-free words gives the list back. */
  lemma {:induction false} WordsJoin(parts: seq<string>)
    requires forall k :: 0 <= k < |parts| ==> parts[k] != "" && NoWs(parts[k])
    ensures Words(Join(parts, " ")) == parts
    decreases |parts|
  {
    if |parts| == 1 {
      TakeWordAll(parts[0]);
      assert parts[0][|parts[0]|..] == "";
    } else if |parts| > 1 {
      var rest := Join(parts[1..], " ");
      var s := parts[0] + " " + rest;
      TakeWordBeforeSpace(parts[0], ' ', rest);
      assert s == parts[0] + [' '] + rest;
      assert s[|parts[0]|..] == [' '] + rest;
      assert ([' '] + rest)[1..] == rest;
      WordsJoin(parts[1..]);
      assert parts == [parts[0]] + parts[1..];
    }
  }

  /** ASCII part of `toLowerCase`. */
  function LowerChar(c: char): char {
    if 'A' <= c <= 'Z' then (c as int + 32) as char else c
  }

  function ToLower(s: string): (r: string)
    ensures |r| == |s|
  {
    seq(|s|, i requires 0 <= i < |s| => LowerChar(s[i]))
  }

  function DigitChar(d: nat): char
    requires d < 10
  {
    (48 + d) as char
  }

  /** Decimal rendering of a natural number (JavaScript `String(n)` for a non-negative integer). */
  function NatToString(n: nat): (r: string)
    ensures 1 <= |r|
    ensures forall k :: 0 <= k < |r| ==> '0' <= r[k] <= '9'
  {
    if n < 10 then [DigitChar(n)] else NatToString(n / 10) + [DigitChar(n % 10)]
  }

  /** Decimal rendering of an integer, with a leading '-' when negative. */
  function IntToString(n: int): (r: string)
    ensures |r| > 0 && '0' <= r[|r| - 1] <= '9'
    ensures CharsIn(r, {'-', '0', '1', '2', '3', '4', '5', '6', '7', '8', '9'})
  {
    var digits := NatToString(if n < 0 then -n else n);
    if n < 0 then "-" + digits else digits
  }

  /** Numbers below 10^k print with at most k digits. */
  lemma {:induction false} NatToStringLength(n: nat)
    ensures n < 10 ==> |NatToString(n)| == 1
    ensures n < 100 ==> |NatToString(n)| <= 2
    ensures n < 1000 ==> |NatToString(n)| <= 3
  {
    if n >= 10 {
      NatToStringLength(n / 10);
    }
  }

  /** `n.toString().padStart(2, '0')`. */
  function Pad2(n: nat): (r: string)
    ensures n < 100 ==> r == [DigitChar(n / 10), DigitChar(n % 10)]
    ensures forall k :: 0 <= k < |r| ==> '0' <= r[k] <= '9'
  {
    if n < 10 then "0" + NatToString(n)
    else
      assert n < 100 ==> NatToString(n) == NatToString(n / 10) + [DigitChar(n % 10)];
      NatToString(n)
  }
}
