/** String operations the scrapers and the matcher borrow from Python and
    JavaScript: whitespace stripping, slicing, prefix tests, splitting,
    `str.replace(old, "")`, lower-casing and the truthiness of optional
    strings used by `a or b or c` fallback chains. Strings are sequences of
    characters. */
module Text {

  datatype Option<+T> = None | Some(value: T)

  /** Whose notion of whitespace applies: Python's, for `str.strip()` and
      `str.split()`, or JavaScript's, for `String.prototype.trim`. */
  datatype Runtime = Python | JavaScript

  /** Python's `str.isspace` (bidirectional class WS, B or S, or category
      Zs), or JavaScript's WhiteSpace and LineTerminator characters. The two
      differ only in U+001C to U+001F and U+0085 (Python) and U+FEFF
      (JavaScript). */
  predicate IsSpaceIn(rt: Runtime, c: char) {
    ('\t' <= c <= '\r') || c == ' ' || c == '\U{00A0}' || c == '\U{1680}' ||
    ('\U{2000}' <= c <= '\U{200A}') || c == '\U{2028}' || c == '\U{2029}' ||
    c == '\U{202F}' || c == '\U{205F}' || c == '\U{3000}' ||
    (if rt == Python then ('\U{001C}' <= c <= '\U{001F}') || c == '\U{0085}' else c == '\U{FEFF}')
  }

  /** Python whitespace. */
  predicate IsSpace(c: char) {
    IsSpaceIn(Python, c)
  }

  predicate AllSpaceIn(rt: Runtime, s: string) {
    forall i :: 0 <= i < |s| ==> IsSpaceIn(rt, s[i])
  }

  predicate AllSpace(s: string) {
    AllSpaceIn(Python, s)
  }

  /** `s.startswith(p)`. */
  predicate StartsWith(s: string, p: string) {
    |p| <= |s| && s[..|p|] == p
  }

  /** A string or a missing value is truthy when it is present and non-empty. */
  predicate Truthy(o: Option<string>) {
    o.Some? && o.value != ""
  }

  /** `s[:n]`. */
  function Take(s: string, n: nat): (r: string)
    ensures |r| <= n && |r| <= |s|
    ensures r == s[..|r|]
    ensures |s| <= n ==> r == s
    ensures n <= |s| ==> |r| == n
  {
    if |s| <= n then s else s[..n]
  }

  /** Leading whitespace removed. */
  function TrimStart(s: string, rt: Runtime): (r: string)
    ensures |r| <= |s| && r == s[|s| - |r|..]
    ensures r == [] || !IsSpaceIn(rt, r[0])
    ensures AllSpaceIn(rt, s[..|s| - |r|])
    decreases |s|
  {
    if s != [] && IsSpaceIn(rt, s[0]) then
      var r := TrimStart(s[1..], rt);
      assert s[1..][..|s[1..]| - |r|] == s[1..|s| - |r|];
      r
    else s
  }

  /** Trailing whitespace removed. */
  function TrimEnd(s: string, rt: Runtime): (r: string)
    ensures |r| <= |s| && r == s[..|r|]
    ensures r == [] || !IsSpaceIn(rt, r[|r| - 1])
    ensures AllSpaceIn(rt, s[|r|..])
    decreases |s|
  {
    if s != [] && IsSpaceIn(rt, s[|s| - 1]) then
      var r := TrimEnd(s[..|s| - 1], rt);
      assert s[..|s| - 1][|r|..] + [s[|s| - 1]] == s[|r|..];
      r
    else s
  }

  /** Python's `s.strip()`: whitespace removed at both ends. */
  function Strip(s: string): (r: string)
    ensures |r| <= |s|
    ensures r == [] || (!IsSpace(r[0]) && !IsSpace(r[|r| - 1]))
  {
    TrimEnd(TrimStart(s, Python), Python)
  }

  /** JavaScript's `s.trim()`. */
  function Trim(s: string): (r: string)
    ensures |r| <= |s|
    ensures r == [] || (!IsSpaceIn(JavaScript, r[0]) && !IsSpaceIn(JavaScript, r[|r| - 1]))
  {
    TrimEnd(TrimStart(s, JavaScript), JavaScript)
  }

  /** `not s.strip()` holds exactly for all-whitespace strings. */
  lemma {:induction false} StripEmptyIffBlank(s: string)
    ensures Strip(s) == [] <==> AllSpace(s)
  {
    var t := TrimStart(s, Python);
    if Strip(s) == [] {
      assert t == t[0..];
      assert s == s[..|s| - |t|];
    }
  }

  /** A string with no whitespace at either end is left alone by both
      trims. */
  lemma StripUnchanged(rt: Runtime, s: string)
    requires s != [] && !IsSpaceIn(rt, s[0]) && !IsSpaceIn(rt, s[|s| - 1])
    ensures TrimEnd(TrimStart(s, rt), rt) == s
  {
    assert TrimStart(s, rt) == s;
  }

  /** A leading whitespace character is dropped by the left trim. */
  lemma TrimStartSpace(rt: Runtime, c: char, s: string)
    requires IsSpaceIn(rt, c)
    ensures TrimStart([c] + s, rt) == TrimStart(s, rt)
  {
    assert ([c] + s)[1..] == s;
  }

  /** Python's `s.lower()` restricted to ASCII letters. */
  function LowerChar(c: char): char {
    if 'A' <= c <= 'Z' then (c as int + 32) as char else c
  }

  function Lower(s: string): (r: string)
    ensures |r| == |s|
    ensures forall i :: 0 <= i < |s| ==> r[i] == LowerChar(s[i])
  {
    seq(|s|, i requires 0 <= i < |s| => LowerChar(s[i]))
  }

  /** Python's `s.split()` with no separator: the maximal runs of
      non-whitespace characters, in order. */
  function Words(s: string): seq<string> {
    WordsFrom(s, [])
  }

  /** The scan behind `Words`: `current` is the word read so far. */
  function WordsFrom(s: string, current: string): seq<string>
    decreases |s|
  {
    if s == [] then (if current == [] then [] else [current])
    else if IsSpace(s[0]) then
      (if current == [] then [] else [current]) + WordsFrom(s[1..], [])
    else WordsFrom(s[1..], current + [s[0]])
  }

  predicate IsWord(w: string) {
    w != [] && forall i :: 0 <= i < |w| ==> !IsSpace(w[i])
  }

  lemma {:induction false} WordsFromAreWords(s: string, current: string)
    requires current == [] || IsWord(current)
    ensures forall k :: 0 <= k < |WordsFrom(s, current)| ==> IsWord(WordsFrom(s, current)[k])
    decreases |s|
  {
    if s != [] {
      if IsSpace(s[0]) {
        WordsFromAreWords(s[1..], []);
      } else {
        WordsFromAreWords(s[1..], current + [s[0]]);
      }
    }
  }

  /** Every word is non-empty and holds no whitespace. */
  lemma WordsAreWords(s: string)
    ensures forall k :: 0 <= k < |Words(s)| ==> IsWord(Words(s)[k])
  {
    WordsFromAreWords(s, []);
  }

  lemma {:induction false} WordsFromOfWord(s: string, current: string)
    requires forall i :: 0 <= i < |s| ==> !IsSpace(s[i])
    ensures WordsFrom(s, current) == if current + s == [] then [] else [current + s]
    decreases |s|
  {
    if s == [] {
      assert current + s == current;
    } else {
      assert !IsSpace(s[0]);
      WordsFromOfWord(s[1..], current + [s[0]]);
      assert current + [s[0]] + s[1..] == current + s;
    }
  }

  /** A string without whitespace is one word, or none when it is empty. */
  lemma WordsOfWord(s: string)
    requires forall i :: 0 <= i < |s| ==> !IsSpace(s[i])
    ensures Words(s) == if s == [] then [] else [s]
  {
    WordsFromOfWord(s, []);
    assert [] + s == s;
  }

  /** First index of `x` in `s`: Python's `s.index(x)`. */
  function IndexOf<T(==)>(s: seq<T>, x: T): (i: nat)
    requires x in s
    ensures i < |s| && s[i] == x && x !in s[..i]
  {
    if s[0] == x then 0 else 1 + IndexOf(s[1..], x)
  }

  /** Python's `s.split(sep)` with a one-character separator: the pieces
      between separators, empty pieces included. */
  function Split(s: string, sep: char): (parts: seq<string>)
    ensures |parts| >= 1
    ensures forall k :: 0 <= k < |parts| ==> sep !in parts[k]
    decreases |s|
  {
    if sep in s then
      var i := IndexOf(s, sep);
      [s[..i]] + Split(s[i + 1..], sep)
    else [s]
  }

  /** `sep.join(parts)`. */
  function Join(parts: seq<string>, sep: char): string
    requires |parts| >= 1
  {
    if |parts| == 1 then parts[0] else parts[0] + [sep] + Join(parts[1..], sep)
  }

  /** Splitting loses nothing: joining the pieces gives the string back. */
  lemma {:induction false} JoinSplit(s: string, sep: char)
    ensures Join(Split(s, sep), sep) == s
    decreases |s|
  {
    if sep in s {
      var i := IndexOf(s, sep);
      var rest := Split(s[i + 1..], sep);
      JoinSplit(s[i + 1..], sep);
      assert Split(s, sep) == [s[..i]] + rest;
      assert ([s[..i]] + rest)[1..] == rest;
      assert s == s[..i] + [sep] + s[i + 1..];
    }
  }

  /** The first piece of a split is everything before the first separator,
      and the other pieces are the split of what follows it. */
  lemma SplitHead(s: string, sep: char, rest: string)
    requires sep !in s
    ensures Split(s + [sep] + rest, sep) == [s] + Split(rest, sep)
    ensures Split(s, sep) == [s]
  {
    var t := s + [sep] + rest;
    var i := IndexOf(t, sep);
    assert t[|s|] == sep;
    assert t[..i] == s;
    assert t[i + 1..] == rest;
  }

  /** Python's `s.replace(pat, "")`: every non-overlapping occurrence of
      `pat`, scanning from the left, removed. */
  function RemoveAll(s: string, pat: string): (r: string)
    requires pat != []
    ensures |r| <= |s|
    decreases |s|
  {
    if |s| < |pat| then s
    else if s[..|pat|] == pat then RemoveAll(s[|pat|..], pat)
    else [s[0]] + RemoveAll(s[1..], pat)
  }

  /** Occurrences are removed only where they start: a prefix at none of
      whose positions the pattern starts is kept as it is. */
  lemma {:induction false} RemoveAllKeepsPrefix(p: string, rest: string, pat: string)
    requires pat != []
    requires forall i :: 0 <= i < |p| ==> !StartsWith(p[i..] + rest, pat)
    ensures RemoveAll(p + rest, pat) == p + RemoveAll(rest, pat)
    decreases |p|
  {
    if p == [] {
      assert p + rest == rest;
    } else {
      assert p[0..] == p;
      RemoveAllSkipsHead(p, rest, pat);
      forall i | 0 <= i < |p[1..]|
        ensures !StartsWith(p[1..][i..] + rest, pat)
      {
        assert p[1..][i..] == p[i + 1..];
      }
      RemoveAllKeepsPrefix(p[1..], rest, pat);
      assert [p[0]] + (p[1..] + RemoveAll(rest, pat)) == p + RemoveAll(rest, pat);
    }
  }

  /** One step of the scan: where the pattern does not start, the first
      character is kept. */
  lemma RemoveAllSkipsHead(p: string, rest: string, pat: string)
    requires pat != [] && p != [] && !StartsWith(p + rest, pat)
    ensures RemoveAll(p + rest, pat) == [p[0]] + RemoveAll(p[1..] + rest, pat)
  {
    var s := p + rest;
    assert s[1..] == p[1..] + rest;
    if |s| < |pat| {
      assert |s[1..]| < |pat|;
      assert RemoveAll(s[1..], pat) == s[1..];
      assert s == [p[0]] + s[1..];
    }
  }

  /** Removing a pattern that contains `c` leaves a string without `c`
      unchanged. */
  lemma {:induction false} RemoveAllWithout(s: string, pat: string, c: char)
    requires pat != [] && c in pat && c !in s
    ensures RemoveAll(s, pat) == s
    decreases |s|
  {
    if |s| >= |pat| {
      RemoveAllWithout(s[1..], pat, c);
    }
  }

  /** A leading character that cannot start an occurrence is kept. */
  lemma RemoveAllCons(c: char, s: string, pat: string)
    requires pat != [] && (|s| + 1 < |pat| || ([c] + s)[..|pat|] != pat)
    ensures RemoveAll([c] + s, pat) == [c] + RemoveAll(s, pat)
  {
    assert ([c] + s)[1..] == s;
  }

  /** Decimal text of a natural number, as Python's `str()` gives it. */
  function DigitChar(d: nat): char
    requires d < 10
  {
    "0123456789"[d]
  }

  function NatToDecimal(n: nat): (r: string)
    ensures r != []
    ensures forall i :: 0 <= i < |r| ==> '0' <= r[i] <= '9'
  {
    if n < 10 then [DigitChar(n)] else NatToDecimal(n / 10) + [DigitChar(n % 10)]
  }

  /** The value of a string of decimal digits. */
  function DecimalValue(s: string): nat
    requires forall i :: 0 <= i < |s| ==> '0' <= s[i] <= '9'
  {
    if s == [] then 0 else 10 * DecimalValue(s[..|s| - 1]) + (s[|s| - 1] as int - '0' as int)
  }

  /** Reading the decimal text back gives the number. */
  lemma {:induction false} DecimalRoundTrip(n: nat)
    ensures DecimalValue(NatToDecimal(n)) == n
  {
    if n >= 10 {
      DecimalRoundTrip(n / 10);
      var r := NatToDecimal(n);
      assert r[..|r| - 1] == NatToDecimal(n / 10);
    }
  }

  /** Python's `a or b or ... or default` over optional strings: the first
      truthy candidate, else the default. */
  function FirstTruthy(candidates: seq<Option<string>>, default: string): (r: string)
    ensures (forall i :: 0 <= i < |candidates| ==> !Truthy(candidates[i])) ==> r == default
    ensures forall i :: (0 <= i < |candidates| && Truthy(candidates[i]) &&
              (forall j :: 0 <= j < i ==> !Truthy(candidates[j]))) ==> r == candidates[i].value
    decreases |candidates|
  {
    if candidates == [] then default
    else if Truthy(candidates[0]) then candidates[0].value
    else FirstTruthy(candidates[1..], default)
  }

  /** The chain looks at its first candidate, then at the rest. */
  lemma FirstTruthyCons(c: Option<string>, rest: seq<Option<string>>, default: string)
    ensures FirstTruthy([c] + rest, default) == if Truthy(c) then c.value else FirstTruthy(rest, default)
  {
    assert ([c] + rest)[1..] == rest;
  }
}
