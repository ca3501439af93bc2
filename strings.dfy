/** The JavaScript string operations the roster relies on: `\s` / `trim`,
    `split` on one character, `includes`, `startsWith` and `replace` with a
    string pattern (first occurrence only). */
module Strings {

  import opened Values

  /** The characters JavaScript's `\s` class and `String.prototype.trim`
      treat as white space (WhiteSpace and LineTerminator of ECMAScript). */
  predicate IsJsWhitespace(c: char) {
    || c == '\t' || c == '\n' || c == '\U{000B}' || c == '\U{000C}' || c == '\r'
    || c == ' ' || c == '\U{00A0}' || c == '\U{1680}'
    || ('\U{2000}' <= c <= '\U{200A}')
    || c == '\U{2028}' || c == '\U{2029}' || c == '\U{202F}' || c == '\U{205F}'
    || c == '\U{3000}' || c == '\U{FEFF}'
  }

  predicate StartsWith(s: string, prefix: string) {
    |prefix| <= |s| && s[..|prefix|] == prefix
  }

  /** `s.split(sep)` for a one-character separator: the pieces between
      consecutive separators, at least one piece, empty pieces kept. */
  function Split(s: string, sep: char): (parts: seq<string>)
    ensures |parts| >= 1
    ensures forall i :: 0 <= i < |parts| ==> sep !in parts[i]
    ensures sep !in s ==> parts == [s]
  {
    if |s| == 0 then [""]
    else
      var rest := Split(s[1..], sep);
      if s[0] == sep then [""] + rest
      else
        assert sep !in s[1..] ==> rest == [s[1..]];
        assert s == [s[0]] + s[1..];
        [[s[0]] + rest[0]] + rest[1..]
  }

  /** `parts.join(sep)`. */
  function Join(parts: seq<string>, sep: char): string
    requires |parts| >= 1
  {
    if |parts| == 1 then parts[0] else parts[0] + [sep] + Join(parts[1..], sep)
  }

  /** Joining the pieces of a split gives back the original string. */
  lemma {:induction false} JoinSplit(s: string, sep: char)
    ensures Join(Split(s, sep), sep) == s
  {
    if |s| > 0 {
      var rest := Split(s[1..], sep);
      JoinSplit(s[1..], sep);
      if s[0] == sep {
        assert Split(s, sep) == [""] + rest;
        assert s == [sep] + s[1..];
      } else {
        var parts := Split(s, sep);
        assert parts == [[s[0]] + rest[0]] + rest[1..];
        if |rest| == 1 {
          assert Join(parts, sep) == [s[0]] + rest[0];
        } else {
          assert parts[1..] == rest[1..];
          assert Join(rest, sep) == rest[0] + [sep] + Join(rest[1..], sep);
          assert Join(parts, sep) == ([s[0]] + rest[0]) + [sep] + Join(rest[1..], sep);
        }
      }
    }
  }

  /** Splitting at a separator splits each side independently. */
  lemma {:induction false} SplitAtSeparator(a: string, b: string, sep: char)
    ensures Split(a + [sep] + b, sep) == Split(a, sep) + Split(b, sep)
    decreases |a|
  {
    if a == [] {
      assert a + [sep] + b == [sep] + b;
      SplitCons(sep, b, sep);
    } else {
      var tail := a[1..] + [sep] + b;
      assert a + [sep] + b == [a[0]] + tail;
      assert a == [a[0]] + a[1..];
      SplitAtSeparator(a[1..], b, sep);
      SplitConsAppend(a[0], a[1..], Split(tail, sep), Split(b, sep), sep);
    }
  }

  /** The step of SplitAtSeparator: prefixing one character commutes with
      appending the pieces of the right-hand side. */
  lemma SplitConsAppend(c: char, t: string, both: seq<string>, right: seq<string>, sep: char)
    requires both == Split(t, sep) + right
    ensures (if c == sep then [""] + both else [[c] + both[0]] + both[1..])
      == Split([c] + t, sep) + right
  {
    SplitCons(c, t, sep);
    var rest := Split(t, sep);
    if c != sep {
      assert both[0] == rest[0];
      assert both[1..] == rest[1..] + right;
    }
  }

  /** How `split` treats the first character. */
  lemma SplitCons(c: char, t: string, sep: char)
    ensures Split([c] + t, sep) ==
      if c == sep then [""] + Split(t, sep)
      else [[c] + Split(t, sep)[0]] + Split(t, sep)[1..]
  {
    assert ([c] + t)[0] == c && ([c] + t)[1..] == t;
  }

  /** The position of the first `c` in `s`, or `|s|` when there is none. */
  function FirstIndexOf(s: string, c: char): (j: nat)
    ensures j <= |s|
    ensures j < |s| ==> s[j] == c
    ensures forall k :: 0 <= k < j ==> s[k] != c
  {
    if |s| == 0 || s[0] == c then 0 else 1 + FirstIndexOf(s[1..], c)
  }

  /** `s.split(sep)[0]` is the text before the first `sep`, which holds no `sep`. */
  lemma {:induction false} SplitHead(s: string, sep: char)
    ensures Split(s, sep)[0] == s[..FirstIndexOf(s, sep)]
    ensures sep !in s[..FirstIndexOf(s, sep)]
  {
    if |s| > 0 && s[0] != sep {
      SplitHead(s[1..], sep);
      assert s[..FirstIndexOf(s, sep)] == [s[0]] + s[1..][..FirstIndexOf(s[1..], sep)];
    }
  }

  predicate OccursAt(text: string, pattern: string, i: nat) {
    i + |pattern| <= |text| && text[i..i + |pattern|] == pattern
  }

  /** `text.indexOf(pattern)`: the first position where `pattern` occurs. */
  function IndexOf(text: string, pattern: string): (r: Option<nat>)
    ensures r.Some? ==> OccursAt(text, pattern, r.value)
    ensures r.Some? ==> forall j :: 0 <= j < r.value ==> !OccursAt(text, pattern, j)
    ensures r.None? ==> forall j :: 0 <= j <= |text| ==> !OccursAt(text, pattern, j)
    decreases |text|
  {
    if StartsWith(text, pattern) then Some(0)
    else if |text| == 0 then None
    else
      match IndexOf(text[1..], pattern)
      case None =>
        assert forall j :: 1 <= j <= |text| ==> (OccursAt(text, pattern, j) <==> OccursAt(text[1..], pattern, j - 1));
        None
      case Some(k) =>
        assert forall j :: 1 <= j <= |text| ==> (OccursAt(text, pattern, j) <==> OccursAt(text[1..], pattern, j - 1));
        Some(k + 1)
  }

  /** `text.replace(pattern, value)` with a string pattern: only the first
      occurrence is replaced; without one the text is returned unchanged. */
  function ReplaceFirst(text: string, pattern: string, value: string): (r: string)
    ensures IndexOf(text, pattern).None? ==> r == text
    ensures IndexOf(text, pattern).Some? ==>
      var i := IndexOf(text, pattern).value;
      r == text[..i] + value + text[i + |pattern|..]
  {
    match IndexOf(text, pattern)
    case None => text
    case Some(i) => text[..i] + value + text[i + |pattern|..]
  }

  predicate NoWhitespace(s: string) {
    forall i :: 0 <= i < |s| ==> !IsJsWhitespace(s[i])
  }

  /** The first position at or after `i` that does not hold white space. */
  function SkipWhitespace(s: string, i: nat): (j: nat)
    requires i <= |s|
    ensures i <= j <= |s|
    ensures j == |s| || !IsJsWhitespace(s[j])
    ensures forall k :: i <= k < j ==> IsJsWhitespace(s[k])
    decreases |s| - i
  {
    if i < |s| && IsJsWhitespace(s[i]) then SkipWhitespace(s, i + 1) else i
  }

  /** The end of `s[..j]` once the white space before `j` (but not before
      `lo`) is dropped. */
  function SkipWhitespaceBack(s: string, lo: nat, j: nat): (k: nat)
    requires lo <= j <= |s|
    ensures lo <= k <= j
    ensures k == lo || !IsJsWhitespace(s[k - 1])
    ensures forall m :: k <= m < j ==> IsJsWhitespace(s[m])
    decreases j
  {
    if lo < j && IsJsWhitespace(s[j - 1]) then SkipWhitespaceBack(s, lo, j - 1) else j
  }

  /** `s.trim()`: the part of `s` between its leading and its trailing white space. */
  function Trim(s: string): (r: string)
    ensures r == "" || (!IsJsWhitespace(r[0]) && !IsJsWhitespace(r[|r| - 1]))
  {
    var a := SkipWhitespace(s, 0);
    s[a..SkipWhitespaceBack(s, a, |s|)]
  }

  /** `trim` keeps a contiguous run of `s` and drops only white space before
      and after it. */
  lemma TrimDropsOnlyWhitespace(s: string)
    ensures var i := SkipWhitespace(s, 0);
      && i + |Trim(s)| <= |s| && Trim(s) == s[i..i + |Trim(s)|]
      && (forall k :: 0 <= k < i ==> IsJsWhitespace(s[k]))
      && (forall k :: i + |Trim(s)| <= k < |s| ==> IsJsWhitespace(s[k]))
  {
  }

  /** A string that neither starts nor ends with white space is its own trim. */
  lemma TrimUnchanged(s: string)
    requires s == "" || (!IsJsWhitespace(s[0]) && !IsJsWhitespace(s[|s| - 1]))
    ensures Trim(s) == s
  {
    assert SkipWhitespace(s, 0) == 0;
    assert SkipWhitespaceBack(s, 0, |s|) == |s|;
  }

  /** Trimming twice is trimming once. */
  lemma TrimIdempotent(s: string)
    ensures Trim(Trim(s)) == Trim(s)
  {
    TrimUnchanged(Trim(s));
  }
}
