/**
 * The library string operations the core relies on: `Character.isWhitespace`,
 * Spring's `StringUtils.hasText`, `String.startsWith`, `String.contains` and
 * `String.indexOf`. A Java `String` is a `seq<char>`; a null one is `None`.
 */
module JavaText {
  import opened Wrappers

  /** `Character.isWhitespace`: the Unicode space, line and paragraph separators
      other than the no-break spaces, plus the ASCII controls U+0009..U+000D
      and U+001C..U+001F. */
  predicate IsWhitespace(c: char) {
    || c == ' '
    || ('\t' <= c <= '\r')
    || ('\U{1C}' <= c <= '\U{1F}')
    || c == '\U{1680}'
    || ('\U{2000}' <= c <= '\U{2006}')
    || ('\U{2008}' <= c <= '\U{200A}')
    || c == '\U{2028}' || c == '\U{2029}'
    || c == '\U{205F}' || c == '\U{3000}'
  }

  /** `StringUtils.hasText`: not null and holding a non-whitespace character. */
  predicate HasText(s: Option<string>) {
    s.Some? && exists i | 0 <= i < |s.value| :: !IsWhitespace(s.value[i])
  }

  /** `s.startsWith(prefix)`. */
  predicate StartsWith(s: string, prefix: string) {
    prefix <= s
  }

  /** `t` occurs in `s` starting at position `i`. */
  predicate OccursAt(s: string, t: string, i: nat) {
    i + |t| <= |s| && s[i..i + |t|] == t
  }

  /** `s.contains(t)`. */
  predicate Contains(s: string, t: string) {
    exists i: nat | i <= |s| :: OccursAt(s, t, i)
  }

  function Max0(n: int): (m: nat) {
    if n < 0 then 0 else n
  }

  /** `s.indexOf(c, from)`: the first position at or after `from` holding `c`,
      or -1; a negative `from` counts as 0. */
  function IndexOf(s: string, c: char, from: int): (k: int)
    ensures k == -1 || (Max0(from) <= k < |s| && s[k] == c)
    ensures k != -1 ==> forall j | Max0(from) <= j < k :: s[j] != c
    ensures k == -1 <==> forall j | Max0(from) <= j < |s| :: s[j] != c
    decreases |s| - from
  {
    if from < 0 then IndexOf(s, c, 0)
    else if from >= |s| then -1
    else if s[from] == c then from
    else IndexOf(s, c, from + 1)
  }

  /** `s.indexOf(c)`. */
  function FirstIndexOf(s: string, c: char): (k: int)
    ensures k == -1 || (0 <= k < |s| && s[k] == c)
    ensures k == -1 <==> c !in s
    ensures k != -1 ==> c !in s[..k]
  {
    IndexOf(s, c, 0)
  }

  /** The number of times `c` occurs in `s`. */
  function Occurrences(s: string, c: char): (count: nat) {
    if s == [] then 0 else (if s[0] == c then 1 else 0) + Occurrences(s[1..], c)
  }

  lemma {:induction false} OccursOnce(s: string, c: char, i: nat)
    requires i < |s| && s[i] == c
    ensures Occurrences(s, c) >= 1
  {
    if i > 0 { OccursOnce(s[1..], c, i - 1); }
  }

  /** Two positions holding `c` make at least two occurrences. */
  lemma {:induction false} OccursTwice(s: string, c: char, i: nat, j: nat)
    requires i < j < |s| && s[i] == c && s[j] == c
    ensures Occurrences(s, c) >= 2
  {
    if i > 0 {
      OccursTwice(s[1..], c, i - 1, j - 1);
    } else {
      OccursOnce(s[1..], c, j - 1);
    }
  }
}
