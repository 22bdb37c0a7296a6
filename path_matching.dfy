/**
 * The part of Spring's `AntPathMatcher` the permit lists use: a literal
 * pattern matches that path exactly, and a subtree pattern (a base path
 * followed by a slash and two asterisks) matches its base path itself and
 * every path below it.
 */
module PathMatching {
  import opened JavaText

  predicate IsSubtreePattern(pattern: string) {
    |pattern| >= 3 && pattern[|pattern| - 3..] == "/**"
  }

  function SubtreeBase(pattern: string): (base: string)
    requires IsSubtreePattern(pattern)
  {
    pattern[..|pattern| - 3]
  }

  /** `pathMatcher.match(pattern, path)` for literal and subtree patterns. */
  predicate Matches(pattern: string, path: string) {
    if IsSubtreePattern(pattern) then
      var base := SubtreeBase(pattern);
      path == base || StartsWith(path, base + "/")
    else
      path == pattern
  }

  /** `patterns.stream().anyMatch(p -> match(p, path))`. */
  predicate AnyMatch(patterns: seq<string>, path: string) {
    exists i | 0 <= i < |patterns| :: Matches(patterns[i], path)
  }

  function Elements(patterns: seq<string>): (elements: set<string>) {
    set p | p in patterns
  }

  /** A subtree pattern matches its base and everything below it. */
  lemma SubtreeCoversBaseAndBelow(pattern: string, rest: string)
    requires IsSubtreePattern(pattern)
    ensures Matches(pattern, SubtreeBase(pattern))
    ensures Matches(pattern, SubtreeBase(pattern) + "/" + rest)
  {
    var base := SubtreeBase(pattern);
    assert (base + "/") <= (base + "/" + rest);
  }

  /** Whether some pattern of a list matches depends only on which patterns
      the list holds, not on their order or repetition. */
  lemma AnyMatchDependsOnElementsOnly(ps: seq<string>, qs: seq<string>, path: string)
    requires Elements(ps) == Elements(qs)
    ensures AnyMatch(ps, path) <==> AnyMatch(qs, path)
  {
    if AnyMatch(ps, path) {
      var i :| 0 <= i < |ps| && Matches(ps[i], path);
      assert ps[i] in Elements(qs);
      var j :| 0 <= j < |qs| && qs[j] == ps[i];
    }
    if AnyMatch(qs, path) {
      var j :| 0 <= j < |qs| && Matches(qs[j], path);
      assert qs[j] in Elements(ps);
      var i :| 0 <= i < |ps| && ps[i] == qs[j];
    }
  }

  /** A match against the concatenation of two lists is a match against one of them. */
  lemma AnyMatchConcat(ps: seq<string>, qs: seq<string>, path: string)
    ensures AnyMatch(ps + qs, path) <==> AnyMatch(ps, path) || AnyMatch(qs, path)
  {
    var t := ps + qs;
    if AnyMatch(t, path) {
      var i :| 0 <= i < |t| && Matches(t[i], path);
      if i >= |ps| { assert t[i] == qs[i - |ps|]; }
    }
    if AnyMatch(qs, path) {
      var j :| 0 <= j < |qs| && Matches(qs[j], path);
      assert t[|ps| + j] == qs[j];
    }
    if AnyMatch(ps, path) {
      var j :| 0 <= j < |ps| && Matches(ps[j], path);
      assert t[j] == ps[j];
    }
  }
}
