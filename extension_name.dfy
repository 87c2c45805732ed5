// The extension-name check the export form runs before asking for an
// archive: the name must be present, non-empty, and matched in full by the
// regular expression /[a-z|A-Z]*[-|_]*[a-z|A-Z]*/. Every part of that
// pattern is starred, so it always matches at index 0, and since a starred
// part never forces a backtrack the first match found is the greedy one:
// the longest run of the first class, then of the second, then of the first.
module ExtensionName {
  import opened Wrappers

  /** The character classes: [a-z|A-Z] (letters and '|'), and [-|_] when `joiner` holds. */
  predicate InClass(c: char, joiner: bool) {
    if joiner then c == '-' || c == '|' || c == '_'
    else ('a' <= c <= 'z') || ('A' <= c <= 'Z') || c == '|'
  }

  predicate AllIn(t: string, joiner: bool) {
    forall k :: 0 <= k < |t| ==> InClass(t[k], joiner)
  }

  /** Where a greedy starred class starting at `i` stops: the first character outside the class, or the end. */
  function RunEnd(s: string, i: nat, joiner: bool): (r: nat)
    requires i <= |s|
    ensures i <= r <= |s|
    ensures forall k :: i <= k < r ==> InClass(s[k], joiner)
    ensures r < |s| ==> !InClass(s[r], joiner)
    decreases |s| - i
  {
    if i < |s| && InClass(s[i], joiner) then RunEnd(s, i + 1, joiner) else i
  }

  /** String.match's first element for the pattern: the greedy match at index 0. */
  function Match(s: string): string {
    var letters := RunEnd(s, 0, false);
    var joiners := RunEnd(s, letters, true);
    s[..RunEnd(s, joiners, false)]
  }

  /** exportProject's check: a missing or empty name, or one the match does not cover, is rejected. */
  function Accepted(name: Option<string>): bool {
    name.Some? && name.value != [] && Match(name.value) == name.value
  }

  /** The language of the pattern: letters, then joiners, then letters. */
  ghost predicate InLanguage(s: string) {
    exists a, b :: 0 <= a <= b <= |s| && AllIn(s[..a], false) && AllIn(s[a..b], true) && AllIn(s[b..], false)
  }

  /** A greedy run reaches at least as far as any stretch of the class that starts where it starts. */
  lemma {:induction false} RunReaches(s: string, i: nat, j: nat, joiner: bool)
    requires i <= j <= |s|
    requires forall k :: i <= k < j ==> InClass(s[k], joiner)
    ensures j <= RunEnd(s, i, joiner)
    decreases |s| - i
  {
    if i < j {
      RunReaches(s, i + 1, j, joiner);
    }
  }

  /** A name the greedy match covers splits into the pattern's three runs. */
  lemma MatchedInLanguage(s: string)
    requires Match(s) == s
    ensures InLanguage(s)
  {
    var i1 := RunEnd(s, 0, false);
    var i2 := RunEnd(s, i1, true);
    assert RunEnd(s, i2, false) == |s|;
    assert AllIn(s[..i1], false) && AllIn(s[i1..i2], true) && AllIn(s[i2..], false);
  }

  /** A name in the pattern's language is covered by the greedy match: each run reaches at least as far as the split's. */
  lemma LanguageMatched(s: string, a: nat, b: nat)
    requires a <= b <= |s| && AllIn(s[..a], false) && AllIn(s[a..b], true) && AllIn(s[b..], false)
    ensures Match(s) == s
  {
    var i1 := RunEnd(s, 0, false);
    var i2 := RunEnd(s, i1, true);
    assert forall k :: 0 <= k < a ==> s[..a][k] == s[k];
    RunReaches(s, 0, a, false);
    if i1 < b {
      assert forall k :: i1 <= k < b ==> s[a..b][k - a] == s[k];
      RunReaches(s, i1, b, true);
    }
    assert forall k :: b <= k < |s| ==> s[b..][k - b] == s[k];
    RunReaches(s, i2, |s|, false);
  }

  /** The greedy match is the whole name exactly when the name is in the pattern's language. */
  lemma MatchIffLanguage(s: string)
    ensures Match(s) == s <==> InLanguage(s)
  {
    if Match(s) == s {
      MatchedInLanguage(s);
    }
    if InLanguage(s) {
      var a, b :| 0 <= a <= b <= |s| && AllIn(s[..a], false) && AllIn(s[a..b], true) && AllIn(s[b..], false);
      LanguageMatched(s, a, b);
    }
  }

  /** An accepted name is made of letters, '|', '-' and '_' only. */
  lemma AcceptedAlphabet(name: string)
    requires Accepted(Some(name))
    ensures forall k :: 0 <= k < |name| ==>
      ('a' <= name[k] <= 'z') || ('A' <= name[k] <= 'Z') || name[k] in "|-_"
  {
    var i1 := RunEnd(name, 0, false);
    var i2 := RunEnd(name, i1, true);
    forall k | 0 <= k < |name|
      ensures ('a' <= name[k] <= 'z') || ('A' <= name[k] <= 'Z') || name[k] in "|-_"
    {
      if k < i1 {
        assert InClass(name[k], false);
      } else if k < i2 {
        assert InClass(name[k], true);
      } else {
        assert InClass(name[k], false);
      }
    }
  }

  /** Digits, '.', '/', '$' and spaces are refused wherever they occur, and so are a missing and an empty name. */
  lemma Refused(name: string, k: nat)
    requires k < |name| && (('0' <= name[k] <= '9') || name[k] in "./$ ")
    ensures !Accepted(Some(name))
    ensures !Accepted(None) && !Accepted(Some(""))
  {
    if Accepted(Some(name)) {
      AcceptedAlphabet(name);
    }
  }
}
