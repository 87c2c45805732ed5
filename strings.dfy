/**
 * The java.lang.String operations the generator relies on, on `seq<char>`.
 * Every pattern the generator passes to `replace`, `replaceAll`,
 * `replaceFirst` and `split` is literal path text, so all of them are
 * modelled as literal (non-regular-expression) operations.
 */
module Strings {

  /** `p` occurs in `s` starting at index `i`. */
  predicate OccursAt(s: string, p: string, i: nat) {
    i + |p| <= |s| && s[i..i + |p|] == p
  }

  /** String.startsWith */
  predicate StartsWith(s: string, p: string) {
    p <= s
  }

  /** String.endsWith */
  predicate EndsWith(s: string, p: string) {
    |p| <= |s| && s[|s| - |p|..] == p
  }

  /** String.indexOf(String): the first occurrence of `p`, or -1. */
  function IndexOf(s: string, p: string): (r: int)
    ensures -1 <= r <= |s|
    ensures r >= 0 ==> OccursAt(s, p, r)
    ensures forall i: nat :: i < |s| + 1 && (r < 0 || i < r) ==> !OccursAt(s, p, i)
    decreases |s|
  {
    if p <= s then 0
    else if s == [] then -1
    else
      var k := IndexOf(s[1..], p);
      OccursShift(s, p);
      if k < 0 then -1 else k + 1
  }

  /** Occurrences in the tail of `s` are the occurrences in `s` past index 0. */
  lemma OccursShift(s: string, p: string)
    requires s != [] && !(p <= s)
    ensures !OccursAt(s, p, 0)
    ensures forall i: nat :: OccursAt(s[1..], p, i) <==> OccursAt(s, p, i + 1)
    ensures forall i: nat :: 1 <= i ==> (OccursAt(s, p, i) <==> OccursAt(s[1..], p, i - 1))
  {
    forall i: nat ensures OccursAt(s[1..], p, i) <==> OccursAt(s, p, i + 1) {
      if i + 1 + |p| <= |s| {
        assert s[1..][i..i + |p|] == s[i + 1..i + 1 + |p|];
      }
    }
    forall i: nat | 1 <= i ensures OccursAt(s, p, i) <==> OccursAt(s[1..], p, i - 1) {
      var j: nat := i - 1;
      assert OccursAt(s[1..], p, j) <==> OccursAt(s, p, j + 1);
    }
  }

  /** String.contains */
  predicate Contains(s: string, p: string) {
    IndexOf(s, p) >= 0
  }

  /** String.lastIndexOf(char): the last index holding `c`, or -1. */
  function LastIndexOf(s: string, c: char): (r: int)
    ensures -1 <= r < |s|
    ensures r >= 0 ==> s[r] == c
    ensures forall i :: r < i < |s| ==> s[i] != c
  {
    if s == [] then -1
    else if s[|s| - 1] == c then |s| - 1
    else LastIndexOf(s[..|s| - 1], c)
  }

  /**
   * String.replace(CharSequence, CharSequence) and, for a literal pattern,
   * String.replaceAll: occurrences are replaced left to right without
   * overlapping.
   */
  function ReplaceAll(s: string, p: string, r: string): string
    requires p != []
    decreases |s|
  {
    if s == [] then []
    else if p <= s then r + ReplaceAll(s[|p|..], p, r)
    else [s[0]] + ReplaceAll(s[1..], p, r)
  }

  /** String.replaceFirst for a literal pattern. */
  function ReplaceFirst(s: string, p: string, r: string): string {
    var i := IndexOf(s, p);
    if i < 0 then s else s[..i] + r + s[i + |p|..]
  }

  /** Removes one leading '/', as the archive writers do before naming an entry. */
  function StripLeadingSlash(s: string): (r: string)
    ensures r == s || ("/" <= s && s == "/" + r)
  {
    if "/" <= s then s[1..] else s
  }

  /** Every piece of `s` between occurrences of `sep`, empty pieces included. */
  function SplitPieces(s: string, sep: string): (r: seq<string>)
    requires sep != []
    ensures |r| >= 1
    decreases |s|
  {
    var i := IndexOf(s, sep);
    if i < 0 then [s] else [s[..i]] + SplitPieces(s[i + |sep|..], sep)
  }

  function DropTrailingEmpty(parts: seq<string>): (r: seq<string>)
    ensures r <= parts
    ensures r == [] || r[|r| - 1] != ""
  {
    if parts != [] && parts[|parts| - 1] == "" then DropTrailingEmpty(parts[..|parts| - 1]) else parts
  }

  /**
   * String.split with a literal separator and no limit: without any match the
   * whole string is the only piece; otherwise trailing empty pieces are dropped
   * (a leading empty piece stays, since the separator has positive width).
   */
  function Split(s: string, sep: string): seq<string>
    requires sep != []
  {
    if IndexOf(s, sep) < 0 then [s] else DropTrailingEmpty(SplitPieces(s, sep))
  }

  // ---------------------------------------------------------------------
  // Facts about the operations above.

  /** An occurrence inside an occurrence is an occurrence. */
  lemma OccursWithin(s: string, p: string, q: string, i: nat, j: nat)
    requires OccursAt(s, p, i) && OccursAt(p, q, j)
    ensures OccursAt(s, q, i + j)
  {
    forall k | 0 <= k < |q| ensures s[i + j + k] == q[k] {
      assert s[i + j + k] == s[i..i + |p|][j + k];
      assert q[k] == p[j..j + |q|][k];
    }
    assert s[i + j..i + j + |q|] == q;
  }

  /** A string without `p` anywhere is left alone by ReplaceAll. */
  lemma {:induction false} ReplaceAbsent(s: string, p: string, r: string)
    requires p != [] && !Contains(s, p)
    ensures ReplaceAll(s, p, r) == s
    decreases |s|
  {
    if s != [] {
      OccursShift(s, p);
      ReplaceAbsent(s[1..], p, r);
      assert s == [s[0]] + s[1..];
    }
  }

  /** A string missing one of the pattern's characters cannot hold the pattern. */
  lemma MissingCharNotContained(s: string, p: string, c: char)
    requires c in p && c !in s
    ensures !Contains(s, p)
  {
    var j :| 0 <= j < |p| && p[j] == c;
    forall i: nat | i + |p| <= |s| ensures !OccursAt(s, p, i) {
      assert s[i..i + |p|][j] == s[i + j];
    }
  }

  lemma ReplaceMissingChar(s: string, p: string, r: string, c: char)
    requires p != [] && c in p && c !in s
    ensures ReplaceAll(s, p, r) == s
  {
    MissingCharNotContained(s, p, c);
    ReplaceAbsent(s, p, r);
  }

  /** A head that lacks the pattern's first character passes through unchanged. */
  lemma {:induction false} ReplaceKeepsHead(a: string, b: string, p: string, r: string)
    requires p != [] && p[0] !in a
    ensures ReplaceAll(a + b, p, r) == a + ReplaceAll(b, p, r)
    decreases |a|
  {
    if a != [] {
      assert (a + b)[0] == a[0];
      assert (a + b)[1..] == a[1..] + b;
      calc {
        ReplaceAll(a + b, p, r);
        [a[0]] + ReplaceAll(a[1..] + b, p, r);
        { ReplaceKeepsHead(a[1..], b, p, r); }
        [a[0]] + (a[1..] + ReplaceAll(b, p, r));
        { assert a == [a[0]] + a[1..]; }
        a + ReplaceAll(b, p, r);
      }
    } else {
      assert a + b == b;
    }
  }

  /** A leading occurrence is replaced first. */
  lemma ReplaceLeading(p: string, b: string, r: string)
    requires p != []
    ensures ReplaceAll(p + b, p, r) == r + ReplaceAll(b, p, r)
  {
    assert (p + b)[|p|..] == b;
  }

  /** A prefix of a + b either stops inside a or holds a's last character. */
  lemma PrefixReachesLast(a: string, b: string, p: string)
    requires a != [] && p <= a + b
    ensures |p| < |a| || a[|a| - 1] in p
  {
    if |a| <= |p| {
      assert p[|a| - 1] == a[|a| - 1];
    }
  }

  /**
   * A string whose head ends in a character the pattern lacks is replaced
   * piecewise: no occurrence can straddle that character.
   */
  lemma {:induction false} ReplaceSplit(a: string, b: string, p: string, r: string)
    requires p != [] && a != [] && a[|a| - 1] !in p
    ensures ReplaceAll(a + b, p, r) == ReplaceAll(a, p, r) + ReplaceAll(b, p, r)
    decreases |a|
  {
    if p <= a + b {
      PrefixReachesLast(a, b, p);
      assert p <= a;
      assert (a + b)[|p|..] == a[|p|..] + b;
      ReplaceSplit(a[|p|..], b, p, r);
    } else {
      assert !(p <= a);
      assert (a + b)[1..] == a[1..] + b;
      if |a| == 1 {
        assert a[1..] + b == b;
      } else {
        ReplaceSplit(a[1..], b, p, r);
      }
    }
  }

  /**
   * One occurrence of the pattern between a head and a tail that each miss
   * one of its characters, the head ending in a character it lacks: only
   * that occurrence is replaced.
   */
  lemma ReplaceBetween(h: string, p: string, t: string, r: string, c: char)
    requires p != [] && h != [] && h[|h| - 1] !in p
    requires c in p && c !in h && c !in t
    ensures ReplaceAll(h + (p + t), p, r) == h + r + t
  {
    ReplaceSplit(h, p + t, p, r);
    ReplaceMissingChar(h, p, r, c);
    ReplaceLeading(p, t, r);
    ReplaceMissingChar(t, p, r, c);
  }

  /** A replacement no longer than the pattern never lengthens the string, and shortens it when the pattern occurs. */
  lemma {:induction false} ReplaceShrinks(s: string, p: string, r: string)
    requires p != [] && |r| <= |p|
    ensures |ReplaceAll(s, p, r)| <= |s|
    ensures |r| < |p| && Contains(s, p) ==> |ReplaceAll(s, p, r)| < |s|
    decreases |s|
  {
    if s != [] {
      if p <= s {
        ReplaceShrinks(s[|p|..], p, r);
      } else {
        ReplaceShrinks(s[1..], p, r);
        if |r| < |p| && Contains(s, p) {
          var i := IndexOf(s, p);
          assert i != 0;
          assert s[1..][i - 1..i - 1 + |p|] == s[i..i + |p|];
          assert OccursAt(s[1..], p, i - 1);
        }
      }
    }
  }

  /** The pieces of a split rejoin, with the separator between them, into the original string. */
  function Join(parts: seq<string>, sep: string): string
    requires |parts| >= 1
  {
    if |parts| == 1 then parts[0] else parts[0] + sep + Join(parts[1..], sep)
  }

  lemma {:induction false} SplitPiecesJoin(s: string, sep: string)
    requires sep != []
    ensures Join(SplitPieces(s, sep), sep) == s
    decreases |s|
  {
    var i := IndexOf(s, sep);
    hide IndexOf;
    if i >= 0 {
      var rest := s[i + |sep|..];
      SplitPiecesJoin(rest, sep);
      var parts := SplitPieces(s, sep);
      assert parts[0] == s[..i] && parts[1..] == SplitPieces(rest, sep);
      assert Join(parts, sep) == s[..i] + sep + rest;
      assert s[i..i + |sep|] == sep;
      assert s == s[..i] + sep + rest;
    }
  }

  /** Splitting `a + sep + b`, where `a` holds no character of the separator and `b` no occurrence of it, gives back `a` and `b`. */
  lemma SplitTwo(a: string, b: string, sep: string)
    requires sep != [] && b != []
    requires forall k :: 0 <= k < |a| ==> a[k] !in sep
    requires !Contains(b, sep)
    ensures Split(a + sep + b, sep) == [a, b]
  {
    var s := a + sep + b;
    assert OccursAt(s, sep, |a|) by { assert s[|a|..|a| + |sep|] == sep; }
    forall k: nat | k < |a| ensures !OccursAt(s, sep, k) {
      assert s[k] == a[k];
      assert k + |sep| <= |s| ==> s[k..k + |sep|][0] == s[k];
    }
    var i := IndexOf(s, sep);
    assert i == |a|;
    assert s[..i] == a;
    assert s[i + |sep|..] == b;
    assert SplitPieces(b, sep) == [b];
  }
}
