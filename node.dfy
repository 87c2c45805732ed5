/**
 * A resource offered for selection (Node): a display text, a description,
 * and the managed path that selects it. Nodes are ordered by their text;
 * their hash code is their path's; their equality compares this node's
 * text with the other node's path.
 */
module Nodes {

  // -------------------------------------------------------------------------
  // java.lang.String operations the node relies on.

  /**
   * String.compareTo, taken over code points: the difference of the first
   * differing characters, or of the lengths when one string is a prefix of
   * the other. Java compares UTF-16 code units instead, which gives another
   * sign only when a character outside the Basic Multilingual Plane meets
   * one in U+E000..U+FFFF at the first difference.
   */
  function CompareStrings(a: string, b: string): int
    decreases |a|
  {
    if a == [] || b == [] then |a| - |b|
    else if a[0] != b[0] then a[0] as int - b[0] as int
    else CompareStrings(a[1..], b[1..])
  }

  /** Two strings compare equal exactly when they are the same string. */
  lemma {:induction false} CompareZeroIff(a: string, b: string)
    ensures CompareStrings(a, b) == 0 <==> a == b
    decreases |a|
  {
    if a != [] && b != [] && a[0] == b[0] {
      CompareZeroIff(a[1..], b[1..]);
      assert a == [a[0]] + a[1..] && b == [b[0]] + b[1..];
    }
  }

  /** Swapping the operands negates the comparison. */
  lemma {:induction false} CompareAntisymmetric(a: string, b: string)
    ensures CompareStrings(b, a) == -CompareStrings(a, b)
    decreases |a|
  {
    if a != [] && b != [] && a[0] == b[0] {
      CompareAntisymmetric(a[1..], b[1..]);
    }
  }

  /** "Not after" is transitive. */
  lemma {:induction false} CompareTransitive(a: string, b: string, c: string)
    requires CompareStrings(a, b) <= 0 && CompareStrings(b, c) <= 0
    ensures CompareStrings(a, c) <= 0
    decreases |a|
  {
    if a != [] && b != [] && c != [] && a[0] == b[0] && b[0] == c[0] {
      CompareTransitive(a[1..], b[1..], c[1..]);
    }
  }

  /** Any two strings are ordered one way or the other. */
  lemma CompareTotal(a: string, b: string)
    ensures CompareStrings(a, b) <= 0 || CompareStrings(b, a) <= 0
  {
    CompareAntisymmetric(a, b);
  }

  const TwoTo31: int := 0x8000_0000
  const TwoTo32: int := 0x1_0000_0000

  /** The 32-bit two's-complement value of an integer (Java int arithmetic wraps around). */
  function Wrap32(x: int): (r: int)
    ensures -TwoTo31 <= r < TwoTo31
    ensures (r - x) % TwoTo32 == 0
  {
    (x + TwoTo31) % TwoTo32 - TwoTo31
  }

  /** String.hashCode: h = 31 * h + c over the characters, in int arithmetic. */
  function StringHash(s: string): (r: int)
    ensures -TwoTo31 <= r < TwoTo31
    decreases |s|
  {
    if s == [] then 0 else Wrap32(31 * StringHash(s[..|s| - 1]) + s[|s| - 1] as int)
  }

  /** A one-character string hashes to its character code. */
  lemma SingleCharHash(c: char)
    requires (c as int) < TwoTo31
    ensures StringHash([c]) == c as int
  {
    assert [c][..0] == [];
  }

  // -------------------------------------------------------------------------
  // The node.

  /** What Node.equals may be handed. */
  datatype JavaObject =
    | NullRef
    | NodeObject(node: Node)
    | StringObject(s: string)
    | OtherObject

  class Node {
    var text: string
    var description: string
    /** The path has no setter: it is fixed at construction. */
    const path: string

    /** The constructor stores its three arguments unchanged. */
    constructor(text: string, description: string, path: string)
      ensures this.text == text && this.description == description && this.path == path
    {
      this.text := text;
      this.description := description;
      this.path := path;
    }

    /** setText changes the text only. */
    method SetText(text: string)
      modifies this
      ensures this.text == text && description == old(description)
    {
      this.text := text;
    }

    /** setDescription changes the description only. */
    method SetDescription(description: string)
      modifies this
      ensures this.description == description && text == old(text)
    {
      this.description := description;
    }

    /** setPath, despite its name, sets nothing: it returns the path. */
    method SetPath() returns (p: string)
      ensures p == path
    {
      p := path;
    }

    /** compareTo orders by text only: zero exactly for equal texts, and swapping the nodes negates it. */
    function CompareTo(o: Node): (r: int)
      reads this, o
      ensures r == 0 <==> text == o.text
      ensures r == -CompareStrings(o.text, text)
    {
      CompareZeroIff(text, o.text);
      CompareAntisymmetric(text, o.text);
      CompareStrings(text, o.text)
    }

    /** hashCode is the path's hash code; it reads nothing that can change. */
    function HashCode(): (r: int)
      ensures -TwoTo31 <= r < TwoTo31
    {
      StringHash(path)
    }

    /**
     * equals: a node is compared by this node's TEXT against the other
     * node's PATH; a string is compared with the text; anything else,
     * including null, is unequal.
     */
    function Equals(obj: JavaObject): (r: bool)
      reads this
      ensures obj.NullRef? || obj.OtherObject? ==> !r
      ensures obj.NodeObject? ==> (r <==> text == obj.node.path)
      ensures obj.StringObject? ==> (r <==> text == obj.s)
    {
      match obj
      case NullRef => false
      case NodeObject(o) => text == o.path
      case StringObject(s) => text == s
      case OtherObject => false
    }

    /** equals with a node compared by path against path, as hashCode assumes. */
    function EqualsByPath(obj: JavaObject): (r: bool)
      reads this
      ensures obj.NodeObject? ==> (r <==> path == obj.node.path)
      ensures !obj.NodeObject? ==> r == Equals(obj)
    {
      match obj
      case NodeObject(o) => path == o.path
      case _ => Equals(obj)
    }
  }

  /** Two nodes with the same path have the same hash code, whatever their texts. */
  lemma HashFollowsPath(a: Node, b: Node)
    requires a.path == b.path
    ensures a.HashCode() == b.HashCode()
  {
  }

  /** As written, a node equals itself only when its text is its path. */
  lemma EqualsSelfIff(a: Node)
    ensures a.Equals(NodeObject(a)) <==> a.text == a.path
  {
  }

  /**
   * As written, equality breaks hashCode's contract: node a (text "b",
   * path "a") equals node b (path "b"), yet their hash codes are 97 and 98.
   */
  lemma EqualsBreaksHashContract(a: Node, b: Node)
    requires a.text == "b" && a.path == "a" && b.path == "b"
    ensures a.Equals(NodeObject(b))
    ensures a.HashCode() != b.HashCode()
  {
    SingleCharHash('a');
    SingleCharHash('b');
  }

  /** As written, equality is not symmetric: a equals b while b does not equal a. */
  lemma EqualsNotSymmetric(a: Node, b: Node)
    requires a.text == "b" && a.path == "a" && b.text == "c" && b.path == "b"
    ensures a.Equals(NodeObject(b)) && !b.Equals(NodeObject(a))
  {
  }

  /** Comparing paths is reflexive, symmetric, and consistent with hashCode. */
  lemma EqualsByPathConsistent(a: Node, b: Node)
    ensures a.EqualsByPath(NodeObject(a))
    ensures a.EqualsByPath(NodeObject(b)) == b.EqualsByPath(NodeObject(a))
    ensures a.EqualsByPath(NodeObject(b)) ==> a.HashCode() == b.HashCode()
  {
  }
}
