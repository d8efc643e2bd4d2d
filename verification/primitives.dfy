/**
 Machine integers, optional values and Go's string order, shared by the
 event caches and the router state manager.
 */
module Primitives {

  /** Number of values of a Go `uint64`. */
  const U64_LIMIT: int := 0x1_0000_0000_0000_0000
  /** Number of values of a Go `uint32`. */
  const U32_LIMIT: int := 0x1_0000_0000

  type U64 = x: int | 0 <= x < U64_LIMIT
  type U32 = x: int | 0 <= x < U32_LIMIT

  /** Go's `x + 1` on a `uint64`: wraps around to 0 past the largest value. */
  function Inc64(x: U64): (r: U64)
    ensures x < U64_LIMIT - 1 ==> r == x + 1
    ensures x == U64_LIMIT - 1 ==> r == 0
  {
    (x + 1) % U64_LIMIT
  }

  /** Go's `x + 1` on a `uint32`. */
  function Inc32(x: U32): (r: U32)
    ensures x < U32_LIMIT - 1 ==> r == x + 1
    ensures x == U32_LIMIT - 1 ==> r == 0
  {
    (x + 1) % U32_LIMIT
  }

  /** Go's `x - 1` on a `uint32`: 0 wraps around to the largest value. */
  function Dec32(x: U32): (r: U32)
    ensures x > 0 ==> r == x - 1
    ensures x == 0 ==> r == U32_LIMIT - 1
  {
    (x - 1) % U32_LIMIT
  }

  /** A Go pointer or map lookup that may come back nil / absent. */
  datatype Option<+T> = None | Some(value: T)

  /**
   Go's `a <= b` on strings: byte-wise lexicographic order. Code points are
   compared one by one, which orders valid text exactly as its UTF-8 bytes do.
   */
  function LexLessEq(a: string, b: string): (r: bool)
    ensures r <==> HasPrefix(b, a) || FirstDiffBelow(a, b)
  {
    if a == [] then true
    else if b == [] then false
    else if a[0] != b[0] then
      HeadDecides(a, b);
      a[0] < b[0]
    else
      TailDecides(a, b);
      LexLessEq(a[1..], b[1..])
  }

  /** Strings that differ in their first character are ordered by it. */
  lemma HeadDecides(a: string, b: string)
    requires a != [] && b != [] && a[0] != b[0]
    ensures !HasPrefix(b, a)
    ensures FirstDiffBelow(a, b) <==> a[0] < b[0]
  {
    if FirstDiffBelow(a, b) {
      var i :| 0 <= i < |a| && i < |b| && a[..i] == b[..i] && a[i] < b[i];
    } else {
      assert a[..0] == b[..0];
    }
  }

  /** Strings with the same first character are ordered as their tails are. */
  lemma TailDecides(a: string, b: string)
    requires a != [] && b != [] && a[0] == b[0]
    ensures HasPrefix(b, a) <==> HasPrefix(b[1..], a[1..])
    ensures FirstDiffBelow(a, b) <==> FirstDiffBelow(a[1..], b[1..])
  {
    if |a| <= |b| {
      assert b[..|a|] == [b[0]] + b[1..][..|a| - 1];
      assert a == [a[0]] + a[1..];
    }
    if FirstDiffBelow(a, b) {
      DiffDropsHead(a, b);
    }
    if FirstDiffBelow(a[1..], b[1..]) {
      DiffKeepsHead(a, b);
    }
  }

  lemma DiffDropsHead(a: string, b: string)
    requires a != [] && b != [] && a[0] == b[0] && FirstDiffBelow(a, b)
    ensures FirstDiffBelow(a[1..], b[1..])
  {
    var i :| 0 <= i < |a| && i < |b| && a[..i] == b[..i] && a[i] < b[i];
    assert i > 0;
    assert a[1..][..i - 1] == a[..i][1..] && b[1..][..i - 1] == b[..i][1..];
    assert a[1..][i - 1] == a[i] && b[1..][i - 1] == b[i];
  }

  lemma DiffKeepsHead(a: string, b: string)
    requires a != [] && b != [] && a[0] == b[0] && FirstDiffBelow(a[1..], b[1..])
    ensures FirstDiffBelow(a, b)
  {
    var i :| 0 <= i < |a[1..]| && i < |b[1..]| && a[1..][..i] == b[1..][..i] && a[1..][i] < b[1..][i];
    assert a[..i + 1] == [a[0]] + a[1..][..i] && b[..i + 1] == [b[0]] + b[1..][..i];
    assert a[i + 1] == a[1..][i] && b[i + 1] == b[1..][i];
  }

  /** `a` and `b` agree up to some position where `a`'s character is the smaller. */
  ghost predicate FirstDiffBelow(a: string, b: string)
  {
    exists i :: 0 <= i < |a| && i < |b| && a[..i] == b[..i] && a[i] < b[i]
  }

  /** Any two strings are comparable. */
  lemma {:induction false} LexLessEqTotal(a: string, b: string)
    ensures LexLessEq(a, b) || LexLessEq(b, a)
  {
    if a != [] && b != [] && a[0] == b[0] {
      LexLessEqTotal(a[1..], b[1..]);
    }
  }

  /** Go's `strings.HasPrefix(s, prefix)`. */
  predicate HasPrefix(s: string, prefix: string)
  {
    |prefix| <= |s| && s[..|prefix|] == prefix
  }

  /** Strings that are below each other are equal. */
  lemma {:induction false} LexLessEqAntisymmetric(a: string, b: string)
    requires LexLessEq(a, b) && LexLessEq(b, a)
    ensures a == b
  {
    if a != [] && b != [] {
      LexLessEqAntisymmetric(a[1..], b[1..]);
      assert a == [a[0]] + a[1..];
      assert b == [b[0]] + b[1..];
    }
  }

  /** The order is transitive. */
  lemma {:induction false} LexLessEqTransitive(a: string, b: string, c: string)
    requires LexLessEq(a, b) && LexLessEq(b, c)
    ensures LexLessEq(a, c)
  {
    if a != [] && b != [] && c != [] && a[0] == b[0] && b[0] == c[0] {
      LexLessEqTransitive(a[1..], b[1..], c[1..]);
    }
  }
}
