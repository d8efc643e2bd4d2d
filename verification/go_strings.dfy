/**
 Go's `strings.TrimSpace`, on strings of code points, with white space as
 `unicode.IsSpace` defines it.
 */
module GoStrings {

  /**
   `unicode.IsSpace`: the Latin-1 spaces '\t', '\n', '\v', '\f', '\r', ' ',
   U+0085 and U+00A0, and the other code points of Unicode's White_Space
   property.
   */
  predicate IsSpace(c: char)
  {
    c == '\t' || c == '\n' || c == '\U{000B}' || c == '\U{000C}' || c == '\r' || c == ' ' ||
    c == '\U{0085}' || c == '\U{00A0}' || c == '\U{1680}' ||
    ('\U{2000}' <= c <= '\U{200A}') ||
    c == '\U{2028}' || c == '\U{2029}' || c == '\U{202F}' || c == '\U{205F}' || c == '\U{3000}'
  }

  /** Every character of `s` is white space. */
  predicate AllSpace(s: string)
  {
    forall k :: 0 <= k < |s| ==> IsSpace(s[k])
  }

  /** The number of white-space characters `s` starts with. */
  function LeadingSpace(s: string): (n: nat)
    ensures n <= |s| && AllSpace(s[..n])
    ensures n < |s| ==> !IsSpace(s[n])
  {
    if s == [] || !IsSpace(s[0]) then 0
    else
      var n := 1 + LeadingSpace(s[1..]);
      assert forall k :: 1 <= k < n ==> s[..n][k] == s[1..][..n - 1][k - 1];
      n
  }

  /** The length of `s` without the white space it ends with. */
  function TrailingStart(s: string): (n: nat)
    ensures n <= |s| && AllSpace(s[n..])
    ensures n > 0 ==> !IsSpace(s[n - 1])
  {
    if s == [] || !IsSpace(s[|s| - 1]) then |s|
    else
      var n := TrailingStart(s[..|s| - 1]);
      assert forall k :: n <= k < |s| - 1 ==> s[k] == s[..|s| - 1][k];
      n
  }

  /** `r` is `s` with all leading and trailing white space removed, and nothing else. */
  ghost predicate TrimmedOf(s: string, r: string)
  {
    && (r == [] || (!IsSpace(r[0]) && !IsSpace(r[|r| - 1])))
    && exists i :: 0 <= i <= |s| - |r| && s[i..i + |r|] == r && AllSpace(s[..i]) && AllSpace(s[i + |r|..])
  }

  /** `strings.TrimSpace(s)`. */
  function TrimSpace(s: string): (r: string)
    ensures TrimmedOf(s, r)
    ensures |r| <= |s|
  {
    var i := LeadingSpace(s);
    var rest := s[i..];
    var r := rest[..TrailingStart(rest)];
    assert s[i..i + |r|] == r;
    assert s[i + |r|..] == rest[TrailingStart(rest)..];
    r
  }

  /** A cut that leaves only white space before a non-space character is at `LeadingSpace`. */
  lemma {:induction false} CutAtLeading(s: string, i: nat)
    requires i < |s| && AllSpace(s[..i]) && !IsSpace(s[i])
    ensures i == LeadingSpace(s)
  {
    if i > 0 {
      assert s[..i][0] == s[0];
      assert s[1..][..i - 1] == s[..i][1..];
      CutAtLeading(s[1..], i - 1);
    }
  }

  /** A cut that leaves only white space after a non-space character is at `TrailingStart`. */
  lemma {:induction false} CutAtTrailing(s: string, e: nat)
    requires 0 < e <= |s| && AllSpace(s[e..]) && !IsSpace(s[e - 1])
    ensures e == TrailingStart(s)
  {
    if e < |s| {
      var t := s[..|s| - 1];
      assert s[e..][|s| - 1 - e] == s[|s| - 1];
      assert forall k :: 0 <= k < |t| - e ==> t[e..][k] == s[e..][k];
      assert t[e - 1] == s[e - 1];
      CutAtTrailing(t, e);
    }
  }

  /** An all-space string has no leading part to keep. */
  lemma {:induction false} AllSpaceLeading(s: string)
    requires AllSpace(s)
    ensures LeadingSpace(s) == |s|
  {
    if s != [] {
      assert s[0] == s[0];
      AllSpaceLeading(s[1..]);
    }
  }

  /**
   `TrimSpace` is the only trimming of `s`: any string obtained by removing
   white space from both ends, and starting and ending with something else,
   is `TrimSpace(s)`.
   */
  lemma TrimSpaceUnique(s: string, r: string)
    requires TrimmedOf(s, r)
    ensures r == TrimSpace(s)
  {
    var i :| 0 <= i <= |s| - |r| && s[i..i + |r|] == r && AllSpace(s[..i]) && AllSpace(s[i + |r|..]);
    if r == [] {
      AllSpaceSplit(s, i);
      AllSpaceLeading(s);
    } else {
      assert s[i] == r[0];
      CutAtLeading(s, i);
      var rest := s[i..];
      assert rest[|r|..] == s[i + |r|..];
      assert rest[|r| - 1] == r[|r| - 1];
      CutAtTrailing(rest, |r|);
      assert r == rest[..|r|];
    }
  }

  /** A string split into two all-space parts is all space. */
  lemma AllSpaceSplit(s: string, i: nat)
    requires i <= |s| && AllSpace(s[..i]) && AllSpace(s[i..])
    ensures AllSpace(s)
  {
    forall k | 0 <= k < |s|
      ensures IsSpace(s[k])
    {
      if k < i { assert s[..i][k] == s[k]; } else { assert s[i..][k - i] == s[k]; }
    }
  }

  /** Trimming is idempotent. */
  lemma TrimSpaceIdempotent(s: string)
    ensures TrimSpace(TrimSpace(s)) == TrimSpace(s)
  {
    var t := TrimSpace(s);
    assert t[0..0 + |t|] == t && t[..0] == [] && t[|t|..] == [];
    assert TrimmedOf(t, t);
    TrimSpaceUnique(t, t);
  }
}
