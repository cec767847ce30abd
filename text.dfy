/**
  The JavaScript string built-ins the core relies on: `toLowerCase`, `toUpperCase`,
  `includes` and `trim`. Case mapping is restricted to the ASCII letters; every other
  character is left as it is.
 */
module Text {

  predicate IsAsciiUpper(c: char) { 'A' <= c <= 'Z' }

  predicate IsAsciiLower(c: char) { 'a' <= c <= 'z' }

  function LowerChar(c: char): char
  {
    if IsAsciiUpper(c) then (c as int + 32) as char else c
  }

  function UpperChar(c: char): char
  {
    if IsAsciiLower(c) then (c as int - 32) as char else c
  }

  /** `s.toLowerCase()`: every character mapped on its own, no upper-case letter left. */
  function Lower(s: string): (r: string)
    ensures |r| == |s|
    ensures forall i :: 0 <= i < |s| ==> r[i] == LowerChar(s[i])
    ensures forall i :: 0 <= i < |r| ==> !IsAsciiUpper(r[i])
  {
    if s == [] then [] else [LowerChar(s[0])] + Lower(s[1..])
  }

  /** `s.toUpperCase()`: every character mapped on its own, no lower-case letter left. */
  function Upper(s: string): (r: string)
    ensures |r| == |s|
    ensures forall i :: 0 <= i < |s| ==> r[i] == UpperChar(s[i])
    ensures forall i :: 0 <= i < |r| ==> !IsAsciiLower(r[i])
  {
    if s == [] then [] else [UpperChar(s[0])] + Upper(s[1..])
  }

  lemma LowerIdempotent(s: string)
    ensures Lower(Lower(s)) == Lower(s)
  {
  }

  lemma UpperIdempotent(s: string)
    ensures Upper(Upper(s)) == Upper(s)
  {
  }

  /** Upper-casing loses nothing a case-insensitive comparison can see. */
  lemma LowerOfUpper(s: string)
    ensures Lower(Upper(s)) == Lower(s)
  {
  }

  /** Lower-casing introduces a character only from itself or from its upper-case form. */
  lemma NotInLower(s: string, c: char)
    requires c !in s && UpperChar(c) !in s
    ensures c !in Lower(s)
  {
  }

  /** Two characters that lower-case alike, the second not a lower-case letter: the
      second is the upper-case form of the first. */
  lemma UpperCharUnique(c: char, d: char)
    requires LowerChar(d) == LowerChar(c) && !IsAsciiLower(d)
    ensures d == UpperChar(c)
  {
  }

  /** Two characters that lower-case alike, the second not an upper-case letter: the
      second is the lower-case form of the first. */
  lemma LowerCharUnique(c: char, d: char)
    requires LowerChar(d) == LowerChar(c) && !IsAsciiUpper(d)
    ensures d == LowerChar(c)
  {
  }

  /**
    The one string that is case-insensitively equal to `s` and holds no lower-case
    letter is `Upper(s)`.
   */
  lemma {:induction false} UpperUnique(s: string, t: string)
    requires |t| == |s| && Lower(t) == Lower(s)
    requires forall i :: 0 <= i < |t| ==> !IsAsciiLower(t[i])
    ensures t == Upper(s)
  {
    var u := Upper(s);
    forall i | 0 <= i < |s|
      ensures t[i] == u[i]
    {
      assert Lower(t)[i] == LowerChar(t[i]);
      assert Lower(s)[i] == LowerChar(s[i]);
      UpperCharUnique(s[i], t[i]);
    }
  }

  /** The one string that is case-insensitively equal to `s` and holds no upper-case
      letter is `Lower(s)`. */
  lemma {:induction false} LowerUnique(s: string, t: string)
    requires |t| == |s| && Lower(t) == Lower(s)
    requires forall i :: 0 <= i < |t| ==> !IsAsciiUpper(t[i])
    ensures t == Lower(s)
  {
    var l := Lower(s);
    forall i | 0 <= i < |s|
      ensures t[i] == l[i]
    {
      assert Lower(t)[i] == LowerChar(t[i]);
      assert Lower(s)[i] == LowerChar(s[i]);
      LowerCharUnique(s[i], t[i]);
    }
  }

  // ---------------------------------------------------------------------------
  // includes

  /** `q` occurs in `s` starting at index `i`. */
  predicate OccursAt(s: string, q: string, i: int)
  {
    0 <= i && i + |q| <= |s| && s[i..i + |q|] == q
  }

  /** `s.includes(q)`: tries each start position from the left; the empty query is
      found in every string. */
  function Contains(s: string, q: string): bool
    decreases |s|
  {
    if |q| <= |s| && s[..|q|] == q then true
    else if s == [] then false
    else Contains(s[1..], q)
  }

  lemma {:induction false} ContainsIff(s: string, q: string)
    ensures Contains(s, q) <==> exists i :: OccursAt(s, q, i)
    decreases |s|
  {
    if |q| <= |s| && s[..|q|] == q {
      assert OccursAt(s, q, 0);
    } else if s == [] {
    } else {
      ContainsIff(s[1..], q);
      if Contains(s[1..], q) {
        var i :| OccursAt(s[1..], q, i);
        assert s[1..][i..i + |q|] == s[i + 1..i + 1 + |q|];
        assert OccursAt(s, q, i + 1);
      }
      if exists i :: OccursAt(s, q, i) {
        var i :| OccursAt(s, q, i);
        assert i != 0;
        assert s[1..][i - 1..i - 1 + |q|] == s[i..i + |q|];
        assert OccursAt(s[1..], q, i - 1);
      }
    }
  }

  /** A query holding a character the string does not hold is not found in it. */
  lemma MissingCharNotContained(s: string, q: string, c: char)
    requires c in q && c !in s
    ensures !Contains(s, q)
  {
    var k :| 0 <= k < |q| && q[k] == c;
    forall i | 0 <= i && i + |q| <= |s|
      ensures !OccursAt(s, q, i)
    {
      assert s[i..i + |q|][k] == s[i + k];
    }
    ContainsIff(s, q);
  }

  // ---------------------------------------------------------------------------
  // trim

  /** The ECMAScript WhiteSpace and LineTerminator code points that `trim` removes. */
  predicate IsWhiteSpace(c: char)
  {
    c == '\U{0009}' || c == '\U{000A}' || c == '\U{000B}' || c == '\U{000C}' ||
    c == '\U{000D}' || c == '\U{0020}' || c == '\U{00A0}' || c == '\U{1680}' ||
    ('\U{2000}' <= c <= '\U{200A}') || c == '\U{2028}' || c == '\U{2029}' ||
    c == '\U{202F}' || c == '\U{205F}' || c == '\U{3000}' || c == '\U{FEFF}'
  }

  /** Every character of `s` is white space (the empty string included). */
  predicate IsBlank(s: string)
  {
    forall i :: 0 <= i < |s| ==> IsWhiteSpace(s[i])
  }

  /** Drops the leading white space: the result is a suffix of `s` that does not start
      with white space, and everything dropped was white space. */
  function TrimStart(s: string): (r: string)
    ensures |r| <= |s| && r == s[|s| - |r|..]
    ensures forall i :: 0 <= i < |s| - |r| ==> IsWhiteSpace(s[i])
    ensures r != [] ==> !IsWhiteSpace(r[0])
  {
    if s != [] && IsWhiteSpace(s[0]) then TrimStart(s[1..]) else s
  }

  /** Drops the trailing white space: the result is a prefix of `s` that does not end
      with white space, and everything dropped was white space. */
  function TrimEnd(s: string): (r: string)
    ensures |r| <= |s| && r == s[..|r|]
    ensures forall i :: |r| <= i < |s| ==> IsWhiteSpace(s[i])
    ensures r != [] ==> !IsWhiteSpace(r[|r| - 1])
  {
    if s != [] && IsWhiteSpace(s[|s| - 1]) then TrimEnd(s[..|s| - 1]) else s
  }

  /** `s.trim()` */
  function Trim(s: string): string
  {
    TrimEnd(TrimStart(s))
  }

  /** `!s.trim()` holds exactly for the blank strings. */
  lemma TrimEmptyIffBlank(s: string)
    ensures Trim(s) == [] <==> IsBlank(s)
  {
    var t := TrimStart(s);
    if Trim(s) == [] {
      assert t == [];
    } else {
      var r := Trim(s);
      assert r[0] == t[0];
      assert t[0] == s[|s| - |t|];
    }
  }

  lemma TrimIgnoresLeadingWhiteSpace(c: char, s: string)
    requires IsWhiteSpace(c)
    ensures Trim([c] + s) == Trim(s)
  {
    assert ([c] + s)[1..] == s;
  }
}
