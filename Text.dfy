/**
 * The two string operations the command router and the analysis cascade
 * rely on: Python's `str.capitalize` restricted to ASCII, and the substring
 * test of Python's `in` operator on strings.
 */
module Text {

  predicate IsUpper(c: char) { 'A' <= c <= 'Z' }

  predicate IsLower(c: char) { 'a' <= c <= 'z' }

  /** ASCII upper-casing: changes exactly the lower-case letters. */
  function ToUpper(c: char): (u: char)
    ensures !IsLower(u)
    ensures IsLower(c) ==> IsUpper(u)
    ensures u == c <==> !IsLower(c)
  {
    if IsLower(c) then (c as int - 32) as char else c
  }

  /** ASCII lower-casing: changes exactly the upper-case letters. */
  function ToLower(c: char): (l: char)
    ensures !IsUpper(l)
    ensures IsUpper(c) ==> IsLower(l)
    ensures l == c <==> !IsUpper(c)
  {
    if IsUpper(c) then (c as int + 32) as char else c
  }

  /** Upper-casing keeps the letter: both sides lower-case to the same character. */
  lemma ToUpperKeepsLetter(c: char)
    ensures ToLower(ToUpper(c)) == ToLower(c)
  {
  }

  /** Two characters that lower-case alike and are both not lower-case are equal. */
  lemma SameLetterNotLower(a: char, b: char)
    requires !IsLower(a) && !IsLower(b) && ToLower(a) == ToLower(b)
    ensures a == b
  {
  }

  /** Two characters that lower-case alike and are both not upper-case are equal. */
  lemma SameLetterNotUpper(a: char, b: char)
    requires !IsUpper(a) && !IsUpper(b) && ToLower(a) == ToLower(b)
    ensures a == b
  {
  }

  /** s and t spell the same text up to ASCII letter case. */
  predicate EqualIgnoringCase(s: string, t: string)
  {
    |s| == |t| && forall i :: 0 <= i < |s| ==> ToLower(s[i]) == ToLower(t[i])
  }

  /** The shape `capitalize` produces: the first character is not a lower-case letter, no later one is upper-case. */
  predicate IsCapitalized(s: string)
  {
    (|s| > 0 ==> !IsLower(s[0])) && forall i :: 1 <= i < |s| ==> !IsUpper(s[i])
  }

  /**
   * Python's `str.capitalize` on ASCII text: the first character upper-cased,
   * every other character lower-cased. The result is capitalized and equal
   * to the input up to case, which determines it (CapitalizeUnique).
   */
  function Capitalize(s: string): (r: string)
    ensures |r| == |s|
    ensures IsCapitalized(r)
    ensures EqualIgnoringCase(r, s)
  {
    if |s| == 0 then []
    else
      var r := [ToUpper(s[0])] + seq(|s| - 1, i requires 0 <= i < |s| - 1 => ToLower(s[i + 1]));
      assert ToLower(r[0]) == ToLower(s[0]) by { ToUpperKeepsLetter(s[0]); }
      r
  }

  /** The capitalized string equal to s up to case is unique. */
  lemma CapitalizeUnique(s: string, t: string)
    requires IsCapitalized(t) && EqualIgnoringCase(t, s)
    ensures t == Capitalize(s)
  {
    var r := Capitalize(s);
    forall i | 0 <= i < |t|
      ensures t[i] == r[i]
    {
      assert ToLower(t[i]) == ToLower(r[i]);
      if i == 0 {
        SameLetterNotLower(t[i], r[i]);
      } else {
        SameLetterNotUpper(t[i], r[i]);
      }
    }
  }

  /** Capitalizing twice is capitalizing once. */
  lemma CapitalizeIdempotent(s: string)
    ensures Capitalize(Capitalize(s)) == Capitalize(s)
  {
    CapitalizeUnique(Capitalize(s), Capitalize(s));
  }

  /** A string is left unchanged by `capitalize` exactly when it already has the capitalized shape. */
  lemma CapitalizeFixedPoints(s: string)
    ensures Capitalize(s) == s <==> IsCapitalized(s)
  {
    if IsCapitalized(s) {
      CapitalizeUnique(s, s);
    }
  }

  /** Two names capitalize to the same string exactly when they differ only in letter case. */
  lemma CapitalizeEqualIff(s: string, t: string)
    ensures Capitalize(s) == Capitalize(t) <==> EqualIgnoringCase(s, t)
  {
    var cs, ct := Capitalize(s), Capitalize(t);
    if cs == ct {
      forall i | 0 <= i < |s|
        ensures ToLower(s[i]) == ToLower(t[i])
      {
        assert ToLower(cs[i]) == ToLower(s[i]);
        assert ToLower(ct[i]) == ToLower(t[i]);
      }
    }
    if EqualIgnoringCase(s, t) {
      assert EqualIgnoringCase(cs, t) by {
        forall i | 0 <= i < |cs|
          ensures ToLower(cs[i]) == ToLower(t[i])
        {
          assert ToLower(cs[i]) == ToLower(s[i]);
        }
      }
      CapitalizeUnique(t, cs);
    }
  }

  /** Sample names. */
  lemma CapitalizeExamples()
    ensures Capitalize("alice") == "Alice"
    ensures Capitalize("mcDONALD") == "Mcdonald"
    ensures Capitalize("") == ""
  {
    CapitalizeUnique("alice", "Alice");
    CapitalizeUnique("mcDONALD", "Mcdonald");
  }

  /** p occurs in s at position i. */
  predicate OccursAt(p: string, s: string, i: int)
  {
    0 <= i && i + |p| <= |s| && s[i..i + |p|] == p
  }

  /**
   * Python's `p in s` on strings: whether p occurs in s as a contiguous
   * substring (case-sensitive).
   */
  function Contains(s: string, p: string): (b: bool)
    ensures b <==> exists i :: OccursAt(p, s, i)
    decreases |s|
  {
    if p <= s then
      assert OccursAt(p, s, 0);
      true
    else if |s| == 0 then
      false
    else
      var b := Contains(s[1..], p);
      if b then
        var i :| OccursAt(p, s[1..], i);
        assert OccursAt(p, s, i + 1) by { assert s[i + 1..i + 1 + |p|] == s[1..][i..i + |p|]; }
        true
      else
        assert forall i :: OccursAt(p, s, i) ==> i == 0 || OccursAt(p, s[1..], i - 1) by {
          forall i | OccursAt(p, s, i) && i != 0
            ensures OccursAt(p, s[1..], i - 1)
          {
            assert s[1..][i - 1..i - 1 + |p|] == s[i..i + |p|];
          }
        }
        false
  }
}
