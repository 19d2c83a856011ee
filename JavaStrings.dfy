/**
 * The java.lang.String operations the overlay and the command rely on:
 * trim(), toLowerCase(), toUpperCase() and equalsIgnoreCase().
 * Case mapping is modelled for ASCII letters only (see README).
 */
module JavaStrings {

  /** String.trim() removes every leading and trailing char whose code is at most U+0020. */
  predicate IsTrimSpace(c: char) {
    c <= ' '
  }

  predicate IsTrimmed(s: string) {
    s == [] || (!IsTrimSpace(s[0]) && !IsTrimSpace(s[|s| - 1]))
  }

  function TrimLeading(s: string): string {
    if s != [] && IsTrimSpace(s[0]) then TrimLeading(s[1..]) else s
  }

  function TrimTrailing(s: string): string {
    if s != [] && IsTrimSpace(s[|s| - 1]) then TrimTrailing(s[..|s| - 1]) else s
  }

  /** TrimLeading drops exactly the longest prefix of trim spaces. */
  lemma {:induction false} TrimLeadingDropsSpacePrefix(s: string)
    ensures |TrimLeading(s)| <= |s|
    ensures TrimLeading(s) == s[|s| - |TrimLeading(s)|..]
    ensures forall k :: 0 <= k < |s| - |TrimLeading(s)| ==> IsTrimSpace(s[k])
    ensures TrimLeading(s) != [] ==> !IsTrimSpace(TrimLeading(s)[0])
  {
    if s != [] && IsTrimSpace(s[0]) {
      var t := s[1..];
      TrimLeadingDropsSpacePrefix(t);
      assert TrimLeading(s) == TrimLeading(t);
      forall k | 1 <= k < |s| - |TrimLeading(s)|
        ensures IsTrimSpace(s[k])
      {
        assert s[k] == t[k - 1];
      }
    }
  }

  /** TrimTrailing drops exactly the longest suffix of trim spaces. */
  lemma {:induction false} TrimTrailingDropsSpaceSuffix(s: string)
    ensures |TrimTrailing(s)| <= |s|
    ensures TrimTrailing(s) == s[..|TrimTrailing(s)|]
    ensures forall k :: |TrimTrailing(s)| <= k < |s| ==> IsTrimSpace(s[k])
    ensures TrimTrailing(s) != [] ==> !IsTrimSpace(TrimTrailing(s)[|TrimTrailing(s)| - 1])
  {
    if s != [] && IsTrimSpace(s[|s| - 1]) {
      var t := s[..|s| - 1];
      TrimTrailingDropsSpaceSuffix(t);
      assert TrimTrailing(s) == TrimTrailing(t);
      forall k | |TrimTrailing(s)| <= k < |s| - 1
        ensures IsTrimSpace(s[k])
      {
        assert s[k] == t[k];
      }
    }
  }

  /** String.trim(): the input with its blank ends cut off. */
  function Trim(s: string): (r: string)
    ensures IsTrimmed(r)
    ensures exists i, j ::
      && 0 <= i <= j <= |s| && r == s[i..j]
      && (forall k :: 0 <= k < i ==> IsTrimSpace(s[k]))
      && (forall k :: j <= k < |s| ==> IsTrimSpace(s[k]))
  {
    var lead := TrimLeading(s);
    TrimLeadingDropsSpacePrefix(s);
    TrimTrailingDropsSpaceSuffix(lead);
    var r := TrimTrailing(lead);
    assert r != [] ==> r[0] == lead[0];
    var i := |s| - |lead|;
    var j := i + |r|;
    assert r == s[i..j];
    assert forall k :: j <= k < |s| ==> s[k] == lead[k - i];
    r
  }

  lemma {:induction false} TrimOfTrimmed(s: string)
    requires IsTrimmed(s)
    ensures Trim(s) == s
  {
    if s != [] {
      assert TrimLeading(s) == s;
      assert TrimTrailing(s) == s;
    }
  }

  /** Character.toLowerCase / toUpperCase restricted to the ASCII letters. */
  function ToLowerChar(c: char): char {
    if 'A' <= c <= 'Z' then (c as int + 32) as char else c
  }

  function ToUpperChar(c: char): char {
    if 'a' <= c <= 'z' then (c as int - 32) as char else c
  }

  /** String.toLowerCase(), char by char. */
  function ToLowerCase(s: string): string {
    seq(|s|, i requires 0 <= i < |s| => ToLowerChar(s[i]))
  }

  /** String.toUpperCase(), char by char. */
  function ToUpperCase(s: string): string {
    seq(|s|, i requires 0 <= i < |s| => ToUpperChar(s[i]))
  }

  /** The per-char test of String.regionMatches(ignoreCase = true), used by equalsIgnoreCase. */
  predicate CharsEqualIgnoringCase(c1: char, c2: char) {
    || c1 == c2
    || ToUpperChar(c1) == ToUpperChar(c2)
    || ToLowerChar(ToUpperChar(c1)) == ToLowerChar(ToUpperChar(c2))
  }

  /** String.equalsIgnoreCase on non-null strings. */
  predicate EqualsIgnoreCase(a: string, b: string) {
    |a| == |b| && forall i :: 0 <= i < |a| ==> CharsEqualIgnoringCase(a[i], b[i])
  }

  lemma CharsEqualIgnoringCaseIsLowerEquality(c1: char, c2: char)
    ensures CharsEqualIgnoringCase(c1, c2) <==> ToLowerChar(c1) == ToLowerChar(c2)
  {
  }

  /** Ignoring case means: the two strings have the same lower-case form. */
  lemma {:induction false} EqualsIgnoreCaseIsLowerEquality(a: string, b: string)
    ensures EqualsIgnoreCase(a, b) <==> ToLowerCase(a) == ToLowerCase(b)
  {
    if EqualsIgnoreCase(a, b) {
      forall i | 0 <= i < |a| ensures ToLowerCase(a)[i] == ToLowerCase(b)[i] {
        CharsEqualIgnoringCaseIsLowerEquality(a[i], b[i]);
      }
    }
    if ToLowerCase(a) == ToLowerCase(b) {
      forall i | 0 <= i < |a| ensures CharsEqualIgnoringCase(a[i], b[i]) {
        assert ToLowerCase(a)[i] == ToLowerCase(b)[i];
        CharsEqualIgnoringCaseIsLowerEquality(a[i], b[i]);
      }
    }
  }

  /** Upper-casing forgets a previous lower-casing. */
  lemma {:induction false} UpperOfLower(s: string)
    ensures ToUpperCase(ToLowerCase(s)) == ToUpperCase(s)
  {
    var l := ToLowerCase(s);
    assert forall i :: 0 <= i < |s| ==> ToUpperCase(l)[i] == ToUpperChar(ToLowerChar(s[i]));
  }

  /** Lower-casing forgets a previous upper-casing. */
  lemma {:induction false} LowerOfUpper(s: string)
    ensures ToLowerCase(ToUpperCase(s)) == ToLowerCase(s)
  {
    var u := ToUpperCase(s);
    assert forall i :: 0 <= i < |s| ==> ToLowerCase(u)[i] == ToLowerChar(ToUpperChar(s[i]));
  }

  /** Case mapping never turns a trim space into a letter or back, so it keeps a string trimmed. */
  lemma {:induction false} CaseMappingKeepsTrimmed(s: string)
    ensures IsTrimmed(ToLowerCase(s)) <==> IsTrimmed(s)
    ensures IsTrimmed(ToUpperCase(s)) <==> IsTrimmed(s)
  {
    if s != [] {
      var l, u := ToLowerCase(s), ToUpperCase(s);
      assert l[0] == ToLowerChar(s[0]) && l[|s| - 1] == ToLowerChar(s[|s| - 1]);
      assert u[0] == ToUpperChar(s[0]) && u[|s| - 1] == ToUpperChar(s[|s| - 1]);
    }
  }

  /** Evaluates ToUpperCase on a given string, char by char. */
  lemma UpperCaseIs(s: string, t: string)
    requires |s| == |t| && forall i :: 0 <= i < |s| ==> ToUpperChar(s[i]) == t[i]
    ensures ToUpperCase(s) == t
  {
  }

  /** Evaluates ToLowerCase on a given string, char by char. */
  lemma LowerCaseIs(s: string, t: string)
    requires |s| == |t| && forall i :: 0 <= i < |s| ==> ToLowerChar(s[i]) == t[i]
    ensures ToLowerCase(s) == t
  {
  }
}
