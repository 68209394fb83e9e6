/**
 * Character classes and Python's `str.strip()` with no argument.
 *
 * `IsSpace` is the single whitespace test used both for the regex class `\s`
 * and for `strip`; it is `str.isspace` restricted to ASCII.
 */
module Text {

  /** `str.isspace` on ASCII: space, \t \n \v \f \r (9..13) and the separators 28..31. */
  predicate IsSpace(c: char) {
    c == ' ' || (9 <= c as int <= 13) || (28 <= c as int <= 31)
  }

  /** The regex class `\d`, restricted to ASCII. */
  predicate IsDigit(c: char) {
    '0' <= c <= '9'
  }

  /** `s[a..a + |r|]` is `r`. */
  predicate InfixAt(r: string, s: string, a: nat) {
    a + |r| <= |s| && s[a..a + |r|] == r
  }

  /** `str.lstrip()`. */
  function TrimStart(s: string): string {
    if s != [] && IsSpace(s[0]) then TrimStart(s[1..]) else s
  }

  /** `str.rstrip()`. */
  function TrimEnd(s: string): string {
    if s != [] && IsSpace(s[|s| - 1]) then TrimEnd(s[..|s| - 1]) else s
  }

  /** `str.strip()`: `s` with its leading and trailing whitespace removed. */
  function Strip(s: string): string {
    TrimEnd(TrimStart(s))
  }

  /** `lstrip` removes the longest all-whitespace prefix: what is left does not start with whitespace. */
  lemma {:induction false} TrimStartSpec(s: string)
    ensures |TrimStart(s)| <= |s| && TrimStart(s) == s[|s| - |TrimStart(s)|..]
    ensures forall i :: 0 <= i < |s| - |TrimStart(s)| ==> IsSpace(s[i])
    ensures TrimStart(s) == [] || !IsSpace(TrimStart(s)[0])
  {
    if s != [] && IsSpace(s[0]) {
      var u := s[1..];
      TrimStartSpec(u);
      var r := TrimStart(u);
      assert TrimStart(s) == r;
      assert u[|u| - |r|..] == s[|s| - |r|..];
      forall i | 0 <= i < |s| - |r| ensures IsSpace(s[i]) {
        if i > 0 {
          assert s[i] == u[i - 1];
        }
      }
    }
  }

  /** `rstrip` removes the longest all-whitespace suffix: what is left does not end with whitespace. */
  lemma {:induction false} TrimEndSpec(s: string)
    ensures |TrimEnd(s)| <= |s| && TrimEnd(s) == s[..|TrimEnd(s)|]
    ensures forall i :: |TrimEnd(s)| <= i < |s| ==> IsSpace(s[i])
    ensures TrimEnd(s) == [] || !IsSpace(TrimEnd(s)[|TrimEnd(s)| - 1])
  {
    if s != [] && IsSpace(s[|s| - 1]) {
      var u := s[..|s| - 1];
      TrimEndSpec(u);
      var r := TrimEnd(u);
      assert TrimEnd(s) == r;
      assert u[..|r|] == s[..|r|];
      forall i | |r| <= i < |s| ensures IsSpace(s[i]) {
        if i < |u| {
          assert s[i] == u[i];
        }
      }
    }
  }

  /**
   * `strip` keeps the infix of `s` that starts after the leading whitespace; what lies
   * outside it is whitespace, and it neither starts nor ends with whitespace.
   */
  lemma StripSpec(s: string)
    ensures |TrimStart(s)| <= |s|
    ensures InfixAt(Strip(s), s, |s| - |TrimStart(s)|)
    ensures forall i :: 0 <= i < |s| - |TrimStart(s)| ==> IsSpace(s[i])
    ensures forall i :: |s| - |TrimStart(s)| + |Strip(s)| <= i < |s| ==> IsSpace(s[i])
    ensures Strip(s) == [] || (!IsSpace(Strip(s)[0]) && !IsSpace(Strip(s)[|Strip(s)| - 1]))
  {
    var u := TrimStart(s);
    TrimStartSpec(s);
    TrimEndSpec(u);
    InfixOfSuffix(s, u, TrimEnd(u));
  }

  /** A prefix `r` of a suffix `u` of `s` sits in `s` where `u` starts; what follows it in `s` follows it in `u`. */
  lemma InfixOfSuffix(s: string, u: string, r: string)
    requires |u| <= |s| && u == s[|s| - |u|..]
    requires |r| <= |u| && r == u[..|r|]
    requires forall i :: |r| <= i < |u| ==> IsSpace(u[i])
    ensures InfixAt(r, s, |s| - |u|)
    ensures forall i :: |s| - |u| + |r| <= i < |s| ==> IsSpace(s[i])
  {
    var a := |s| - |u|;
    forall i | a + |r| <= i < |s| ensures IsSpace(s[i]) {
      assert s[i] == u[i - a];
    }
  }

  /** Stripping twice is stripping once. */
  lemma {:induction false} StripIdempotent(s: string)
    ensures Strip(Strip(s)) == Strip(s)
  {
    var r := Strip(s);
    StripSpec(s);
    assert TrimStart(r) == r by {
      if r != [] { assert !IsSpace(r[0]); }
    }
    assert TrimEnd(r) == r by {
      if r != [] { assert !IsSpace(r[|r| - 1]); }
    }
  }

  /** Every character of `Strip(s)` is a character of `s`, at the same place. */
  lemma StripChars(s: string, c: char)
    requires c in Strip(s)
    ensures c in s
  {
    var r := Strip(s);
    StripSpec(s);
    var a := |s| - |TrimStart(s)|;
    var k :| 0 <= k < |r| && r[k] == c;
    assert s[a + k] == c;
  }

  /** `strip()` leaves a string alone exactly when it has no surrounding whitespace. */
  lemma StripFixedPoint(s: string)
    ensures Strip(s) == s <==> (s == [] || (!IsSpace(s[0]) && !IsSpace(s[|s| - 1])))
  {
    StripSpec(s);
    if s != [] && !IsSpace(s[0]) && !IsSpace(s[|s| - 1]) {
      assert TrimStart(s) == s;
      assert TrimEnd(s) == s;
    }
  }
}
