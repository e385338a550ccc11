/** String trimming and searching as the source's string methods do them. */
module Text {
  import opened Collections

  type CharClass = char -> bool

  type Byte = b: int | 0 <= b < 256

  const UPPERCASE := "ABCDEFGHIJKLMNOPQRSTUVWXYZ"

  const LOWERCASE := "abcdefghijklmnopqrstuvwxyz"

  const DIGITS := "0123456789"

  lemma LetterIs(v: int)
    requires 0 <= v < 26
    ensures |UPPERCASE| == |LOWERCASE| == 26
    ensures UPPERCASE[v] == 'A' + v as char && LOWERCASE[v] == 'a' + v as char
  {
  }

  lemma DecimalIs(v: int)
    requires 0 <= v < 10
    ensures |DIGITS| == 10 && DIGITS[v] == '0' + v as char
  {
  }

  lemma UpperListed(c: char)
    ensures c in UPPERCASE <==> 'A' <= c <= 'Z'
  {
    if c in UPPERCASE {
      var i :| 0 <= i < |UPPERCASE| && UPPERCASE[i] == c;
      LetterIs(i);
    }
    if 'A' <= c <= 'Z' {
      LetterIs((c - 'A') as int);
      assert UPPERCASE[(c - 'A') as int] == c;
    }
  }

  lemma LowerListed(c: char)
    ensures c in LOWERCASE <==> 'a' <= c <= 'z'
  {
    if c in LOWERCASE {
      var i :| 0 <= i < |LOWERCASE| && LOWERCASE[i] == c;
      LetterIs(i);
    }
    if 'a' <= c <= 'z' {
      LetterIs((c - 'a') as int);
      assert LOWERCASE[(c - 'a') as int] == c;
    }
  }

  lemma DecimalListed(c: char)
    ensures c in DIGITS <==> '0' <= c <= '9'
  {
    if c in DIGITS {
      var i :| 0 <= i < |DIGITS| && DIGITS[i] == c;
      DecimalIs(i);
    }
    if '0' <= c <= '9' {
      DecimalIs((c - '0') as int);
      assert DIGITS[(c - '0') as int] == c;
    }
  }

  /** Upper-casing of ASCII letters. */
  function UpperChar(c: char): char {
    if 'a' <= c <= 'z' then c - 'a' + 'A' else c
  }

  function Upper(s: string): string {
    seq(|s|, i requires 0 <= i < |s| => UpperChar(s[i]))
  }

  /** The characters that a plain strip removes. */
  predicate IsSpace(c: char) {
    var n := c as int;
    || 9 <= n <= 13 || 28 <= n <= 32 || n == 0x85 || n == 0xA0 || n == 0x1680
    || 0x2000 <= n <= 0x200A || n == 0x2028 || n == 0x2029 || n == 0x202F || n == 0x205F || n == 0x3000
  }

  function StripLeft(s: string, p: CharClass): string {
    if s != [] && p(s[0]) then StripLeft(s[1..], p) else s
  }

  function StripRight(s: string, p: CharClass): string {
    if s != [] && p(Last(s)) then StripRight(Init(s), p) else s
  }

  function Strip(s: string, p: CharClass): string {
    StripRight(StripLeft(s, p), p)
  }

  /** Neither end of s is in the class. */
  ghost predicate Trimmed(s: string, p: CharClass) {
    s != [] ==> !p(s[0]) && !p(Last(s))
  }

  lemma {:induction false} StripLeftIs(s: string, p: CharClass) returns (k: nat)
    ensures k <= |s| && StripLeft(s, p) == s[k..]
    ensures forall i | 0 <= i < k :: p(s[i])
    ensures k < |s| ==> !p(s[k])
  {
    if s != [] && p(s[0]) {
      var n := StripLeftIs(s[1..], p);
      k := n + 1;
      assert s[1..][n..] == s[k..];
      forall i | 0 <= i < k ensures p(s[i]) { if i > 0 { assert s[i] == s[1..][i - 1]; } }
    } else {
      k := 0;
    }
  }

  lemma {:induction false} StripRightIs(s: string, p: CharClass) returns (k: nat)
    ensures k <= |s| && StripRight(s, p) == s[..k]
    ensures forall i | k <= i < |s| :: p(s[i])
    ensures k > 0 ==> !p(s[k - 1])
  {
    if s != [] && p(Last(s)) {
      k := StripRightIs(Init(s), p);
      assert Init(s)[..k] == s[..k];
      forall i | k <= i < |s| ensures p(s[i]) { if i < |s| - 1 { assert s[i] == Init(s)[i]; } }
    } else {
      k := |s|;
    }
  }

  /** What strip leaves is trimmed and is what lies between two runs of the class. */
  lemma StripIs(s: string, p: CharClass) returns (i: nat, j: nat)
    ensures i <= j <= |s| && Strip(s, p) == s[i..j] && Trimmed(s[i..j], p)
    ensures forall k | 0 <= k < |s| && !(i <= k < j) :: p(s[k])
  {
    i := StripLeftIs(s, p);
    var rest := s[i..];
    var n := StripRightIs(rest, p);
    j := i + n;
    assert rest[..n] == s[i..j];
    forall k | j <= k < |s| ensures p(s[k]) { assert s[k] == rest[k - i]; }
    if n > 0 {
      assert rest[0] == s[i] && Last(s[i..j]) == rest[n - 1];
    }
  }

  lemma StripTrimmed(s: string, p: CharClass)
    requires Trimmed(s, p)
    ensures StripLeft(s, p) == s && StripRight(s, p) == s && Strip(s, p) == s
  {
  }

  /** The characters a plain strip removes, by code point. */
  lemma BlanksAre(c: char)
    ensures IsSpace(c) <==> (c as int in
      {0x9, 0xA, 0xB, 0xC, 0xD, 0x1C, 0x1D, 0x1E, 0x1F, 0x20, 0x85, 0xA0, 0x1680, 0x2000, 0x2001, 0x2002, 0x2003, 0x2004,
       0x2005, 0x2006, 0x2007, 0x2008, 0x2009, 0x200A, 0x2028, 0x2029, 0x202F, 0x205F, 0x3000})
  {
  }
}
