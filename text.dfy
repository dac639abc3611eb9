/**
 * The few `java.lang.String` operations the core relies on, on `seq<char>`:
 * ASCII case folding, `trim().isEmpty()`, `indexOf`/`lastIndexOf` of one
 * character, `endsWith`, `replace("_", "")` and decimal printing of integers.
 */
module Text {

  /** `Character.toLowerCase` restricted to ASCII letters. */
  function LowerChar(c: char): char {
    if 'A' <= c <= 'Z' then (c as int + 32) as char else c
  }

  /** `Character.toUpperCase` restricted to ASCII letters. */
  function UpperChar(c: char): char {
    if 'a' <= c <= 'z' then (c as int - 32) as char else c
  }

  /** `String.toLowerCase()` on ASCII letters. */
  function Lower(s: string): (r: string)
    ensures |r| == |s|
    ensures forall i :: 0 <= i < |s| ==> r[i] == LowerChar(s[i])
  {
    seq(|s|, i requires 0 <= i < |s| => LowerChar(s[i]))
  }

  /** `String.toUpperCase()` on ASCII letters. */
  function Upper(s: string): (r: string)
    ensures |r| == |s|
    ensures forall i :: 0 <= i < |s| ==> r[i] == UpperChar(s[i])
  {
    seq(|s|, i requires 0 <= i < |s| => UpperChar(s[i]))
  }

  /** Lowering twice is lowering once. */
  lemma LowerIdempotent(s: string)
    ensures Lower(Lower(s)) == Lower(s)
  {
  }

  /** `String.equalsIgnoreCase` on ASCII letters. */
  predicate EqualsIgnoreCase(a: string, b: string) {
    Lower(a) == Lower(b)
  }

  /** No lower-case ASCII letter occurs in `s`. */
  predicate NoLowerCase(s: string) {
    forall i :: 0 <= i < |s| ==> !('a' <= s[i] <= 'z')
  }

  /** No upper-case ASCII letter occurs in `s`. */
  predicate NoUpperCase(s: string) {
    forall i :: 0 <= i < |s| ==> !('A' <= s[i] <= 'Z')
  }

  /** Folding to upper case is the identity on a name with no lower-case letter. */
  lemma UpperOfNoLowerCase(s: string)
    requires NoLowerCase(s)
    ensures Upper(s) == s
  {
  }

  /** For names without lower-case letters, case-insensitive equality with an
      upper-cased string is plain equality of the upper-cased string. */
  lemma UpperMatchesIgnoringCase(name: string, s: string)
    requires NoLowerCase(name)
    ensures Upper(s) == name <==> EqualsIgnoreCase(name, s)
  {
    if EqualsIgnoreCase(name, s) {
      forall i | 0 <= i < |s| ensures Upper(s)[i] == name[i] {
        assert Lower(name)[i] == Lower(s)[i];
      }
    }
    if Upper(s) == name {
      forall i | 0 <= i < |s| ensures Lower(name)[i] == Lower(s)[i] {
        assert UpperChar(s[i]) == name[i];
      }
    }
  }

  /** Java's `trim()` strips every character up to U+0020 from both ends. */
  predicate Trimmable(c: char) {
    c <= ' '
  }

  /** How many characters `trim()` strips from the front. */
  function LeadingBlanks(s: string): (k: nat)
    ensures k <= |s| && (k < |s| ==> !Trimmable(s[k]))
    ensures forall i :: 0 <= i < k ==> Trimmable(s[i])
  {
    if s != [] && Trimmable(s[0]) then
      var k := LeadingBlanks(s[1..]);
      assert forall i :: 1 <= i < k + 1 ==> s[i] == s[1..][i - 1];
      k + 1
    else 0
  }

  /** How many characters `trim()` strips from the back. */
  function TrailingBlanks(s: string): (k: nat)
    ensures k <= |s| && (k < |s| ==> !Trimmable(s[|s| - k - 1]))
    ensures forall i :: |s| - k <= i < |s| ==> Trimmable(s[i])
  {
    if s != [] && Trimmable(s[|s| - 1]) then
      var k := TrailingBlanks(s[..|s| - 1]);
      assert forall i :: |s| - 1 - k <= i < |s| - 1 ==> s[i] == s[..|s| - 1][i];
      k + 1
    else 0
  }

  function TrimStart(s: string): (r: string)
    ensures |r| <= |s| && r == s[|s| - |r|..]
    ensures r != [] ==> !Trimmable(r[0])
    ensures forall i :: 0 <= i < |s| - |r| ==> Trimmable(s[i])
  {
    s[LeadingBlanks(s)..]
  }

  function TrimEnd(s: string): (r: string)
    ensures |r| <= |s| && r == s[..|r|]
    ensures r != [] ==> !Trimmable(r[|r| - 1])
    ensures forall i :: |r| <= i < |s| ==> Trimmable(s[i])
  {
    s[..|s| - TrailingBlanks(s)]
  }

  /** `String.trim()`. */
  function Trim(s: string): string {
    TrimEnd(TrimStart(s))
  }

  /** `s.trim().isEmpty()`: every character is at most U+0020. */
  predicate IsBlank(s: string) {
    forall i :: 0 <= i < |s| ==> Trimmable(s[i])
  }

  /** Trimming leaves nothing exactly when every character is trimmable. */
  lemma TrimEmptyIffBlank(s: string)
    ensures Trim(s) == [] <==> IsBlank(s)
  {
    var t := TrimStart(s);
    if Trim(s) == [] {
      assert |t| == 0;
    }
  }

  /** `s.endsWith(suffix)`. */
  predicate EndsWith(s: string, suffix: string) {
    |suffix| <= |s| && s[|s| - |suffix|..] == suffix
  }

  /** `s.indexOf(c)`: the first position of `c`, or -1. */
  function IndexOf(s: string, c: char): (r: int)
    ensures -1 <= r < |s|
    ensures r == -1 <==> c !in s
    ensures r >= 0 ==> s[r] == c && c !in s[..r]
  {
    if |s| == 0 then -1
    else if s[0] == c then 0
    else
      var k := IndexOf(s[1..], c);
      assert s == [s[0]] + s[1..];
      if k == -1 then -1 else k + 1
  }

  /** `s.lastIndexOf(c)`: the last position of `c`, or -1. */
  function LastIndexOf(s: string, c: char): (r: int)
    ensures -1 <= r < |s|
    ensures r == -1 <==> c !in s
    ensures r >= 0 ==> s[r] == c && c !in s[r + 1..]
  {
    if |s| == 0 then -1
    else if s[|s| - 1] == c then |s| - 1
    else
      assert s == s[..|s| - 1] + [s[|s| - 1]];
      LastIndexOf(s[..|s| - 1], c)
  }

  /** A string is the text before position `i`, the character at it, and the text after it. */
  lemma SplitAround(s: string, i: int)
    requires 0 <= i < |s|
    ensures s[..i] + [s[i]] + s[i + 1..] == s
  {
  }

  /** The first position is the one before which `c` does not occur. */
  lemma IndexOfAt(s: string, c: char, i: int)
    requires 0 <= i < |s| && s[i] == c && c !in s[..i]
    ensures IndexOf(s, c) == i
  {
  }

  /** The last position is the one after which `c` no longer occurs. */
  lemma LastIndexOfAt(s: string, c: char, i: int)
    requires 0 <= i < |s| && s[i] == c && c !in s[i + 1..]
    ensures LastIndexOf(s, c) == i
  {
  }

  /** `s.replace(String.valueOf(c), "")`: every occurrence of `c` removed. */
  function RemoveAll(s: string, c: char): string {
    RemoveAllFrom(s, c, 0)
  }

  /** The characters of `s[i..]` other than `c`, in order. */
  function RemoveAllFrom(s: string, c: char, i: nat): string
    requires i <= |s|
    decreases |s| - i
  {
    if i == |s| then []
    else if s[i] == c then RemoveAllFrom(s, c, i + 1)
    else [s[i]] + RemoveAllFrom(s, c, i + 1)
  }

  lemma {:induction false} RemoveAllFromAbsent(s: string, c: char, i: nat)
    requires i <= |s| && c !in s[i..]
    ensures RemoveAllFrom(s, c, i) == s[i..]
    decreases |s| - i
  {
    if i < |s| {
      assert s[i] in s[i..];
      assert s[i + 1..] == s[i..][1..];
      RemoveAllFromAbsent(s, c, i + 1);
      assert s[i..] == [s[i]] + s[i + 1..];
    }
  }

  /** Removing a character that does not occur changes nothing. */
  lemma RemoveAllAbsent(s: string, c: char)
    requires c !in s
    ensures RemoveAll(s, c) == s
  {
    RemoveAllFromAbsent(s, c, 0);
  }

  /** For a name without `c`, removing `c` before or after lowering changes nothing. */
  lemma LowerWithoutUnderscore(name: string)
    requires '_' !in name
    ensures RemoveAll(name, '_') == name
    ensures RemoveAll(Lower(name), '_') == Lower(name)
  {
    RemoveAllAbsent(name, '_');
    assert '_' !in Lower(name) by {
      forall i | 0 <= i < |name| ensures Lower(name)[i] != '_' {
        assert name[i] != '_';
      }
    }
    RemoveAllAbsent(Lower(name), '_');
  }

  function DigitChar(d: nat): (c: char)
    requires d < 10
    ensures '0' <= c <= '9'
  {
    ('0' as int + d) as char
  }

  /** `Integer.toString(n)` for `n >= 0`: decimal digits, no leading zero. */
  function NatToString(n: nat): (r: string)
    ensures |r| > 0
    ensures forall i :: 0 <= i < |r| ==> '0' <= r[i] <= '9'
    decreases n
  {
    if n < 10 then [DigitChar(n)] else NatToString(n / 10) + [DigitChar(n % 10)]
  }

  /** `Integer.toString(n)` for any `int`: a minus sign before negative numbers. */
  function IntToString(n: int): (r: string)
    ensures |r| > 0
  {
    if n < 0 then "-" + NatToString(-n) else NatToString(n)
  }

  /** Reads a decimal numeral; the inverse of `NatToString`. */
  function ParseNat(s: string): nat
    requires forall i :: 0 <= i < |s| ==> '0' <= s[i] <= '9'
  {
    if s == [] then 0
    else ParseNat(s[..|s| - 1]) * 10 + (s[|s| - 1] as int - '0' as int)
  }

  lemma {:induction false} ParseNatToString(n: nat)
    ensures ParseNat(NatToString(n)) == n
    decreases n
  {
    if n >= 10 {
      var r := NatToString(n);
      assert r[..|r| - 1] == NatToString(n / 10);
      ParseNatToString(n / 10);
    }
  }

  /** Equal strings with equal ends have equal middles. */
  lemma Cancel(p: string, a: string, b: string, q: string)
    requires p + a + q == p + b + q
    ensures a == b
  {
    assert |a| == |b|;
    assert a == (p + a + q)[|p|..|p| + |a|];
    assert b == (p + b + q)[|p|..|p| + |b|];
  }

  /** Distinct numbers print differently. */
  lemma NatToStringInjective(m: nat, n: nat)
    requires NatToString(m) == NatToString(n)
    ensures m == n
  {
    ParseNatToString(m);
    ParseNatToString(n);
  }

  /** A printed integer starts with a minus sign exactly when it is negative. */
  lemma IntToStringSign(n: int)
    ensures IntToString(n)[0] == '-' <==> n < 0
  {
  }

  /** Distinct integers print differently. */
  lemma IntToStringInjective(m: int, n: int)
    requires IntToString(m) == IntToString(n)
    ensures m == n
  {
    IntToStringSign(m);
    IntToStringSign(n);
    if m < 0 && n < 0 {
      assert NatToString(-m) == IntToString(m)[1..];
      NatToStringInjective(-m, -n);
    } else if m >= 0 && n >= 0 {
      NatToStringInjective(m, n);
    }
  }
}
