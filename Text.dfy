/**
 * String operations the Python code takes from `str`: ASCII case mapping,
 * whitespace trimming, substring tests, joining and decimal rendering of
 * counts.  Case mapping and whitespace cover ASCII only.
 */
module Text {

  function LowerChar(c: char): char {
    if 'A' <= c <= 'Z' then (c as int + 32) as char else c
  }

  function UpperChar(c: char): char {
    if 'a' <= c <= 'z' then (c as int - 32) as char else c
  }

  /** `str.lower()` on ASCII letters. */
  function Lower(s: string): (r: string)
    ensures |r| == |s|
    ensures forall i :: 0 <= i < |s| ==> r[i] == LowerChar(s[i])
  {
    seq(|s|, i requires 0 <= i < |s| => LowerChar(s[i]))
  }

  /** `str.upper()` on ASCII letters. */
  function Upper(s: string): (r: string)
    ensures |r| == |s|
    ensures forall i :: 0 <= i < |s| ==> r[i] == UpperChar(s[i])
  {
    seq(|s|, i requires 0 <= i < |s| => UpperChar(s[i]))
  }

  /** A string on which `Lower` changes nothing. */
  predicate IsLower(s: string) {
    forall i :: 0 <= i < |s| ==> LowerChar(s[i]) == s[i]
  }

  lemma LowerIsLower(s: string)
    ensures IsLower(Lower(s))
  {
    forall i | 0 <= i < |s| ensures LowerChar(Lower(s)[i]) == Lower(s)[i] {
      var c := s[i];
      if 'A' <= c <= 'Z' {
        assert Lower(s)[i] == (c as int + 32) as char;
      }
    }
  }

  lemma LowerOfLower(s: string)
    requires IsLower(s)
    ensures Lower(s) == s
  {
  }

  /** A string on which `Upper` changes nothing. */
  predicate IsUpper(s: string) {
    forall i :: 0 <= i < |s| ==> UpperChar(s[i]) == s[i]
  }

  lemma UpperIsUpper(s: string)
    ensures IsUpper(Upper(s))
  {
    forall i | 0 <= i < |s| ensures UpperChar(Upper(s)[i]) == Upper(s)[i] {
      var c := s[i];
      if 'a' <= c <= 'z' {
        assert Upper(s)[i] == (c as int - 32) as char;
      }
    }
  }

  lemma UpperOfUpper(s: string)
    requires IsUpper(s)
    ensures Upper(s) == s
  {
  }

  /** `s[:n]`: at most the first `n` characters. */
  function Take(s: string, n: nat): (r: string)
    ensures |r| == (if |s| < n then |s| else n) && r == s[..|r|]
  {
    if |s| < n then s else s[..n]
  }

  /** The characters `str.strip()` removes, restricted to ASCII. */
  predicate IsSpace(c: char) {
    c == ' ' || c == '\t' || c == '\n' || c == '\r' || c == 11 as char || c == 12 as char
    || (28 as char <= c <= 31 as char)
  }

  function TrimLeft(s: string): (r: string)
    ensures |r| <= |s| && r == s[|s| - |r|..]
    ensures r != [] ==> !IsSpace(r[0])
    decreases |s|
  {
    if |s| > 0 && IsSpace(s[0]) then TrimLeft(s[1..]) else s
  }

  function TrimRight(s: string): (r: string)
    ensures |r| <= |s| && r == s[..|r|]
    ensures r != [] ==> !IsSpace(r[|r| - 1])
    decreases |s|
  {
    if |s| > 0 && IsSpace(s[|s| - 1]) then TrimRight(s[..|s| - 1]) else s
  }

  /** `str.strip()`: both ends trimmed. */
  function Strip(s: string): string {
    TrimRight(TrimLeft(s))
  }

  lemma {:induction false} TrimLeftNoLeadingSpace(s: string)
    requires s == [] || !IsSpace(s[0])
    ensures TrimLeft(s) == s
  {
  }

  lemma {:induction false} TrimRightNoTrailingSpace(s: string)
    requires s == [] || !IsSpace(s[|s| - 1])
    ensures TrimRight(s) == s
  {
  }

  /** Stripping twice strips nothing more. */
  lemma StripIdempotent(s: string)
    ensures Strip(Strip(s)) == Strip(s)
  {
    var t := TrimLeft(s);
    var u := TrimRight(t);
    assert u == t[..|u|];
    if u != [] {
      assert u[0] == t[0];
    }
    TrimLeftNoLeadingSpace(u);
    TrimRightNoTrailingSpace(u);
  }

  /** Every character of `Strip(s)` is a character of `s`. */
  lemma StripChars(s: string)
    ensures forall i :: 0 <= i < |Strip(s)| ==> Strip(s)[i] in s
  {
    var t := TrimLeft(s);
    var u := TrimRight(t);
    forall i | 0 <= i < |u| ensures u[i] in s {
      assert u[i] == t[i];
      assert t[i] == s[|s| - |t| + i];
    }
  }

  /** `sub in s` for Python strings. */
  predicate Contains(s: string, sub: string)
    decreases |s|
  {
    (|sub| <= |s| && s[..|sub|] == sub) || (|s| > 0 && Contains(s[1..], sub))
  }

  lemma {:induction false} ContainsAt(s: string, sub: string, i: nat)
    requires i + |sub| <= |s| && s[i..i + |sub|] == sub
    ensures Contains(s, sub)
    decreases i
  {
    if i > 0 {
      assert s[1..][i - 1..i - 1 + |sub|] == sub;
      ContainsAt(s[1..], sub, i - 1);
    }
  }

  /** A string contains each piece it was concatenated from. */
  lemma ContainsPiece(a: string, b: string, c: string)
    ensures Contains(a + b + c, b)
  {
    assert (a + b + c)[|a|..|a| + |b|] == b;
    ContainsAt(a + b + c, b, |a|);
  }

  /** A substring test that succeeds points at an occurrence. */
  lemma {:induction false} ContainsWitness(s: string, sub: string) returns (i: nat)
    requires Contains(s, sub)
    ensures i + |sub| <= |s| && s[i..i + |sub|] == sub
    decreases |s|
  {
    if |sub| <= |s| && s[..|sub|] == sub {
      i := 0;
    } else {
      var j := ContainsWitness(s[1..], sub);
      assert s[1..][j..j + |sub|] == s[j + 1..j + 1 + |sub|];
      i := j + 1;
    }
  }

  /** Position of the first occurrence of `x` (`list.index`). */
  function IndexOf(xs: seq<string>, x: string): (i: nat)
    requires x in xs
    ensures i < |xs| && xs[i] == x && x !in xs[..i]
  {
    if xs[0] == x then 0
    else
      var j := IndexOf(xs[1..], x);
      assert xs[1..][..j] == xs[1..j + 1];
      j + 1
  }

  /** `sep.join(parts)`. */
  function Join(parts: seq<string>, sep: string): string
    decreases |parts|
  {
    if |parts| == 0 then ""
    else if |parts| == 1 then parts[0]
    else parts[0] + sep + Join(parts[1..], sep)
  }

  /**
   * Every item equal to `from` becomes `to`; the others stay.  On a string
   * this is `str.replace` for single characters; on a list of headers it is
   * a rename of every column of that name.
   */
  function ReplaceAll<T(==)>(s: seq<T>, from: T, to: T): (r: seq<T>)
    ensures |r| == |s|
    ensures forall i :: 0 <= i < |s| ==> r[i] == (if s[i] == from then to else s[i])
  {
    seq(|s|, i requires 0 <= i < |s| => if s[i] == from then to else s[i])
  }

  function DigitChar(d: nat): char
    requires d < 10
  {
    ('0' as int + d) as char
  }

  /** Decimal rendering of a non-negative integer, as `str(n)` or `f"{n}"`. */
  function NatToString(n: nat): (r: string)
    ensures |r| >= 1
    ensures forall i :: 0 <= i < |r| ==> '0' <= r[i] <= '9'
    ensures n >= 10 ==> r[0] != '0'
    decreases n
  {
    if n < 10 then [DigitChar(n)] else NatToString(n / 10) + [DigitChar(n % 10)]
  }

  /** Decimal rendering of an integer, with a leading '-' when negative. */
  function IntToString(n: int): string {
    if n < 0 then "-" + NatToString(-n) else NatToString(n)
  }

  function Pad3(n: nat): string
    requires n < 1000
  {
    [DigitChar(n / 100), DigitChar(n / 10 % 10), DigitChar(n % 10)]
  }

  /** `f"{n:,}"`: decimal digits in groups of three separated by commas. */
  function Grouped(n: nat): (r: string)
    ensures |r| >= 1
    decreases n
  {
    if n < 1000 then NatToString(n) else Grouped(n / 1000) + "," + Pad3(n % 1000)
  }

  function GroupedInt(n: int): string {
    if n < 0 then "-" + Grouped(-n) else Grouped(n)
  }

  /** Each string lowercased, in order. */
  function LowerAll(xs: seq<string>): (r: seq<string>)
    ensures |r| == |xs| && forall i :: 0 <= i < |xs| ==> r[i] == Lower(xs[i])
  {
    seq(|xs|, i requires 0 <= i < |xs| => Lower(xs[i]))
  }

  /** No string occurs twice. */
  predicate Distinct(xs: seq<string>) {
    forall p, q :: 0 <= p < q < |xs| ==> xs[p] != xs[q]
  }

  /** In a list without repeats, the first occurrence of an item is its only one. */
  lemma IndexOfDistinct(xs: seq<string>, i: nat)
    requires Distinct(xs) && i < |xs|
    ensures IndexOf(xs, xs[i]) == i
  {
  }

  /** Both variable parts of `a + x + b + y + c` occur in it. */
  lemma ContainsBoth(a: string, x: string, b: string, y: string, c: string, s: string)
    requires |s| >= |a + x + b + y| && s[..|a + x + b + y|] == a + x + b + y
    ensures Contains(s, x) && Contains(s, y)
  {
    var n := |a + x + b + y|;
    assert s == a + x + (b + y + s[n..]);
    ContainsPiece(a, x, b + y + s[n..]);
    assert s == (a + x + b) + y + s[n..];
    ContainsPiece(a + x + b, y, s[n..]);
  }

  lemma AppendAssoc<T>(a: seq<T>, b: seq<T>, c: seq<T>)
    ensures a + (b + c) == a + b + c
  {
  }

  /** A concatenation contains its first part. */
  lemma ContainsHead(x: string, y: string, t: string)
    ensures Contains(x + y + t, x)
  {
    assert x + y + t == [] + x + (y + t);
    ContainsPiece([], x, y + t);
  }

  /** Three parts joined by `sep`, then a final ".". */
  lemma JoinThree(a: string, b: string, c: string, sep: string)
    ensures Join([a, b, c], sep) + "." == a + (sep + b + sep + c + ".")
  {
    assert [a, b, c][1..] == [b, c] && [b, c][1..] == [c];
    assert Join([b, c], sep) == b + sep + c;
    assert Join([a, b, c], sep) == a + sep + (b + sep + c);
  }

  /** Four parts joined by `sep`, then a final ".". */
  lemma JoinFour(a: string, b: string, c: string, n: string, sep: string)
    ensures Join([a, b, c, n], sep) + "." == a + (sep + b + sep + c + sep + n + ".")
    ensures Join([a, b, c, n], sep) + "." == a + sep + b + sep + c + sep + n + "."
  {
    assert [a, b, c, n][1..] == [b, c, n] && [b, c, n][1..] == [c, n] && [c, n][1..] == [n];
    assert Join([c, n], sep) == c + sep + n;
    assert Join([b, c, n], sep) == b + sep + (c + sep + n);
    assert Join([a, b, c, n], sep) == a + sep + (b + sep + (c + sep + n));
  }
}
