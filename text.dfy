/** The string operations of Go's `strings` package and `big.Int.String` that the
    program relies on: lower-casing, trimming white space, removing spaces, and the
    decimal rendering of a natural number. */
module Text {

  /** unicode.ToLower restricted to ASCII letters. */
  function LowerChar(c: char): char {
    if 'A' <= c <= 'Z' then (c as int + 32) as char else c
  }

  /** strings.ToLower, letter by letter. */
  function ToLower(s: string): (r: string)
    ensures |r| == |s|
    ensures forall i :: 0 <= i < |s| ==> r[i] == LowerChar(s[i])
  {
    if s == [] then [] else [LowerChar(s[0])] + ToLower(s[1..])
  }

  /** ToLower never leaves an upper-case ASCII letter behind. */
  lemma ToLowerHasNoUpper(s: string)
    ensures forall i :: 0 <= i < |ToLower(s)| ==> !('A' <= ToLower(s)[i] <= 'Z')
  {
  }

  /** An answer lower-cases to "y" exactly when it is "y" or "Y": the only answers the
      interactive confirmations accept. */
  lemma {:induction false} LowerIsY(s: string)
    ensures ToLower(s) == "y" <==> s == "y" || s == "Y"
  {
    if ToLower(s) == "y" {
      assert |s| == 1 && LowerChar(s[0]) == 'y';
      assert s == [s[0]];
    }
  }

  /** unicode.IsSpace: the Latin-1 white space characters and the other characters
      with the Unicode White_Space property. */
  predicate IsSpace(c: char) {
    c == ' ' || c == '\t' || c == '\n' || c == '\U{000B}' || c == '\U{000C}' || c == '\r'
    || c == '\U{0085}' || c == '\U{00A0}' || c == '\U{1680}' || ('\U{2000}' <= c <= '\U{200A}')
    || c == '\U{2028}' || c == '\U{2029}' || c == '\U{202F}' || c == '\U{205F}' || c == '\U{3000}'
  }

  /** Drops the leading white space. */
  function TrimLeft(s: string): (r: string)
    ensures |r| <= |s| && r == s[|s| - |r|..]
    ensures forall i :: 0 <= i < |s| - |r| ==> IsSpace(s[i])
    ensures r == [] || !IsSpace(r[0])
  {
    if s != [] && IsSpace(s[0]) then TrimLeft(s[1..]) else s
  }

  /** Drops the trailing white space. */
  function TrimRight(s: string): (r: string)
    ensures |r| <= |s| && r == s[..|r|]
    ensures forall i :: |r| <= i < |s| ==> IsSpace(s[i])
    ensures r == [] || !IsSpace(r[|r| - 1])
  {
    if s != [] && IsSpace(s[|s| - 1]) then TrimRight(s[..|s| - 1]) else s
  }

  /** strings.TrimSpace. */
  function TrimSpace(s: string): string {
    TrimRight(TrimLeft(s))
  }

  lemma SuffixSubMultiset(s: string, k: int)
    requires 0 <= k <= |s|
    ensures multiset(s[k..]) <= multiset(s)
  {
    assert s == s[..k] + s[k..];
  }

  lemma PrefixSubMultiset(s: string, k: int)
    requires 0 <= k <= |s|
    ensures multiset(s[..k]) <= multiset(s)
  {
    assert s == s[..k] + s[k..];
  }

  /** Trimming only removes characters. */
  lemma TrimSpaceSubMultiset(s: string)
    ensures multiset(TrimSpace(s)) <= multiset(s)
  {
    var left := TrimLeft(s);
    var right := TrimRight(left);
    SuffixSubMultiset(s, |s| - |left|);
    PrefixSubMultiset(left, |right|);
    assert multiset(right) <= multiset(left) <= multiset(s);
  }

  /** strings.ReplaceAll(s, " ", ""): every space character removed, all other
      characters kept in order. */
  function RemoveSpaces(s: string): (r: string)
    ensures |r| <= |s|
    ensures forall i :: 0 <= i < |r| ==> r[i] != ' '
    ensures forall c :: c != ' ' ==> multiset(r)[c] == multiset(s)[c]
  {
    if s == [] then []
    else
      assert s == [s[0]] + s[1..];
      (if s[0] == ' ' then [] else [s[0]]) + RemoveSpaces(s[1..])
  }

  /** Removing spaces keeps a single non-space character and drops a space. */
  lemma RemoveSpacesChar(c: char)
    ensures RemoveSpaces([c]) == (if c == ' ' then [] else [c])
  {
    assert [c][1..] == [];
  }

  /** Removing spaces works piece by piece; with RemoveSpacesChar, the characters that
      remain keep their order. */
  lemma {:induction false} RemoveSpacesConcat(a: string, b: string)
    ensures RemoveSpaces(a + b) == RemoveSpaces(a) + RemoveSpaces(b)
    decreases |a|
  {
    if a == [] {
      assert a + b == b;
    } else {
      assert (a + b)[0] == a[0] && (a + b)[1..] == a[1..] + b;
      RemoveSpacesConcat(a[1..], b);
    }
  }

  /** Every character of the trimmed string is a character of the input. */
  lemma TrimSpaceFromInput(s: string)
    ensures forall i :: 0 <= i < |TrimSpace(s)| ==> TrimSpace(s)[i] in s
  {
    var left := TrimLeft(s);
    var k := |s| - |left|;
    forall i | 0 <= i < |TrimSpace(s)| ensures TrimSpace(s)[i] in s {
      assert TrimSpace(s)[i] == left[i] == s[k + i];
    }
  }

  /** Every character left after removing spaces is a character of the input. */
  lemma {:induction false} RemoveSpacesFromInput(s: string)
    ensures forall i :: 0 <= i < |RemoveSpaces(s)| ==> RemoveSpaces(s)[i] in s
    decreases |s|
  {
    if s != [] {
      RemoveSpacesFromInput(s[1..]);
      var head: string := if s[0] == ' ' then [] else [s[0]];
      assert RemoveSpaces(s) == head + RemoveSpaces(s[1..]);
      forall i | 0 <= i < |RemoveSpaces(s)| ensures RemoveSpaces(s)[i] in s {
        if i < |head| {
          assert RemoveSpaces(s)[i] == s[0];
        } else {
          var c := RemoveSpaces(s[1..])[i - |head|];
          assert RemoveSpaces(s)[i] == c && c in s[1..];
          var j :| 0 <= j < |s[1..]| && s[1..][j] == c;
          assert s[j + 1] == c;
        }
      }
    }
  }

  /** A string flag's value, or `fallback` when the flag was left empty. */
  function OrDefault(value: string, fallback: string): string {
    if value != "" then value else fallback
  }

  predicate IsDigit(c: char) {
    '0' <= c <= '9'
  }

  function DigitChar(d: nat): (c: char)
    requires d < 10
    ensures IsDigit(c)
  {
    ('0' as int + d) as char
  }

  function DigitValue(c: char): nat
    requires IsDigit(c)
  {
    c as int - '0' as int
  }

  /** big.Int.String for a non-negative value: base-10 digits, most significant first,
      with no leading zero unless the value is zero. */
  function Decimal(n: nat): (s: string)
    ensures |s| >= 1
    ensures forall i :: 0 <= i < |s| ==> IsDigit(s[i])
    ensures s[0] == '0' <==> n == 0
    decreases n
  {
    if n < 10 then [DigitChar(n)] else Decimal(n / 10) + [DigitChar(n % 10)]
  }

  /** Reads a string of decimal digits back as a number. */
  function ParseDecimal(s: string): nat
    requires forall i :: 0 <= i < |s| ==> IsDigit(s[i])
    decreases |s|
  {
    if s == [] then 0 else ParseDecimal(s[..|s| - 1]) * 10 + DigitValue(s[|s| - 1])
  }

  /** The decimal rendering loses nothing: parsing it gives the number back, so two
      different serials never share a decimal string. */
  lemma {:induction false} DecimalRoundTrip(n: nat)
    ensures ParseDecimal(Decimal(n)) == n
    decreases n
  {
    var s := Decimal(n);
    if n >= 10 {
      DecimalRoundTrip(n / 10);
      assert s[..|s| - 1] == Decimal(n / 10);
    }
  }

  lemma DecimalInjective(m: nat, n: nat)
    ensures Decimal(m) == Decimal(n) ==> m == n
  {
    DecimalRoundTrip(m);
    DecimalRoundTrip(n);
  }
}
