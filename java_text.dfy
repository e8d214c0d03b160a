/** The pieces of Java's string and integer semantics that filename
    construction uses: String.hashCode over UTF-16 code units with 32-bit
    wrap-around, Math.abs on an int, and the decimal form that string
    concatenation gives a long or an int. */
module JavaText {

  const TWO_32: int := 0x1_0000_0000
  const INT_MIN: int := -0x8000_0000
  const INT_MAX: int := 0x7FFF_FFFF

  predicate IsInt32(x: int)
  {
    INT_MIN <= x <= INT_MAX
  }

  /** The UTF-16 code units of a string: a supplementary character becomes
      a surrogate pair. */
  function Utf16(s: string): (r: seq<int>)
    ensures |r| >= |s|
    ensures forall i :: 0 <= i < |r| ==> 0 <= r[i] < 0x10000
  {
    if s == [] then []
    else
      var n := s[0] as int;
      var units := if n < 0x10000 then [n] else [0xD800 + (n - 0x10000) / 1024, 0xDC00 + (n - 0x10000) % 1024];
      units + Utf16(s[1..])
  }

  /** The running value of `h = 31 * h + unit` as a 32-bit pattern. */
  function HashBits(units: seq<int>): (r: int)
    ensures 0 <= r < TWO_32
  {
    if units == [] then 0
    else (31 * HashBits(units[..|units| - 1]) + units[|units| - 1]) % TWO_32
  }

  /** The two's-complement reading of a 32-bit pattern. */
  function ToInt32(bits: int): (r: int)
    requires 0 <= bits < TWO_32
    ensures IsInt32(r) && (r - bits) % TWO_32 == 0
  {
    if bits <= INT_MAX then bits else bits - TWO_32
  }

  /** String.hashCode. */
  function HashCode(s: string): (r: int)
    ensures IsInt32(r)
  {
    ToInt32(HashBits(Utf16(s)))
  }

  /** Math.abs(int): the negation overflows for the least int, which stays
      negative. */
  function Abs(x: int): (r: int)
    requires IsInt32(x)
    ensures IsInt32(r)
    ensures x != INT_MIN ==> r >= 0 && (r == x || r == -x)
    ensures x == INT_MIN ==> r == INT_MIN
  {
    if x == INT_MIN then INT_MIN else if x < 0 then -x else x
  }

  function DigitChar(d: int): char
    requires 0 <= d < 10
  {
    ('0' as int + d) as char
  }

  predicate IsDigit(c: char)
  {
    '0' <= c <= '9'
  }

  /** The decimal digits of a natural number, without leading zeros. */
  function NatToString(n: nat): (r: string)
    ensures |r| >= 1 && forall i :: 0 <= i < |r| ==> IsDigit(r[i])
    ensures n >= 10 <==> |r| >= 2
  {
    if n < 10 then [DigitChar(n)] else NatToString(n / 10) + [DigitChar(n % 10)]
  }

  /** Long.toString and Integer.toString. */
  function IntToString(x: int): (r: string)
    ensures |r| >= 1 && (r[0] == '-' <==> x < 0)
    ensures forall i :: 0 < i < |r| ==> IsDigit(r[i])
    ensures x >= 0 ==> IsDigit(r[0])
  {
    if x < 0 then "-" + NatToString(-x) else NatToString(x)
  }

  function ParseNat(s: string): int
  {
    if s == [] then 0 else 10 * ParseNat(s[..|s| - 1]) + (s[|s| - 1] as int - '0' as int)
  }

  function ParseInt(s: string): int
  {
    if |s| > 0 && s[0] == '-' then - ParseNat(s[1..]) else ParseNat(s)
  }

  /** Reading back the decimal form gives the number. */
  lemma {:induction false} ParseNatToString(n: nat)
    ensures ParseNat(NatToString(n)) == n
  {
    if n >= 10 {
      var s := NatToString(n);
      assert s[..|s| - 1] == NatToString(n / 10);
      ParseNatToString(n / 10);
    }
  }

  lemma ParseIntToString(x: int)
    ensures ParseInt(IntToString(x)) == x
  {
    if x < 0 {
      ParseNatToString(-x);
      assert IntToString(x)[1..] == NatToString(-x);
    } else {
      ParseNatToString(x);
    }
  }

  /** The decimal form never contains an underscore, so the underscores of
      a generated filename separate its fields. */
  lemma IntToStringHasNoUnderscore(x: int)
    ensures '_' !in IntToString(x)
  {
    var digits := NatToString(if x < 0 then -x else x);
    assert forall i :: 0 <= i < |digits| ==> digits[i] != '_';
  }

  /** "Aa" and "BB" are different strings with the same hash code. */
  lemma HashCollision()
    ensures "Aa" != "BB" && HashCode("Aa") == HashCode("BB") == 2112
  {
    assert Utf16("Aa") == [65, 97] by {
      assert "Aa"[1..] == "a";
      assert Utf16("a") == [97] by { assert "a"[1..] == ""; }
    }
    assert Utf16("BB") == [66, 66] by {
      assert "BB"[1..] == "B";
      assert Utf16("B") == [66] by { assert "B"[1..] == ""; }
    }
    assert [65, 97][..1] == [65] && [66, 66][..1] == [66];
    assert [65][..0] == [] && [66][..0] == [];
    assert HashBits([65]) == 65 % TWO_32 == 65;
    assert HashBits([66]) == 66 % TWO_32 == 66;
    assert HashBits([65, 97]) == (31 * 65 + 97) % TWO_32 == 2112;
    assert HashBits([66, 66]) == (31 * 66 + 66) % TWO_32 == 2112;
  }

  /** Math.abs of a hash code is negative exactly for the least int. */
  lemma AbsNegativeOnlyAtMin(x: int)
    requires IsInt32(x)
    ensures Abs(x) < 0 <==> x == INT_MIN
  {
  }
}
