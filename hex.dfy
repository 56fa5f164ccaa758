/** Lowercase hexadecimal rendering of a non-negative integer, as JavaScript's
    `Number.prototype.toString(16)` produces it for a non-negative integer:
    digits `0-9a-f`, most significant digit first, no leading zeros, and the
    single digit "0" for zero. */
module Hex {

  /** A 32-bit unsigned value, the range of a CRC-32 checksum. */
  type Word = n: nat | n < 0x1_0000_0000

  const Digits: string := "0123456789abcdef"

  predicate IsHexDigit(c: char) {
    ('0' <= c <= '9') || ('a' <= c <= 'f')
  }

  /** The digit that stands for `d`. */
  function HexDigit(d: nat): (c: char)
    requires d < 16
    ensures IsHexDigit(c)
    ensures c == '0' <==> d == 0
  {
    Digits[d]
  }

  /** The value of one hex digit (0 for a character that is not one). */
  function DigitValue(c: char): (d: nat)
    ensures d < 16
    ensures IsHexDigit(c) ==> HexDigit(d) == c
  {
    if '0' <= c <= '9' then c as nat - '0' as nat
    else if 'a' <= c <= 'f' then c as nat - 'a' as nat + 10
    else 0
  }

  lemma DigitValueOfHexDigit(d: nat)
    requires d < 16
    ensures DigitValue(HexDigit(d)) == d
  {
    assert Digits == ['0', '1', '2', '3', '4', '5', '6', '7', '8', '9',
                      'a', 'b', 'c', 'd', 'e', 'f'];
  }

  /** A string that `ToHex` can produce: non-empty, only hex digits, and no
      leading zero unless it is "0" itself. */
  predicate IsCanonical(s: string) {
    && |s| >= 1
    && (forall i :: 0 <= i < |s| ==> IsHexDigit(s[i]))
    && (s[0] == '0' ==> s == "0")
  }

  /** `n.toString(16)` for a non-negative integer `n`. */
  function ToHex(n: nat): (s: string)
    ensures IsCanonical(s)
    ensures s[0] == '0' <==> n == 0
    decreases n
  {
    if n < 16 then [HexDigit(n)]
    else ToHex(n / 16) + [HexDigit(n % 16)]
  }

  /** Reads a string of hex digits back as a number, most significant first. */
  function FromHex(s: string): nat
  {
    if s == [] then 0
    else FromHex(s[..|s| - 1]) * 16 + DigitValue(s[|s| - 1])
  }

  /** Rendering then reading back gives the number. */
  lemma {:induction false} FromHexToHex(n: nat)
    ensures FromHex(ToHex(n)) == n
    decreases n
  {
    var s := ToHex(n);
    if n < 16 {
      DigitValueOfHexDigit(n);
      assert s[..|s| - 1] == [];
    } else {
      FromHexToHex(n / 16);
      DigitValueOfHexDigit(n % 16);
      assert s[..|s| - 1] == ToHex(n / 16);
    }
  }

  /** Only a string of zeros reads as zero. */
  lemma {:induction false} FromHexZero(s: string)
    requires forall i :: 0 <= i < |s| ==> IsHexDigit(s[i])
    requires FromHex(s) == 0
    ensures forall i :: 0 <= i < |s| ==> s[i] == '0'
  {
    if s != [] {
      var p := s[..|s| - 1];
      FromHexZero(p);
      assert HexDigit(DigitValue(s[|s| - 1])) == s[|s| - 1];
      forall i | 0 <= i < |s| ensures s[i] == '0' {
        if i < |s| - 1 { assert s[i] == p[i]; }
      }
    }
  }

  /** Reading a canonical string then rendering it gives the string back, so
      `ToHex` is a bijection between numbers and canonical strings. */
  lemma {:induction false} ToHexFromHex(s: string)
    requires IsCanonical(s)
    ensures ToHex(FromHex(s)) == s
    decreases |s|
  {
    var n := FromHex(s);
    var last := s[|s| - 1];
    var p := s[..|s| - 1];
    if |s| == 1 {
      assert p == [] && FromHex(p) == 0;
      assert n == DigitValue(last);
      assert ToHex(n) == [HexDigit(DigitValue(last))];
    } else {
      assert s[0] != '0';
      assert p[0] == s[0];
      assert IsCanonical(p) by {
        forall i | 0 <= i < |p| ensures IsHexDigit(p[i]) { assert p[i] == s[i]; }
      }
      if FromHex(p) == 0 {
        FromHexZero(p);
        assert false;
      }
      ToHexFromHex(p);
      assert n / 16 == FromHex(p) && n % 16 == DigitValue(last);
      assert s == p + [last];
    }
  }

  /** `ToHex` tells numbers apart. */
  lemma ToHexInjective(m: nat, n: nat)
    ensures ToHex(m) == ToHex(n) <==> m == n
  {
    if ToHex(m) == ToHex(n) {
      FromHexToHex(m);
      FromHexToHex(n);
    }
  }

  function Pow16(k: nat): nat
  {
    if k == 0 then 1 else 16 * Pow16(k - 1)
  }

  /** A number below 16^k renders in at most k digits. */
  lemma {:induction false} ToHexLength(n: nat, k: nat)
    requires 1 <= k
    requires n < Pow16(k)
    ensures |ToHex(n)| <= k
    decreases n
  {
    if n >= 16 {
      assert k > 1;
      assert n / 16 < Pow16(k - 1);
      ToHexLength(n / 16, k - 1);
    }
  }

  /** A 32-bit value renders in at most eight digits. */
  lemma WordHexLength(w: Word)
    ensures 1 <= |ToHex(w)| <= 8
  {
    assert Pow16(8) == 0x1_0000_0000;
    ToHexLength(w, 8);
  }
}
