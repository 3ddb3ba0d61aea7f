/**
 Rust's `format!("{:04x}", v)` for a `u16` id: the lower-case hexadecimal
 digits of `v` without leading zeros, then left-padded with '0' to width 4.
 The filters store vendor and model ids in this form and compare them with
 udev's `ID_VENDOR_ID` / `ID_MODEL_ID` strings.
 */
module HexFormat {

  /** Rust's `u16`. */
  newtype u16 = x: int | 0 <= x < 0x1_0000

  const DigitChars: string := "0123456789abcdef"

  predicate IsLowerHexChar(c: char) {
    ('0' <= c <= '9') || ('a' <= c <= 'f')
  }

  predicate IsLowerHex(s: string) {
    forall i :: 0 <= i < |s| ==> IsLowerHexChar(s[i])
  }

  function DigitChar(d: nat): (c: char)
    requires d < 16
    ensures IsLowerHexChar(c)
  {
    DigitChars[d]
  }

  function DigitValue(c: char): (d: nat)
    requires IsLowerHexChar(c)
    ensures d < 16
    ensures DigitChar(d) == c
  {
    if '0' <= c <= '9' then (c as int - '0' as int) as nat
    else (c as int - 'a' as int + 10) as nat
  }

  lemma DigitValueOfChar(d: nat)
    requires d < 16
    ensures DigitValue(DigitChar(d)) == d
  {
  }

  /** The digits Rust's `LowerHex` prints for `n`: no leading zeros, "0" for zero. */
  function HexDigits(n: nat): (s: string)
    decreases n
  {
    if n < 16 then [DigitChar(n)] else HexDigits(n / 16) + [DigitChar(n % 16)]
  }

  function Zeros(k: nat): (s: string)
    ensures |s| == k
    ensures forall i :: 0 <= i < k ==> s[i] == '0'
  {
    if k == 0 then [] else Zeros(k - 1) + ['0']
  }

  /** The `0` flag with a width: pad on the left with zeros up to `width` characters. */
  function PadZeros(s: string, width: nat): string {
    if |s| >= width then s else Zeros(width - |s|) + s
  }

  function Format04x(v: u16): string {
    PadZeros(HexDigits(v as nat), 4)
  }

  /** The value of a string of hexadecimal digits, most significant first. */
  function ParseHex(s: string): nat
    requires IsLowerHex(s)
  {
    if s == [] then 0 else ParseHex(s[..|s| - 1]) * 16 + DigitValue(s[|s| - 1])
  }

  lemma {:induction false} HexDigitsAreLowerHex(n: nat)
    ensures IsLowerHex(HexDigits(n))
    decreases n
  {
    if n >= 16 {
      HexDigitsAreLowerHex(n / 16);
    }
  }

  lemma {:induction false} HexDigitsShort(n: nat, k: nat)
    requires 1 <= k
    requires n < Pow16(k)
    ensures |HexDigits(n)| <= k
    decreases k
  {
    if n >= 16 {
      assert k >= 2;
      assert n / 16 < Pow16(k - 1);
      HexDigitsShort(n / 16, k - 1);
    }
  }

  function Pow16(k: nat): (p: nat)
    ensures p >= 1
  {
    if k == 0 then 1 else 16 * Pow16(k - 1)
  }

  lemma {:induction false} ParseHexDigits(n: nat)
    ensures IsLowerHex(HexDigits(n))
    ensures ParseHex(HexDigits(n)) == n
    decreases n
  {
    HexDigitsAreLowerHex(n);
    var s := HexDigits(n);
    if n < 16 {
      DigitValueOfChar(n);
      assert s[..0] == [];
    } else {
      ParseHexDigits(n / 16);
      DigitValueOfChar(n % 16);
      assert s[..|s| - 1] == HexDigits(n / 16);
    }
  }

  /** Leading zeros do not change the parsed value. */
  lemma {:induction false} ParseHexLeadingZeros(k: nat, s: string)
    requires IsLowerHex(s)
    ensures IsLowerHex(Zeros(k) + s)
    ensures ParseHex(Zeros(k) + s) == ParseHex(s)
    decreases |s|
  {
    var t := Zeros(k) + s;
    assert IsLowerHex(t) by {
      forall i | 0 <= i < |t| ensures IsLowerHexChar(t[i]) {
        if i < k { assert t[i] == '0'; } else { assert t[i] == s[i - k]; }
      }
    }
    if s == [] {
      assert t == Zeros(k);
      ZerosParseToZero(k);
    } else {
      var s' := s[..|s| - 1];
      assert IsLowerHex(s');
      ParseHexLeadingZeros(k, s');
      assert t[..|t| - 1] == Zeros(k) + s';
      assert t[|t| - 1] == s[|s| - 1];
    }
  }

  lemma {:induction false} ZerosParseToZero(k: nat)
    ensures IsLowerHex(Zeros(k))
    ensures ParseHex(Zeros(k)) == 0
    decreases k
  {
    if k > 0 {
      ZerosParseToZero(k - 1);
      assert Zeros(k)[..k - 1] == Zeros(k - 1);
    }
  }

  /**
   The rendering of a `u16` id is exactly four lower-case hexadecimal digits
   whose value is the id: zero-padding never truncates a `u16`.
   */
  lemma Format04xShape(v: u16)
    ensures |Format04x(v)| == 4
    ensures IsLowerHex(Format04x(v))
    ensures ParseHex(Format04x(v)) == v as nat
  {
    var d := HexDigits(v as nat);
    assert Pow16(4) == 0x1_0000;
    HexDigitsShort(v as nat, 4);
    ParseHexDigits(v as nat);
    assert |d| >= 1;
    ParseHexLeadingZeros(4 - |d|, d);
    if |d| == 4 {
      assert Format04x(v) == d;
    } else {
      assert Format04x(v) == Zeros(4 - |d|) + d;
    }
  }

  /** Two hexadecimal strings of the same length with the same value are equal. */
  lemma {:induction false} ParseHexInjective(s: string, t: string)
    requires IsLowerHex(s) && IsLowerHex(t)
    requires |s| == |t|
    requires ParseHex(s) == ParseHex(t)
    ensures s == t
    decreases |s|
  {
    if s != [] {
      var s', t' := s[..|s| - 1], t[..|t| - 1];
      var a, b := DigitValue(s[|s| - 1]), DigitValue(t[|t| - 1]);
      assert ParseHex(s) == ParseHex(s') * 16 + a;
      assert ParseHex(t) == ParseHex(t') * 16 + b;
      assert a == b && ParseHex(s') == ParseHex(t') by {
        DivModUnique(ParseHex(s'), a, ParseHex(t'), b);
      }
      ParseHexInjective(s', t');
      assert s == s' + [s[|s| - 1]];
      assert t == t' + [t[|t| - 1]];
    }
  }

  lemma DivModUnique(p: nat, a: nat, q: nat, b: nat)
    requires a < 16 && b < 16
    requires p * 16 + a == q * 16 + b
    ensures a == b && p == q
  {
  }

  /**
   A string is the rendering of id `v` exactly when it is four lower-case
   hexadecimal digits worth `v`; so rendering is injective and a string with
   an upper-case digit ("046D") is the rendering of no id.
   */
  lemma Format04xCharacterized(v: u16, s: string)
    ensures s == Format04x(v) <==> (|s| == 4 && IsLowerHex(s) && ParseHex(s) == v as nat)
  {
    Format04xShape(v);
    if |s| == 4 && IsLowerHex(s) && ParseHex(s) == v as nat {
      ParseHexInjective(s, Format04x(v));
    }
  }

  lemma Format04xInjective(v: u16, w: u16)
    ensures Format04x(v) == Format04x(w) <==> v == w
  {
    Format04xShape(v);
    Format04xShape(w);
  }
}
