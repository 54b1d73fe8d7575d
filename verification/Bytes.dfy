/** Byte strings, minimal big-endian numerals and hexadecimal text, as Python's
    `int.to_bytes`, `bytes.hex`, `bytes.fromhex` and `int(text, 16)` produce and read them. */
module Bytes {
  import opened Results

  type Byte = b: int | 0 <= b < 256

  const TWO_TO_64: nat := 0x1_0000_0000_0000_0000

  // ----- integers as bytes -----

  /** `int.bit_length`. */
  function BitLength(n: nat): nat {
    if n == 0 then 0 else 1 + BitLength(n / 2)
  }

  /** `int.to_bytes(width, "big")`. */
  function BigEndian(n: nat, width: nat): (b: seq<Byte>)
    ensures |b| == width
  {
    if width == 0 then [] else BigEndian(n / 256, width - 1) + [n % 256]
  }

  /** `_to_bytes`. */
  function ToBytes(n: nat): seq<Byte> {
    if n == 0 then [] else BigEndian(n, (BitLength(n) + 7) / 8)
  }

  /** The number a big-endian byte string stands for. */
  function FromBytes(b: seq<Byte>): nat {
    if b == [] then 0 else FromBytes(b[..|b| - 1]) * 256 + b[|b| - 1]
  }

  ghost predicate Minimal(b: seq<Byte>) {
    b != [] ==> b[0] != 0
  }

  lemma BitLengthOfByte(n: nat)
    requires 0 < n < 256
    ensures 1 <= BitLength(n) <= 8
  {
    assert BitLength(n) == 1 + BitLength(n / 2);
    var a, b, c := n / 2, n / 4, n / 8;
    var d, e, f := n / 16, n / 32, n / 64;
    var g := n / 128;
    assert a / 2 == b && b / 2 == c && c / 2 == d && d / 2 == e && e / 2 == f && f / 2 == g && g / 2 == 0;
    assert BitLength(g) <= 1;
    assert BitLength(f) <= 2;
    assert BitLength(e) <= 3;
    assert BitLength(d) <= 4;
    assert BitLength(c) <= 5;
    assert BitLength(b) <= 6;
    assert BitLength(a) <= 7;
  }

  lemma BitLengthOfShift(n: nat)
    requires 256 <= n
    ensures BitLength(n) == 8 + BitLength(n / 256)
  {
    var a, b, c := n / 2, n / 4, n / 8;
    var d, e, f := n / 16, n / 32, n / 64;
    var g, h := n / 128, n / 256;
    assert a / 2 == b && b / 2 == c && c / 2 == d && d / 2 == e && e / 2 == f && f / 2 == g && g / 2 == h;
    assert BitLength(g) == 1 + BitLength(h);
    assert BitLength(f) == 2 + BitLength(h);
    assert BitLength(e) == 3 + BitLength(h);
    assert BitLength(d) == 4 + BitLength(h);
    assert BitLength(c) == 5 + BitLength(h);
    assert BitLength(b) == 6 + BitLength(h);
    assert BitLength(a) == 7 + BitLength(h);
  }

  /** The byte width chosen from the bit length drops the last base-256 digit at a time. */
  lemma ToBytesUnfold(n: nat)
    requires n > 0
    ensures ToBytes(n) == ToBytes(n / 256) + [n % 256]
  {
    if n < 256 {
      BitLengthOfByte(n);
      assert (BitLength(n) + 7) / 8 == 1;
      assert BigEndian(n, 1) == BigEndian(n / 256, 0) + [n % 256];
    } else {
      BitLengthOfShift(n);
    }
  }

  /** `_to_bytes` is the minimal encoding: it reads back as `n` and has no leading zero byte. */
  lemma {:induction false} ToBytesSound(n: nat)
    ensures FromBytes(ToBytes(n)) == n
    ensures Minimal(ToBytes(n))
    ensures ToBytes(n) == [] <==> n == 0
  {
    if n > 0 {
      ToBytesUnfold(n);
      ToBytesSound(n / 256);
      var b := ToBytes(n);
      assert b[..|b| - 1] == ToBytes(n / 256);
    }
  }

  /** Every byte string without a leading zero is the encoding of the number it stands for. */
  lemma {:induction false} ToBytesComplete(b: seq<Byte>)
    requires Minimal(b)
    ensures ToBytes(FromBytes(b)) == b
    ensures b != [] ==> FromBytes(b) > 0
  {
    if b != [] {
      var front := b[..|b| - 1];
      ToBytesComplete(front);
      var n := FromBytes(b);
      assert n / 256 == FromBytes(front) && n % 256 == b[|b| - 1];
      if front == [] {
        assert FromBytes(front) == 0;
        assert b[0] == b[|b| - 1];
      }
      ToBytesUnfold(n);
      assert b == front + [b[|b| - 1]];
    }
  }

  function Pow256(k: nat): nat {
    if k == 0 then 1 else 256 * Pow256(k - 1)
  }

  lemma {:induction false} ToBytesWidth(n: nat, k: nat)
    requires n < Pow256(k)
    ensures |ToBytes(n)| <= k
  {
    if n > 0 {
      ToBytesUnfold(n);
      ToBytesWidth(n / 256, k - 1);
    }
  }

  lemma {:induction false} FromBytesBound(b: seq<Byte>)
    ensures FromBytes(b) < Pow256(|b|)
  {
    if b != [] {
      FromBytesBound(b[..|b| - 1]);
    }
  }

  lemma {:induction false} Pow256Monotone(i: nat, j: nat)
    requires i <= j
    ensures Pow256(i) <= Pow256(j)
    decreases j
  {
    if i < j {
      Pow256Monotone(i, j - 1);
    }
  }

  lemma Pow256Eight()
    ensures Pow256(8) == TWO_TO_64
  {
    assert Pow256(4) == 0x1_0000_0000;
    assert Pow256(6) == 0x1_0000_0000_0000;
  }

  /** Eight length bytes are enough exactly below 2^64. */
  lemma EightBytes(n: nat)
    ensures |ToBytes(n)| <= 8 <==> n < TWO_TO_64
  {
    Pow256Eight();
    if n < TWO_TO_64 {
      ToBytesWidth(n, 8);
    } else if |ToBytes(n)| <= 8 {
      ToBytesSound(n);
      FromBytesBound(ToBytes(n));
      Pow256Monotone(|ToBytes(n)|, 8);
      assert false;
    }
  }

  // ----- hexadecimal text -----

  function HexChar(d: nat): char
    requires d < 16
  {
    if d < 10 then '0' + d as char else 'a' + (d - 10) as char
  }

  function HexValue(c: char): Option<nat> {
    if '0' <= c <= '9' then Some((c - '0') as nat)
    else if 'a' <= c <= 'f' then Some((c - 'a') as nat + 10)
    else if 'A' <= c <= 'F' then Some((c - 'A') as nat + 10)
    else None
  }

  lemma HexCharValue(d: nat)
    requires d < 16
    ensures HexValue(HexChar(d)) == Some(d)
    ensures HexChar(d) != 'x'
  {
    if d < 10 {
      assert ('0' + d as char) - '0' == d as char;
    } else {
      assert ('a' + (d - 10) as char) - 'a' == (d - 10) as char;
    }
  }

  /** `bytes.hex`. */
  function Hex(b: seq<Byte>): (s: string)
    ensures |s| == 2 * |b|
  {
    if b == [] then "" else [HexChar(b[0] / 16), HexChar(b[0] % 16)] + Hex(b[1..])
  }

  /** `bytes.fromhex`, for text without white space. */
  function FromHex(s: string): Option<seq<Byte>> {
    if s == "" then Some([])
    else if |s| == 1 then None
    else
      var hi :- HexValue(s[0]);
      var lo :- HexValue(s[1]);
      if hi >= 16 || lo >= 16 then None else
      var rest :- FromHex(s[2..]);
      Some([16 * hi + lo] + rest)
  }

  /** The value of a run of hexadecimal digits, most significant first. */
  function Digits(s: string): Option<nat> {
    if s == "" then Some(0)
    else
      var front :- Digits(s[..|s| - 1]);
      var last :- HexValue(s[|s| - 1]);
      Some(16 * front + last)
  }

  /** `int(text, 16)`, for text without sign, underscore or white space. */
  function ParseInt16(s: string): Option<nat> {
    var t := if |s| >= 2 && s[0] == '0' && (s[1] == 'x' || s[1] == 'X') then s[2..] else s;
    if t == "" then None else Digits(t)
  }

  /** `hex(value)[2:]`. */
  function HexNumber(n: nat): string {
    if n < 16 then [HexChar(n)] else HexNumber(n / 16) + [HexChar(n % 16)]
  }

  /** `text.replace("0x", "")`. */
  function RemoveOx(s: string): string {
    if |s| < 2 then s
    else if s[0] == '0' && s[1] == 'x' then RemoveOx(s[2..])
    else [s[0]] + RemoveOx(s[1..])
  }

  /** `_hex_to_bytes`. */
  function HexToBytes(s: string): Option<seq<Byte>> {
    FromHexPadded(RemoveOx(s))
  }

  function FromHexPadded(raw: string): Option<seq<Byte>> {
    FromHex(if |raw| % 2 == 1 then "0" + raw else raw)
  }

  lemma {:induction false} RemoveOxIdle(s: string)
    requires 'x' !in s
    ensures RemoveOx(s) == s
  {
    if |s| >= 2 {
      assert s[1] in s;
      RemoveOxIdle(s[1..]);
    }
  }

  lemma {:induction false} HexHasNoX(b: seq<Byte>)
    ensures 'x' !in Hex(b)
  {
    if b != [] {
      HexCharValue(b[0] / 16);
      HexCharValue(b[0] % 16);
      HexHasNoX(b[1..]);
    }
  }

  lemma {:induction false} FromHexHex(b: seq<Byte>)
    ensures FromHex(Hex(b)) == Some(b)
  {
    if b != [] {
      HexCharValue(b[0] / 16);
      HexCharValue(b[0] % 16);
      FromHexHex(b[1..]);
      assert Hex(b)[2..] == Hex(b[1..]);
      assert [b[0]] + b[1..] == b;
    }
  }

  /** Hexadecimal output with a `0x` marker reads back as the bytes it was made from. */
  lemma HexToBytesRoundTrip(s: string, b: seq<Byte>)
    requires s == "0x" + Hex(b)
    ensures HexToBytes(s) == Some(b)
  {
    var raw := Hex(b);
    assert RemoveOx(s) == raw by {
      RemoveOxMarker(raw);
      HexHasNoX(b);
      RemoveOxIdle(raw);
    }
    assert FromHexPadded(raw) == Some(b) by {
      FromHexHex(b);
      EvenLength(raw, |b|);
    }
  }

  lemma EvenLength(s: string, n: nat)
    requires |s| == 2 * n
    ensures |s| % 2 == 0
  {
  }

  lemma RemoveOxMarker(t: string)
    ensures RemoveOx("0x" + t) == RemoveOx(t)
  {
    var s := "0x" + t;
    assert s[0] == '0' && s[1] == 'x' && s[2..] == t;
  }

  lemma {:induction false} DigitsOfHexNumber(n: nat)
    ensures Digits(HexNumber(n)) == Some(n)
    ensures HexNumber(n) != "" && 'x' !in HexNumber(n)
  {
    HexCharValue(n % 16);
    var s := HexNumber(n);
    if n < 16 {
      assert s[..|s| - 1] == "";
    } else {
      DigitsOfHexNumber(n / 16);
      assert s[..|s| - 1] == HexNumber(n / 16);
    }
  }

  function Zeros(k: nat): (s: string)
    ensures |s| == k
    ensures forall i :: 0 <= i < k ==> s[i] == '0'
  {
    if k == 0 then "" else "0" + Zeros(k - 1)
  }

  lemma {:induction false} DigitsSkipZeros(k: nat, s: string)
    ensures Digits(Zeros(k) + s) == Digits(s)
    decreases k + |s|
  {
    var t := Zeros(k) + s;
    if s != "" {
      assert t[..|t| - 1] == Zeros(k) + s[..|s| - 1];
      DigitsSkipZeros(k, s[..|s| - 1]);
    } else if k > 0 {
      assert t[..|t| - 1] == Zeros(k - 1) + s;
      assert HexValue('0') == Some(0);
      DigitsSkipZeros(k - 1, s);
    }
  }

  lemma {:induction false} HexNumberWidth(n: nat, k: nat, bound: nat)
    requires n < bound
    requires bound == Pow16(k) && k > 0
    ensures |HexNumber(n)| <= k
    decreases k
  {
    if n >= 16 {
      HexNumberWidth(n / 16, k - 1, Pow16(k - 1));
    }
  }

  /** At most `k` hexadecimal digits stand for a number below 16 to the `k`. */
  lemma {:induction false} HexNumberBound(n: nat, k: nat)
    requires |HexNumber(n)| <= k
    ensures n < Pow16(k)
    decreases k
  {
    if n < 16 {
      assert Pow16(k) == 16 * Pow16(k - 1);
      Pow16Positive(k - 1);
    } else {
      HexNumberBound(n / 16, k - 1);
    }
  }

  lemma {:induction false} Pow16Positive(k: nat)
    ensures Pow16(k) >= 1
  {
    if k > 0 {
      Pow16Positive(k - 1);
    }
  }

  function Pow16(k: nat): nat {
    if k == 0 then 1 else 16 * Pow16(k - 1)
  }

  // ----- hexadecimal text of any kind -----

  /** A digit of either case, by its code. */
  lemma HexValueIs(c: char)
    ensures var n := c as int;
      HexValue(c) == if 48 <= n < 58 then Some(n - 48) else if 97 <= n < 103 then Some(n - 87)
                     else if 65 <= n < 71 then Some(n - 55) else None
  {
  }

  lemma {:induction false} FromHexLast(s: string, hi: char, lo: char)
    requires |s| % 2 == 0
    ensures FromHex(s + [hi, lo]) ==
            if FromHex(s).Some? && HexValue(hi).Some? && HexValue(lo).Some?
            then Some(FromHex(s).value + [16 * HexValue(hi).value + HexValue(lo).value]) else None
  {
    var t := s + [hi, lo];
    HexValueIs(hi);
    HexValueIs(lo);
    if s == "" {
      assert t[0] == hi && t[1] == lo && t[2..] == "" && FromHex(t[2..]) == FromHex(s) == Some([]);
      if HexValue(hi).Some? && HexValue(lo).Some? {
        var pair: seq<Byte> := [16 * HexValue(hi).value + HexValue(lo).value];
        assert pair + [] == [] + pair;
      }
    } else {
      assert t[2..] == s[2..] + [hi, lo];
      FromHexLast(s[2..], hi, lo);
      if FromHex(t).Some? {
        var pair := 16 * HexValue(s[0]).value + HexValue(s[1]).value;
        assert [pair] + (FromHex(s[2..]).value + [16 * HexValue(hi).value + HexValue(lo).value])
            == FromHex(s).value + [16 * HexValue(hi).value + HexValue(lo).value];
      }
    }
  }

  /** Text of even length reads as bytes exactly when it reads as a number, and then as the bytes of that number. */
  lemma {:induction false} FromHexIsDigits(s: string)
    requires |s| % 2 == 0
    ensures FromHex(s).Some? <==> Digits(s).Some?
    ensures FromHex(s).Some? ==> 2 * |FromHex(s).value| == |s| && FromBytes(FromHex(s).value) == Digits(s).value
  {
    if s != "" {
      var n := |s|;
      var front, hi, lo := s[..n - 2], s[n - 2], s[n - 1];
      FromHexIsDigits(front);
      FromHexLast(front, hi, lo);
      assert s == front + [hi, lo] && s[..n - 1][..n - 2] == front;
      if FromHex(s).Some? {
        var b, pair := FromHex(front).value, 16 * HexValue(hi).value + HexValue(lo).value;
        assert (b + [pair])[..|b|] == b;
      }
    }
  }

  lemma PaddedValue(raw: string)
    ensures var b := FromHexPadded(raw);
      && (b.Some? <==> Digits(raw).Some?)
      && (b.Some? ==> |b.value| == (|raw| + 1) / 2 && FromBytes(b.value) == Digits(raw).value)
  {
    var padded := if |raw| % 2 == 1 then "0" + raw else raw;
    FromHexIsDigits(padded);
    assert Zeros(1) == "0" by {
      assert Zeros(0) == "";
    }
    DigitsSkipZeros(1, raw);
  }

  /** `_hex_to_bytes` on any text, marked or not, of even or odd length, in either case: it is refused exactly when
      something in it is not a digit, and otherwise gives half as many bytes, rounded up, of the same number. */
  lemma HexToBytesValue(s: string)
    ensures var raw := RemoveOx(s); var b := HexToBytes(s);
      && (b.Some? <==> forall c :: c in raw ==> c in "0123456789abcdefABCDEF")
      && (b.Some? ==> Digits(raw).Some? && |b.value| == (|raw| + 1) / 2 && FromBytes(b.value) == Digits(raw).value)
  {
    PaddedValue(RemoveOx(s));
    DigitsIff(RemoveOx(s));
  }

  /** Text reads as a number exactly when every character is a digit. */
  lemma {:induction false} DigitsIff(s: string)
    ensures Digits(s).Some? <==> forall c :: c in s ==> c in "0123456789abcdefABCDEF"
  {
    if s != "" {
      var front, last := s[..|s| - 1], s[|s| - 1];
      DigitsIff(front);
      HexDigitIff(last);
      assert s == front + [last];
    }
  }

  lemma HexDigitIff(c: char)
    ensures HexValue(c).Some? <==> c in "0123456789abcdefABCDEF"
  {
    var all := "0123456789abcdefABCDEF";
    if '0' <= c <= '9' {
      assert c == all[c as int - '0' as int];
    } else if 'a' <= c <= 'f' {
      assert c == all[10 + c as int - 'a' as int];
    } else if 'A' <= c <= 'F' {
      assert c == all[16 + c as int - 'A' as int];
    }
  }
}
