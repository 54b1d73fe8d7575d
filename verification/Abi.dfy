/** The ABI helpers of src/aether_forge/onchain_registry.py: `uint256` words and dynamic strings, as the
    Formal Specification of the Encoding in the Solidity Contract ABI Specification lays them out.
    A string is its UTF-8 bytes. */
module Abi {
  import opened Results
  import opened Bytes

  const MAX_ABI_STRING_BYTES: nat := 8192
  const SEL_REGISTER_URI: string := "f2c298be"

  /** `_encode_uint256`: `hex(value)[2:].rjust(64, "0")`. */
  function EncodeUint256(value: nat): string {
    var digits := HexNumber(value);
    Zeros(if |digits| < 64 then 64 - |digits| else 0) + digits
  }

  /** `_decode_uint256`. */
  function DecodeUint256(text: string): Option<nat> {
    if text == "" || text == "0x" then Some(0) else ParseInt16(text)
  }

  /** Characters added by `encoded.ljust(((len(encoded) + 63) // 64) * 64, "0")`. */
  function Padding(length: nat): nat {
    (length + 63) / 64 * 64 - length
  }

  /** `_encode_string`; `None` is the ValueError of an over-long string. */
  function EncodeString(raw: seq<Byte>): Option<string> {
    if |raw| > MAX_ABI_STRING_BYTES then None
    else Some(EncodeUint256(|raw|) + (Hex(raw) + Zeros(Padding(2 * |raw|))))
  }

  /** `_encode_register_with_uri`. */
  function EncodeRegisterWithUri(uri: seq<Byte>): Option<string> {
    var body :- EncodeString(uri);
    Some("0x" + SEL_REGISTER_URI + EncodeUint256(32) + body)
  }

  /** A Python slice: bounds beyond the end are cut. */
  function Slice(s: string, i: nat, j: nat): string {
    if i >= |s| || j <= i then "" else if j >= |s| then s[i..] else s[i..j]
  }

  /** `_decode_string`: every malformed input gives the empty string. */
  function DecodeString(text: string): seq<Byte> {
    if text == "" || text == "0x" || |text| < 130 then []
    else DecodeWords(RemoveOx(text)).GetOr([])
  }

  function DecodeWords(raw: string): Option<seq<Byte>> {
    var word :- ParseInt16(Slice(raw, 0, 64));
    var offset := word * 2;
    var length :- ParseInt16(Slice(raw, offset, offset + 64));
    FromHex(Slice(raw, offset + 64, offset + 64 + length * 2))
  }

  lemma HexNumberAtMost64(n: nat)
    requires n <= MAX_ABI_STRING_BYTES
    ensures |HexNumber(n)| <= 64
  {
    assert Pow16(4) == 65536;
    HexNumberWidth(n, 4, Pow16(4));
  }

  lemma Uint256Word(n: nat)
    ensures ParseInt16(EncodeUint256(n)) == Some(n)
    ensures 'x' !in EncodeUint256(n)
    ensures n <= MAX_ABI_STRING_BYTES ==> |EncodeUint256(n)| == 64
  {
    DigitsOfHexNumber(n);
    var s := EncodeUint256(n);
    DigitsSkipZeros(|s| - |HexNumber(n)|, HexNumber(n));
    forall i | 0 <= i < |s| ensures s[i] != 'x' && s[i] != 'X' {
      HexNumberChar(n);
      assert s[i] == '0' || s[i] in HexNumber(n);
    }
    if n <= MAX_ABI_STRING_BYTES {
      HexNumberAtMost64(n);
    }
  }

  lemma {:induction false} HexNumberChar(n: nat)
    ensures 'x' !in HexNumber(n) && 'X' !in HexNumber(n)
  {
    HexCharValue(n % 16);
    assert HexValue('X') == None;
    if n >= 16 {
      HexNumberChar(n / 16);
    }
  }

  lemma WordExactly(n: nat, bound: nat)
    requires bound == Pow16(64)
    ensures |EncodeUint256(n)| == 64 <==> n < bound
  {
    if n < bound {
      HexNumberWidth(n, 64, bound);
    }
    if |EncodeUint256(n)| == 64 {
      HexNumberBound(n, 64);
    }
  }

  /** What the encoder writes reads back as the number, and is a word of 32 bytes exactly below 2^256: nothing
      stops a larger one, which then takes more digits. */
  lemma Uint256RoundTrip(n: nat)
    ensures DecodeUint256("0x" + EncodeUint256(n)) == Some(n)
    ensures |EncodeUint256(n)| == 64 <==> n < Pow16(64)
  {
    Uint256Word(n);
    WordExactly(n, Pow16(64));
    var s := EncodeUint256(n);
    DigitsOfHexNumber(n);
    DigitsSkipZeros(|s| - |HexNumber(n)|, HexNumber(n));
    var t := "0x" + s;
    assert t[2..] == s && |s| > 0;
  }

  lemma SlicesOfParts(head: string, size: string, body: string, pad: string)
    requires |head| == |size| == 64
    ensures var all := head + (size + (body + pad));
      Slice(all, 0, 64) == head && Slice(all, 64, 128) == size && Slice(all, 128, 128 + |body|) == body
  {
    var all := head + (size + (body + pad));
    assert all[0..64] == head;
    assert all[64..128] == size;
    assert all[128..128 + |body|] == body;
    assert |all| == 128 + |body| ==> all[128..] == body;
  }

  lemma DecodeWordsOfParts(head: string, size: string, body: string, pad: string, raw: seq<Byte>)
    requires |head| == |size| == 64 && |body| == 2 * |raw|
    requires ParseInt16(head) == Some(32) && ParseInt16(size) == Some(|raw|) && FromHex(body) == Some(raw)
    ensures DecodeWords(head + (size + (body + pad))) == Some(raw)
  {
    SlicesOfParts(head, size, body, pad);
  }

  lemma DecodeWordsOfEncoded(raw: seq<Byte>)
    requires EncodeString(raw).Some?
    ensures DecodeWords(EncodeUint256(32) + EncodeString(raw).value) == Some(raw)
    ensures |EncodeUint256(32) + EncodeString(raw).value| >= 128
  {
    Uint256Word(32);
    Uint256Word(|raw|);
    FromHexHex(raw);
    DecodeWordsOfParts(EncodeUint256(32), EncodeUint256(|raw|), Hex(raw), Zeros(Padding(2 * |raw|)), raw);
  }

  lemma NoMarkerInEncoded(raw: seq<Byte>)
    requires EncodeString(raw).Some?
    ensures 'x' !in EncodeUint256(32) + EncodeString(raw).value
  {
    Uint256Word(32);
    Uint256Word(|raw|);
    HexHasNoX(raw);
  }

  /** Round trip: the decoder of call results recovers every string the encoder accepts, the empty
      one included. */
  lemma StringRoundTrip(raw: seq<Byte>)
    ensures EncodeString(raw).Some? <==> |raw| <= 8192
    ensures EncodeString(raw).Some? ==> DecodeString("0x" + EncodeUint256(32) + EncodeString(raw).value) == raw
  {
    if EncodeString(raw).Some? {
      var words := EncodeUint256(32) + EncodeString(raw).value;
      DecodeWordsOfEncoded(raw);
      NoMarkerInEncoded(raw);
      assert "0x" + EncodeUint256(32) + EncodeString(raw).value == "0x" + words;
      RemoveOxMarker(words);
      RemoveOxIdle(words);
    }
  }

  /** The arguments of the registration call data, read after the selector, are the URI, and they
      fill whole 32-byte words. */
  lemma RegisterCallCarriesUri(uri: seq<Byte>)
    requires EncodeRegisterWithUri(uri).Some?
    ensures var call := EncodeRegisterWithUri(uri).value;
      && |call| >= 10 && call[2..10] == SEL_REGISTER_URI
      && DecodeString("0x" + call[10..]) == uri
      && (|call| - 10) % 64 == 0
  {
    var body := EncodeString(uri).value;
    var words := EncodeUint256(32) + body;
    var call := EncodeRegisterWithUri(uri).value;
    assert |SEL_REGISTER_URI| == 8;
    SelectorSplit(call, SEL_REGISTER_URI, EncodeUint256(32), body);
    StringRoundTrip(uri);
    assert "0x" + EncodeUint256(32) + body == "0x" + words;
    WordsFill(uri);
  }

  lemma SelectorSplit(call: string, selector: string, head: string, body: string)
    requires |selector| == 8 && call == "0x" + selector + head + body
    ensures |call| >= 10 && call[2..10] == selector && call[10..] == head + body
  {
  }

  lemma WordsFill(raw: seq<Byte>)
    requires EncodeString(raw).Some?
    ensures |EncodeUint256(32) + EncodeString(raw).value| % 64 == 0
  {
    Uint256Word(32);
    Uint256Word(|raw|);
  }

  /** An encoded string is its length word and the fewest whole words that hold it. */
  lemma EncodedLength(raw: seq<Byte>)
    requires EncodeString(raw).Some?
    ensures |EncodeString(raw).value| == 64 * (1 + (|raw| + 31) / 32)
  {
    Uint256Word(|raw|);
    assert (2 * |raw| + 63) / 64 == (|raw| + 31) / 32;
  }

  /** No answer, or an empty one, is zero and the empty string, and so is any string answer too short for its head
      and its length. */
  lemma EmptyAnswer(text: string)
    ensures text in {"", "0x"} ==> DecodeUint256(text) == Some(0)
    ensures |text| < 130 ==> DecodeString(text) == []
  {
  }
}
