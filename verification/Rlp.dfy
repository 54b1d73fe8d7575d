/** The RLP encoder of src/aether_forge/onchain_registry.py and the strict decoder of
    Appendix B of the Ethereum Yellow Paper, which is its specification. */
module Rlp {
  import opened Results
  import opened Bytes

  // ----- the encoder -----

  /** `bytes([base + len(length_bytes)]) + length_bytes + payload`; Python raises when the
      first value does not fit a byte. */
  function LongForm(base: nat, payload: seq<Byte>): Option<seq<Byte>> {
    var lengthBytes := ToBytes(|payload|);
    if base + |lengthBytes| > 255 then None else Some([base + |lengthBytes|] + lengthBytes + payload)
  }

  /** `_rlp_encode_item`. */
  function EncodeItem(data: seq<Byte>): Option<seq<Byte>> {
    if |data| == 1 && data[0] < 0x80 then Some(data)
    else if |data| <= 55 then Some([0x80 + |data|] + data)
    else LongForm(0xB7, data)
  }

  function Join(parts: seq<seq<Byte>>): seq<Byte> {
    if parts == [] then [] else parts[0] + Join(parts[1..])
  }

  /** `_rlp_encode_list`. */
  function EncodeList(parts: seq<seq<Byte>>): Option<seq<Byte>> {
    WrapList(Join(parts))
  }

  function WrapList(payload: seq<Byte>): Option<seq<Byte>> {
    if |payload| <= 55 then Some([0xC0 + |payload|] + payload) else LongForm(0xF7, payload)
  }

  // ----- structured items and the strict decoder -----

  datatype Item = Text(bytes: seq<Byte>) | List(items: seq<Item>)

  /** The RLP form of a structured item, built with the encoder; undefined from 2^64 bytes on. */
  function Encode(x: Item): Option<seq<Byte>>
    decreases x, 0
  {
    match x
    case Text(bytes) => if |bytes| < TWO_TO_64 then EncodeItem(bytes) else None
    case List(items) =>
      var payload :- EncodeAll(items);
      WrapList(payload)
  }

  function EncodeAll(xs: seq<Item>): Option<seq<Byte>>
    decreases xs, 0
  {
    if xs == [] then Some([])
    else
      var head :- Encode(xs[0]);
      var tail :- EncodeAll(xs[1..]);
      Some(head + tail)
  }

  /** Where the payload of the first item of a byte string lies. */
  datatype Header = Header(isList: bool, start: nat, length: nat)

  /** Reads `k` length bytes after the first byte: no leading zero, and more than 55. */
  function LongHeader(b: seq<Byte>, k: nat, isList: bool): Option<Header> {
    if |b| < 1 + k || k == 0 || b[1] == 0 then None
    else
      var n := FromBytes(b[1..1 + k]);
      if n <= 55 then None else Some(Header(isList, 1 + k, n))
  }

  function ParseHeader(b: seq<Byte>): (h: Option<Header>)
    ensures h.Some? ==> h.value.start + h.value.length <= |b| && h.value.start + h.value.length > 0
    ensures h.Some? && h.value.isList ==> h.value.start > 0
  {
    if b == [] then None
    else
      var first := b[0];
      var h :-
        if first < 0x80 then Some(Header(false, 0, 1))
        else if first < 0xB8 then
          if first == 0x81 && |b| > 1 && b[1] < 0x80 then None
          else Some(Header(false, 1, first - 0x80))
        else if first < 0xC0 then LongHeader(b, first - 0xB7, false)
        else if first < 0xF8 then Some(Header(true, 1, first - 0xC0))
        else LongHeader(b, first - 0xF7, true);
      if |b| < h.start + h.length then None else Some(h)
  }

  /** Strictly decodes the first item of `b`; the second component is what follows it. */
  function DecodeOne(b: seq<Byte>): (r: Option<(Item, seq<Byte>)>)
    ensures r.Some? ==> |r.value.1| < |b|
    decreases |b|, 0
  {
    var h :- ParseHeader(b);
    var payload := b[h.start..h.start + h.length];
    var rest := b[h.start + h.length..];
    if h.isList then
      var items :- DecodeAll(payload);
      Some((List(items), rest))
    else Some((Text(payload), rest))
  }

  function DecodeAll(b: seq<Byte>): Option<seq<Item>>
    decreases |b|, 1
  {
    if b == [] then Some([])
    else
      var (x, rest) :- DecodeOne(b);
      var xs :- DecodeAll(rest);
      Some([x] + xs)
  }

  // ----- headers: both directions -----

  function Wrap(isList: bool, payload: seq<Byte>): Option<seq<Byte>> {
    if isList then WrapList(payload) else if |payload| < TWO_TO_64 then EncodeItem(payload) else None
  }

  lemma LongFormHeader(base: nat, payload: seq<Byte>, rest: seq<Byte>, isList: bool)
    requires |payload| > 55 && base == (if isList then 0xF7 else 0xB7)
    requires |payload| < TWO_TO_64
    ensures LongForm(base, payload).Some?
    ensures var e := LongForm(base, payload).value;
      && ParseHeader(e + rest) == Some(Header(isList, |e| - |payload|, |payload|))
      && e[|e| - |payload|..] == payload
  {
    var lb := ToBytes(|payload|);
    EightBytes(|payload|);
    ToBytesSound(|payload|);
    var e := LongForm(base, payload).value;
    var b := e + rest;
    assert b[1..1 + |lb|] == lb;
    assert b[1] == lb[0];
    assert LongHeader(b, |lb|, isList) == Some(Header(isList, 1 + |lb|, |payload|));
  }

  lemma WrapHeader(isList: bool, payload: seq<Byte>, rest: seq<Byte>)
    requires Wrap(isList, payload).Some?
    ensures var e := Wrap(isList, payload).value;
      && |e| >= |payload| && e != []
      && ParseHeader(e + rest) == Some(Header(isList, |e| - |payload|, |payload|))
      && e[|e| - |payload|..] == payload
  {
    var e := Wrap(isList, payload).value;
    var b := e + rest;
    if |payload| > 55 {
      EightBytes(|payload|);
      LongFormHeader(if isList then 0xF7 else 0xB7, payload, rest, isList);
    } else if isList || |payload| != 1 || payload[0] >= 0x80 {
      assert b[0] == e[0];
      if |payload| > 0 {
        assert b[1] == payload[0];
      }
    } else {
      assert b[0] == payload[0];
    }
  }

  /** A long header is the first byte and the shortest bytes of a length below 2^64. */
  lemma LongHeaderBytes(b: seq<Byte>)
    requires ParseHeader(b).Some? && ParseHeader(b).value.length > 55
    ensures var h := ParseHeader(b).value;
      && h.length < TWO_TO_64 && h.start > 1
      && ToBytes(h.length) == b[1..h.start]
      && b[..h.start] == [b[0]] + b[1..h.start]
      && b[0] == (if h.isList then 0xF7 else 0xB7) + (h.start - 1)
  {
    var h := ParseHeader(b).value;
    var k := h.start - 1;
    var lb := b[1..1 + k];
    assert lb[0] == b[1];
    ToBytesComplete(lb);
    FromBytesBound(lb);
    Pow256Monotone(k, 8);
    Pow256Eight();
  }

  lemma HeaderWrap(b: seq<Byte>)
    requires ParseHeader(b).Some?
    ensures var h := ParseHeader(b).value;
      var payload := b[h.start..h.start + h.length];
      && Wrap(h.isList, payload).Some?
      && b == Wrap(h.isList, payload).value + b[h.start + h.length..]
  {
    var h := ParseHeader(b).value;
    var payload := b[h.start..h.start + h.length];
    var rest := b[h.start + h.length..];
    assert b == b[..h.start] + payload + rest;
    if h.length > 55 {
      LongHeaderBytes(b);
    } else if h.start == 1 {
      assert b[..1] == [b[0]];
      if h.length == 1 {
        assert payload[0] == b[1];
      }
    }
  }

  // ----- items: both directions -----

  /** Decoding undoes encoding, whatever follows the encoded item. */
  lemma {:induction false} DecodeEncode(x: Item, rest: seq<Byte>)
    requires Encode(x).Some?
    ensures DecodeOne(Encode(x).value + rest) == Some((x, rest))
    decreases x, 1
  {
    var e := Encode(x).value;
    var payload := if x.Text? then x.bytes else EncodeAll(x.items).value;
    WrapHeader(x.List?, payload, rest);
    var b := e + rest;
    assert b[|e| - |payload|..|e|] == payload;
    assert b[|e|..] == rest;
    if x.List? {
      DecodeEncodeAll(x.items);
    }
  }

  lemma {:induction false} DecodeEncodeAll(xs: seq<Item>)
    requires EncodeAll(xs).Some?
    ensures DecodeAll(EncodeAll(xs).value) == Some(xs)
    decreases xs, 1
  {
    if xs != [] {
      var tail := EncodeAll(xs[1..]).value;
      DecodeEncode(xs[0], tail);
      DecodeEncodeAll(xs[1..]);
      assert [xs[0]] + xs[1..] == xs;
    }
  }

  /** The strict decoder accepts nothing but the encoder's own output: re-encoding what it read
      gives back the same bytes. */
  lemma {:induction false} EncodeDecode(b: seq<Byte>)
    requires DecodeOne(b).Some?
    ensures var (x, rest) := DecodeOne(b).value;
      Encode(x).Some? && b == Encode(x).value + rest
    decreases |b|, 0
  {
    HeaderWrap(b);
    var h := ParseHeader(b).value;
    var payload := b[h.start..h.start + h.length];
    if h.isList {
      EncodeDecodeAll(payload);
    }
  }

  lemma {:induction false} EncodeDecodeAll(b: seq<Byte>)
    requires DecodeAll(b).Some?
    ensures EncodeAll(DecodeAll(b).value) == Some(b)
    decreases |b|, 1
  {
    if b != [] {
      EncodeDecode(b);
      var (x, rest) := DecodeOne(b).value;
      EncodeDecodeAll(rest);
      var xs := DecodeAll(rest).value;
      assert ([x] + xs)[1..] == xs;
    }
  }

  /** The two directions together: a byte string decodes to `x` followed by `rest` exactly when
      it is the encoding of `x` followed by `rest`. */
  lemma DecodesExactly(b: seq<Byte>, x: Item, rest: seq<Byte>)
    ensures DecodeOne(b) == Some((x, rest)) <==> Encode(x).Some? && b == Encode(x).value + rest
  {
    if DecodeOne(b) == Some((x, rest)) {
      EncodeDecode(b);
    }
    if Encode(x).Some? && b == Encode(x).value + rest {
      DecodeEncode(x, rest);
    }
  }

  /** No encoding is a proper prefix of another one, and different items have different encodings. */
  lemma PrefixFree(x: Item, y: Item, afterX: seq<Byte>, afterY: seq<Byte>)
    requires Encode(x).Some? && Encode(y).Some?
    requires Encode(x).value + afterX == Encode(y).value + afterY
    ensures x == y && afterX == afterY
  {
    DecodeEncode(x, afterX);
    DecodeEncode(y, afterY);
  }

  /** The list encoder raises exactly from 2^64 payload bytes on. */
  lemma WrapListDefined(payload: seq<Byte>)
    ensures WrapList(payload).Some? <==> |payload| < TWO_TO_64
  {
    EightBytes(|payload|);
  }
}
