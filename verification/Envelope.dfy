/** The unsigned EIP-1559 envelope of src/aether_forge/onchain_registry.py: `0x02 || rlp([...])`,
    as the Specification section of EIP-1559 lays it out. */
module Envelope {
  import opened Results
  import opened Bytes
  import opened Rlp

  /** The transaction dictionary; an absent key of the source is a `None`. */
  datatype Tx = Tx(
    chainId: Option<string>, nonce: Option<string>, maxPriorityFeePerGas: Option<string>,
    maxFeePerGas: Option<string>, gas: Option<string>, to: string, value: Option<string>, data: string)

  /** What the transaction says: six numbers and two byte strings. */
  datatype Fields = Fields(
    chainId: nat, nonce: nat, maxPriorityFeePerGas: nat, maxFeePerGas: nat, gas: nat,
    to: seq<Byte>, value: nat, data: seq<Byte>)

  function Number(text: Option<string>, default: string): Option<nat> {
    ParseInt16(text.GetOr(default))
  }

  /** Reads the dictionary; `None` where the source raises ValueError. */
  function ReadFields(tx: Tx): Option<Fields> {
    var chainId :- Number(tx.chainId, "0x2105");
    var nonce :- Number(tx.nonce, "0x0");
    var priority :- Number(tx.maxPriorityFeePerGas, "0x0");
    var maxFee :- Number(tx.maxFeePerGas, "0x0");
    var gas :- Number(tx.gas, "0x0");
    var to :- HexToBytes(tx.to);
    var value :- Number(tx.value, "0x0");
    var data :- HexToBytes(tx.data);
    Some(Fields(chainId, nonce, priority, maxFee, gas, to, value, data))
  }

  function RawFields(f: Fields): seq<seq<Byte>> {
    [ToBytes(f.chainId), ToBytes(f.nonce), ToBytes(f.maxPriorityFeePerGas), ToBytes(f.maxFeePerGas),
     ToBytes(f.gas), f.to, ToBytes(f.value), f.data, []]
  }

  function EncodeEach(raw: seq<seq<Byte>>): (r: Option<seq<seq<Byte>>>)
    ensures r.Some? ==> |r.value| == |raw|
  {
    if raw == [] then Some([])
    else
      var head :- EncodeItem(raw[0]);
      var tail :- EncodeEach(raw[1..]);
      Some([head] + tail)
  }

  /** The RLP payload: the last field is first encoded like the others and then overwritten with
      the empty access list. */
  function EncodeFields(f: Fields): Option<seq<Byte>> {
    var encoded :- EncodeEach(RawFields(f));
    var emptyList :- EncodeList([]);
    EncodeList(encoded[8 := emptyList])
  }

  /** `encode_eip1559_unsigned`. */
  function EncodeUnsigned(tx: Tx): Option<string> {
    var fields :- ReadFields(tx);
    var payload :- EncodeFields(fields);
    Some("0x02" + Hex(payload))
  }

  /** An independent reader of a type 2 envelope: the type byte, then one strict RLP list. */
  function DecodeEnvelope(text: string): Option<seq<Item>> {
    var bytes :- HexToBytes(text);
    if bytes == [] || bytes[0] != 2 then None
    else
      var (item, rest) :- DecodeOne(bytes[1..]);
      if rest == [] && item.List? then Some(item.items) else None
  }

  /** The nine items EIP-1559 prescribes, the ninth being an empty access list. */
  function Items(f: Fields): seq<Item> {
    [Text(ToBytes(f.chainId)), Text(ToBytes(f.nonce)), Text(ToBytes(f.maxPriorityFeePerGas)),
     Text(ToBytes(f.maxFeePerGas)), Text(ToBytes(f.gas)), Text(f.to), Text(ToBytes(f.value)),
     Text(f.data), List([])]
  }

  /** The length of the envelope's list payload, item by item. */
  function PayloadLength(f: Fields): Option<nat> {
    var encoded :- EncodeEach(RawFields(f));
    Some(|Join(encoded[8 := [0xC0]])|)
  }

  lemma JoinCovers(parts: seq<seq<Byte>>, i: nat)
    requires i < |parts|
    ensures |parts[i]| <= |Join(parts)|
  {
    if i > 0 {
      JoinCovers(parts[1..], i - 1);
    }
  }

  lemma {:induction false} EncodeEachAt(raw: seq<seq<Byte>>, i: nat)
    requires EncodeEach(raw).Some? && i < |raw|
    ensures EncodeItem(raw[i]) == Some(EncodeEach(raw).value[i])
    ensures |raw[i]| <= |EncodeEach(raw).value[i]|
  {
    if i > 0 {
      EncodeEachAt(raw[1..], i - 1);
    }
  }

  lemma {:induction false} EncodeAllJoin(xs: seq<Item>, parts: seq<seq<Byte>>)
    requires |xs| == |parts|
    requires forall i :: 0 <= i < |xs| ==> Encode(xs[i]) == Some(parts[i])
    ensures EncodeAll(xs) == Some(Join(parts))
  {
    if xs != [] {
      EncodeAllJoin(xs[1..], parts[1..]);
    }
  }

  lemma EmptyListByte()
    ensures EncodeList([]) == Some([0xC0])
  {
    var none: seq<seq<Byte>> := [];
    var nothing: seq<Byte> := [];
    assert Join(none) == nothing;
    assert [0xC0 + |nothing|] + nothing == [0xC0];
  }

  lemma ItemOfField(raw: seq<seq<Byte>>, xs: seq<Item>, parts: seq<seq<Byte>>, i: nat)
    requires |raw| == 9 && |xs| == 9 && i < 8
    requires EncodeEach(raw).Some? && parts == EncodeEach(raw).value[8 := [0xC0]]
    requires |Join(parts)| < TWO_TO_64
    requires xs[i] == Text(raw[i])
    ensures Encode(xs[i]) == Some(parts[i])
  {
    EncodeEachAt(raw, i);
    JoinCovers(parts, i);
  }

  lemma FieldsAreTexts(f: Fields, i: nat)
    requires i < 8
    ensures Items(f)[i] == Text(RawFields(f)[i])
  {
  }

  /** The encoder's payload is the specification's encoding of the nine items. */
  lemma FieldsAreList(f: Fields)
    requires EncodeFields(f).Some?
    ensures Encode(List(Items(f))) == EncodeFields(f)
  {
    EmptyListByte();
    var raw, xs := RawFields(f), Items(f);
    var parts := EncodeEach(raw).value[8 := [0xC0]];
    WrapListDefined(Join(parts));
    forall i | 0 <= i < |xs| ensures Encode(xs[i]) == Some(parts[i]) {
      if i < 8 {
        FieldsAreTexts(f, i);
        ItemOfField(raw, xs, parts, i);
      } else {
        assert xs[i] == List([]);
      }
    }
    EncodeAllJoin(xs, parts);
  }

  lemma TypeByte(text: string, payload: seq<Byte>)
    requires text == "0x02" + Hex(payload)
    ensures HexToBytes(text) == Some([2] + payload)
  {
    var tagged := [2] + payload;
    assert tagged[0] == 2 && tagged[1..] == payload;
    assert Hex(tagged) == "02" + Hex(payload) by {
      assert HexChar(0) == '0' && HexChar(2) == '2';
    }
    assert text == "0x" + Hex(tagged);
    HexToBytesRoundTrip(text, tagged);
  }

  lemma DecodeTagged(text: string, f: Fields)
    requires EncodeFields(f).Some? && text == "0x02" + Hex(EncodeFields(f).value)
    ensures DecodeEnvelope(text) == Some(Items(f))
  {
    var payload := EncodeFields(f).value;
    TypeByte(text, payload);
    DecodePayload(f);
    assert ([2] + payload)[0] == 2 && ([2] + payload)[1..] == payload;
  }

  lemma DecodePayload(f: Fields)
    requires EncodeFields(f).Some?
    ensures DecodeOne(EncodeFields(f).value) == Some((List(Items(f)), []))
  {
    FieldsAreList(f);
    DecodeEncode(List(Items(f)), []);
    assert EncodeFields(f).value + [] == EncodeFields(f).value;
  }

  /** Round trip: the strict decoder recovers exactly the eight fields and the empty access list. */
  lemma EnvelopeRoundTrip(tx: Tx)
    requires EncodeUnsigned(tx).Some?
    ensures ReadFields(tx).Some?
    ensures DecodeEnvelope(EncodeUnsigned(tx).value) == Some(Items(ReadFields(tx).value))
  {
    DecodeTagged(EncodeUnsigned(tx).value, ReadFields(tx).value);
  }

  /** What a reader makes of the nine items. */
  function FieldsOf(xs: seq<Item>): Option<Fields> {
    if |xs| != 9 || xs[8] != List([]) || exists i :: 0 <= i < 8 && !xs[i].Text? then None
    else Some(Fields(
      FromBytes(xs[0].bytes), FromBytes(xs[1].bytes), FromBytes(xs[2].bytes), FromBytes(xs[3].bytes),
      FromBytes(xs[4].bytes), xs[5].bytes, FromBytes(xs[6].bytes), xs[7].bytes))
  }

  /** The items say what the transaction said, and number fields carry no leading zero byte. */
  lemma ItemsMeanFields(f: Fields)
    ensures FieldsOf(Items(f)) == Some(f)
    ensures forall i :: i in {0, 1, 2, 3, 4, 6} ==> Items(f)[i].Text? && Minimal(Items(f)[i].bytes)
  {
    forall n: nat ensures FromBytes(ToBytes(n)) == n && Minimal(ToBytes(n)) {
      ToBytesSound(n);
    }
    var xs := Items(f);
    assert |xs| == 9 && xs[8] == List([]);
    assert forall i :: 0 <= i < 8 ==> xs[i].Text?;
  }

  /** Equal envelopes come from equal transactions: signing one envelope authorises one meaning. */
  lemma EnvelopeInjective(s: Tx, t: Tx)
    requires EncodeUnsigned(s).Some? && EncodeUnsigned(s) == EncodeUnsigned(t)
    ensures ReadFields(s) == ReadFields(t)
  {
    EnvelopeRoundTrip(s);
    EnvelopeRoundTrip(t);
    ItemsMeanFields(ReadFields(s).value);
    ItemsMeanFields(ReadFields(t).value);
  }

  // ----- from the text of the dictionary -----

  /** The key holds `hex(n)`, or is absent and `n` is its default. */
  ghost predicate Says(text: Option<string>, n: nat, default: nat) {
    text == Some("0x" + HexNumber(n)) || (text.None? && n == default)
  }

  lemma ReadsHex(n: nat)
    ensures ParseInt16("0x" + HexNumber(n)) == Some(n)
  {
    DigitsOfHexNumber(n);
    var s := "0x" + HexNumber(n);
    assert s[0] == '0' && s[1] == 'x' && s[2..] == HexNumber(n);
  }

  lemma DefaultsRead()
    ensures ParseInt16("0x2105") == Some(8453) && ParseInt16("0x0") == Some(0)
  {
    var s := "0x2105";
    assert s[2..] == "2105" && "2105"[..3] == "210" && "210"[..2] == "21" && "21"[..1] == "2" && "2"[..0] == "";
    assert Digits("2") == Some(2) && Digits("21") == Some(33) && Digits("210") == Some(528);
    assert "0x0"[2..] == "0" && "0"[..0] == "";
  }

  lemma NumberRead(text: Option<string>, n: nat, default: nat, written: string)
    requires Says(text, n, default) && ParseInt16(written) == Some(default)
    ensures Number(text, written) == Some(n)
  {
    ReadsHex(n);
  }

  /** Round trip from the dictionary: with each number written by `hex` or absent, and the byte strings written
      with their marker, the strict reader finds each value in its own place, and nothing else; and the
      encoder refuses the dictionary only for a payload of 2^64 bytes or more. */
  lemma DictionaryRoundTrip(tx: Tx, chainId: nat, nonce: nat, priority: nat, maxFee: nat, gas: nat,
                            to: seq<Byte>, value: nat, data: seq<Byte>)
    requires Says(tx.chainId, chainId, 8453) && Says(tx.nonce, nonce, 0)
    requires Says(tx.maxPriorityFeePerGas, priority, 0) && Says(tx.maxFeePerGas, maxFee, 0)
    requires Says(tx.gas, gas, 0) && Says(tx.value, value, 0)
    requires tx.to == "0x" + Hex(to) && tx.data == "0x" + Hex(data)
    ensures var length := PayloadLength(Fields(chainId := chainId, nonce := nonce, maxPriorityFeePerGas := priority,
                                               maxFeePerGas := maxFee, gas := gas, to := to, value := value, data := data));
      EncodeUnsigned(tx).Some? <==> length.Some? && length.value < TWO_TO_64
    ensures EncodeUnsigned(tx).Some? ==>
      var items := DecodeEnvelope(EncodeUnsigned(tx).value);
      && items.Some? && |items.value| == 9
      && (forall i :: 0 <= i < 8 ==> items.value[i].Text?)
      && FromBytes(items.value[0].bytes) == chainId && FromBytes(items.value[1].bytes) == nonce
      && FromBytes(items.value[2].bytes) == priority && FromBytes(items.value[3].bytes) == maxFee
      && FromBytes(items.value[4].bytes) == gas && items.value[5].bytes == to
      && FromBytes(items.value[6].bytes) == value && items.value[7].bytes == data
      && items.value[8] == List([])
  {
    DefaultsRead();
    NumberRead(tx.chainId, chainId, 8453, "0x2105");
    NumberRead(tx.nonce, nonce, 0, "0x0");
    NumberRead(tx.maxPriorityFeePerGas, priority, 0, "0x0");
    NumberRead(tx.maxFeePerGas, maxFee, 0, "0x0");
    NumberRead(tx.gas, gas, 0, "0x0");
    NumberRead(tx.value, value, 0, "0x0");
    HexToBytesRoundTrip(tx.to, to);
    HexToBytesRoundTrip(tx.data, data);
    var f := Fields(chainId, nonce, priority, maxFee, gas, to, value, data);
    FieldsDefined(f);
    if EncodeUnsigned(tx).Some? {
      DecodeTagged(EncodeUnsigned(tx).value, f);
      ItemsHold(f);
    }
  }

  lemma ItemsHold(f: Fields)
    ensures var xs := Items(f);
      && |xs| == 9 && (forall i :: 0 <= i < 8 ==> xs[i].Text?)
      && FromBytes(xs[0].bytes) == f.chainId && FromBytes(xs[1].bytes) == f.nonce
      && FromBytes(xs[2].bytes) == f.maxPriorityFeePerGas && FromBytes(xs[3].bytes) == f.maxFeePerGas
      && FromBytes(xs[4].bytes) == f.gas && xs[5].bytes == f.to
      && FromBytes(xs[6].bytes) == f.value && xs[7].bytes == f.data && xs[8] == List([])
  {
    ToBytesSound(f.chainId);
    ToBytesSound(f.nonce);
    ToBytesSound(f.maxPriorityFeePerGas);
    ToBytesSound(f.maxFeePerGas);
    ToBytesSound(f.gas);
    ToBytesSound(f.value);
    var xs := Items(f);
    assert |xs| == 9;
    assert forall i :: 0 <= i < 8 ==> xs[i].Text?;
  }

  ghost predicate Unreadable(text: Option<string>) {
    text.Some? && ParseInt16(text.value).None?
  }

  /** A dictionary with a key that cannot be read is refused, whichever key it is. */
  lemma UnreadableIsRefused(tx: Tx)
    requires Unreadable(tx.chainId) || Unreadable(tx.nonce) || Unreadable(tx.maxPriorityFeePerGas)
          || Unreadable(tx.maxFeePerGas) || Unreadable(tx.gas) || Unreadable(tx.value)
          || HexToBytes(tx.to).None? || HexToBytes(tx.data).None?
    ensures EncodeUnsigned(tx).None?
  {
  }

  lemma {:induction false} EncodeEachDefined(raw: seq<seq<Byte>>)
    requires forall i :: 0 <= i < |raw| ==> |raw[i]| < TWO_TO_64
    ensures EncodeEach(raw).Some?
  {
    if raw != [] {
      EightBytes(|raw[0]|);
      EncodeEachDefined(raw[1..]);
    }
  }

  /** The encoder fails exactly on unreadable fields and on a payload of 2^64 bytes or more. */
  lemma UnsignedDefined(tx: Tx)
    ensures EncodeUnsigned(tx).Some? <==>
      && ReadFields(tx).Some?
      && PayloadLength(ReadFields(tx).value).Some?
      && PayloadLength(ReadFields(tx).value).value < TWO_TO_64
  {
    if ReadFields(tx).Some? {
      FieldsDefined(ReadFields(tx).value);
    }
  }

  lemma FieldsDefined(f: Fields)
    ensures EncodeFields(f).Some? <==> PayloadLength(f).Some? && PayloadLength(f).value < TWO_TO_64
  {
    EmptyListByte();
    var encoded := EncodeEach(RawFields(f));
    if encoded.Some? {
      WrapListDefined(Join(encoded.value[8 := [0xC0]]));
    }
  }
}
