/** The pre-authentication encoding a DSSE signer signs, and the decoder that inverts it. */
module Pae {
  import opened Decimal
  import opened Merkle
  import opened Utf8
  import opened Wrappers

  const SPACE: Byte := 32

  /** "DSSEv1" and a space, in ASCII. */
  const PREFIX: Bytes := [68, 83, 83, 69, 118, 49, 32]

  /** The encoding with the lengths it is told to write. */
  function Framed(typeLength: nat, payloadType: string, payload: Bytes): Bytes {
    PREFIX + Encode(Digits(typeLength)) + [SPACE] + Encode(payloadType) + [SPACE]
    + Encode(Digits(|payload|)) + [SPACE] + payload
  }

  /** As the code writes it: the type's length counts characters. */
  function Encoding(payloadType: string, payload: Bytes): Bytes {
    Framed(|payloadType|, payloadType, payload)
  }

  /** As the DSSE protocol defines PAE: every length counts bytes. */
  function ProtocolEncoding(payloadType: string, payload: Bytes): Bytes {
    Framed(|Encode(payloadType)|, payloadType, payload)
  }

  /** A decimal number up to the next space, continuing from `sofar`, and what follows it. */
  function ReadNumber(b: Bytes, sofar: nat): Option<(nat, Bytes)> {
    if b == [] then None
    else if b[0] == SPACE then Some((sofar, b[1..]))
    else if 48 <= b[0] <= 57 then ReadNumber(b[1..], sofar * 10 + (b[0] as nat - 48))
    else None
  }

  function Decoding(b: Bytes): Option<(string, Bytes)> {
    if |b| < 7 then None
    else
      var length := ReadNumber(b[7..], 0);
      if length.None? then None
      else
        var text := Decode(length.value.1, length.value.0);
        if text.None? || text.value.1 == [] || text.value.1[0] != SPACE then None
        else
          var size := ReadNumber(text.value.1[1..], 0);
          if size.None? || |size.value.1| != size.value.0 then None
          else Some((text.value.0, size.value.1))
  }

  lemma DigitByte(d: nat)
    requires d < 10
    ensures Encode([Digit(d)]) == [(48 + d) as Byte]
  {
    assert [Digit(d)][1..] == [];
  }

  lemma {:induction false} ReadDigits(n: nat, tail: Bytes)
    ensures ReadNumber(Encode(Digits(n)) + tail, 0) == ReadNumber(tail, n)
  {
    DigitByte(n % 10);
    var last := [(48 + n % 10) as Byte];
    if n < 10 {
      assert (last + tail)[1..] == tail;
    } else {
      EncodeConcat(Digits(n / 10), [Digit(n % 10)]);
      assert Encode(Digits(n)) + tail == Encode(Digits(n / 10)) + (last + tail);
      ReadDigits(n / 10, last + tail);
      assert (last + tail)[1..] == tail;
    }
  }

  /** A number and the space that ends it read back. */
  lemma ReadField(n: nat, tail: Bytes)
    ensures ReadNumber(Encode(Digits(n)) + [SPACE] + tail, 0) == Some((n, tail))
  {
    assert Encode(Digits(n)) + [SPACE] + tail == Encode(Digits(n)) + ([SPACE] + tail);
    ReadDigits(n, [SPACE] + tail);
    assert ([SPACE] + tail)[1..] == tail;
  }

  lemma Regroup(a: Bytes, t: Bytes, z: Bytes, payload: Bytes)
    ensures (PREFIX + a + [SPACE] + t + [SPACE] + z + [SPACE] + payload)[7..]
         == a + [SPACE] + (t + ([SPACE] + z + [SPACE] + payload))
  {
    var rest := a + [SPACE] + (t + ([SPACE] + z + [SPACE] + payload));
    assert PREFIX + a + [SPACE] + t + [SPACE] + z + [SPACE] + payload == PREFIX + rest;
  }

  lemma AfterPrefix(typeLength: nat, payloadType: string, payload: Bytes)
    ensures
      var b := Framed(typeLength, payloadType, payload);
      && |b| >= 7
      && ReadNumber(b[7..], 0)
         == Some((typeLength, Encode(payloadType) + ([SPACE] + Encode(Digits(|payload|)) + [SPACE] + payload)))
  {
    var after := Encode(payloadType) + ([SPACE] + Encode(Digits(|payload|)) + [SPACE] + payload);
    Regroup(Encode(Digits(typeLength)), Encode(payloadType), Encode(Digits(|payload|)), payload);
    ReadField(typeLength, after);
  }

  /** The decoder inverts the encoding, for every type, ASCII or not, and every payload. */
  lemma DecodingInvertsEncoding(payloadType: string, payload: Bytes)
    ensures Decoding(Encoding(payloadType, payload)) == Some((payloadType, payload))
  {
    AfterPrefix(|payloadType|, payloadType, payload);
    var size := Encode(Digits(|payload|)) + [SPACE] + payload;
    assert [SPACE] + Encode(Digits(|payload|)) + [SPACE] + payload == [SPACE] + size;
    DecodeEncoded(payloadType, [SPACE] + size);
    assert ([SPACE] + size)[1..] == size;
    ReadField(|payload|, payload);
  }

  /** So a signature over one encoding is a signature over one type and one payload. */
  lemma EncodingIsInjective(type1: string, payload1: Bytes, type2: string, payload2: Bytes)
    ensures Encoding(type1, payload1) == Encoding(type2, payload2) <==> type1 == type2 && payload1 == payload2
  {
    DecodingInvertsEncoding(type1, payload1);
    DecodingInvertsEncoding(type2, payload2);
  }

  /** The code's encoding is the protocol's exactly where the type is ASCII; a signer and a
      verifier that count bytes would disagree with it on any other type. */
  lemma ProtocolFormIffAscii(payloadType: string, payload: Bytes)
    ensures Encoding(payloadType, payload) == ProtocolEncoding(payloadType, payload) <==> IsAscii(payloadType)
  {
    EncodedLength(payloadType);
    AfterPrefix(|payloadType|, payloadType, payload);
    AfterPrefix(|Encode(payloadType)|, payloadType, payload);
  }

  lemma SpaceByte()
    ensures Encode(" ") == [SPACE]
  {
    assert " "[1..] == [];
  }

  lemma PrefixText()
    ensures Encode("DSSEv1 ") == PREFIX
  {
    assert "DSSEv1 "[1..] == "SSEv1 " && "SSEv1 "[1..] == "SEv1 " && "SEv1 "[1..] == "Ev1 ";
    assert "Ev1 "[1..] == "v1 " && "v1 "[1..] == "1 " && "1 "[1..] == " ";
    SpaceByte();
    assert Encode("1 ") == [49] + Encode(" ") && Encode("v1 ") == [118] + Encode("1 ");
    assert Encode("Ev1 ") == [69] + Encode("v1 ") && Encode("SEv1 ") == [83] + Encode("Ev1 ");
    assert Encode("SSEv1 ") == [83] + Encode("SEv1 ");
  }

  /** The encoding of a text payload is itself one line of text: the version, the type's length
      and the type, the payload's length in bytes and the payload, a space between any two. */
  lemma EncodingIsText(payloadType: string, text: string)
    ensures Encoding(payloadType, Encode(text))
         == Encode("DSSEv1 " + Digits(|payloadType|) + " " + payloadType + " " + Digits(|Encode(text)|) + " " + text)
  {
    SpaceByte();
    PrefixText();
    var a, z := Digits(|payloadType|), Digits(|Encode(text)|);
    EncodeConcat("DSSEv1 ", a);
    EncodeConcat("DSSEv1 " + a, " ");
    EncodeConcat("DSSEv1 " + a + " ", payloadType);
    EncodeConcat("DSSEv1 " + a + " " + payloadType, " ");
    EncodeConcat("DSSEv1 " + a + " " + payloadType + " ", z);
    EncodeConcat("DSSEv1 " + a + " " + payloadType + " " + z, " ");
    EncodeConcat("DSSEv1 " + a + " " + payloadType + " " + z + " ", text);
  }
}
