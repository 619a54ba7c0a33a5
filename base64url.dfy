/**
 * The base64url transport encoding of section 5 of RFC 4648, as the ingestion
 * loop decodes message bodies and attachment payloads with Python's
 * `base64.urlsafe_b64decode`.
 *
 * The decoder accepts whole quanta of alphabet characters, where only the last
 * quantum may end in one or two pads ("xx==" or "xxx="). Like the Python
 * decoder it also reads '+' and '/' (the standard alphabet of section 4) as 62
 * and 63, and it ignores the unused low bits of a padded final quantum. Every
 * other input makes the decoder fail, which the ingestion loop turns into an
 * abort. Python's non-validating decoder reads text by a more lenient rule:
 * it drops every character outside the alphabet; it ignores every pad that
 * does not complete a quantum (any pad in the first or second position, and a
 * single pad in the third position followed by data, as in "QU=QU"); it stops
 * at the first pad that completes a quantum, ignoring what follows; and it
 * fails only when the text ends inside a quantum.
 */
module Base64Url {
  import opened Wrappers

  newtype Byte = x: int | 0 <= x < 256

  /** The six-bit value carried by one character of encoded text. */
  type Sextet = x: int | 0 <= x < 64

  const Pad: char := '='

  /** The value of an alphabet character, or None for anything else (including the pad). */
  function SextetOf(c: char): (v: Option<Sextet>)
    ensures c == Pad ==> v.None?
  {
    if 'A' <= c <= 'Z' then Some(c as int - 'A' as int)
    else if 'a' <= c <= 'z' then Some(c as int - 'a' as int + 26)
    else if '0' <= c <= '9' then Some(c as int - '0' as int + 52)
    else if c == '-' || c == '+' then Some(62)
    else if c == '_' || c == '/' then Some(63)
    else None
  }

  /** The url-safe alphabet character that encodes `v`. */
  function CharOf(v: Sextet): (c: char)
    ensures SextetOf(c) == Some(v)
    ensures c != '+' && c != '/' && c != Pad
  {
    if v < 26 then ('A' as int + v) as char
    else if v < 52 then ('a' as int + (v - 26)) as char
    else if v < 62 then ('0' as int + (v - 52)) as char
    else if v == 62 then '-'
    else '_'
  }

  /** True of the characters the encoder emits: the url-safe alphabet and the pad. */
  predicate UrlSafe(c: char)
  {
    c == Pad || (SextetOf(c).Some? && c != '+' && c != '/')
  }

  /** Decodes one four-character quantum; padding is allowed only when it is the last one. */
  function DecodeQuantum(q: string, last: bool): (r: Option<seq<Byte>>)
    requires |q| == 4
    ensures r.Some? ==> 1 <= |r.value| <= 3
    ensures r.Some? && |r.value| < 3 ==> last && q[3] == Pad
    ensures r.Some? && |r.value| == 3 ==> Pad !in q
  {
    var a, b, c, d := SextetOf(q[0]), SextetOf(q[1]), SextetOf(q[2]), SextetOf(q[3]);
    if a.None? || b.None? then None
    else if c.Some? && d.Some? then
      Some([(a.value * 4 + b.value / 16) as Byte,
            ((b.value % 16) * 16 + c.value / 4) as Byte,
            ((c.value % 4) * 64 + d.value) as Byte])
    else if last && c.Some? && q[3] == Pad then
      Some([(a.value * 4 + b.value / 16) as Byte,
            ((b.value % 16) * 16 + c.value / 4) as Byte])
    else if last && q[2] == Pad && q[3] == Pad then
      Some([(a.value * 4 + b.value / 16) as Byte])
    else None
  }

  /** Decodes padded base64url text; None where Python's decoder would raise. */
  function Decode(s: string): (r: Option<seq<Byte>>)
    ensures r.Some? ==> |s| % 4 == 0
    ensures r.Some? ==> |s| / 4 * 3 - 2 <= |r.value| <= |s| / 4 * 3
    ensures r.Some? && Pad !in s ==> |r.value| == |s| / 4 * 3
    decreases |s|
  {
    if |s| == 0 then Some([])
    else if |s| < 4 then None
    else
      var head := DecodeQuantum(s[..4], |s| == 4);
      if head.None? then None
      else if |s| == 4 then head
      else
        var tail := Decode(s[4..]);
        if tail.None? then None
        else Some(head.value + tail.value)
  }

  /** Encodes one quantum of one to three bytes as four characters, padding a short one. */
  function EncodeQuantum(b: seq<Byte>): (q: string)
    requires 1 <= |b| <= 3
    ensures |q| == 4
    ensures forall i :: 0 <= i < 4 ==> UrlSafe(q[i])
  {
    var x := b[0] as int;
    if |b| == 1 then
      [CharOf(x / 4), CharOf((x % 4) * 16), Pad, Pad]
    else
      var y := b[1] as int;
      if |b| == 2 then
        [CharOf(x / 4), CharOf((x % 4) * 16 + y / 16), CharOf((y % 16) * 4), Pad]
      else
        var z := b[2] as int;
        [CharOf(x / 4), CharOf((x % 4) * 16 + y / 16), CharOf((y % 16) * 4 + z / 64), CharOf(z % 64)]
  }

  /** Encodes bytes as padded base64url text (the inverse the source relies on). */
  function Encode(b: seq<Byte>): (s: string)
    ensures |s| == (|b| + 2) / 3 * 4
    ensures forall i :: 0 <= i < |s| ==> UrlSafe(s[i])
    decreases |b|
  {
    if |b| == 0 then ""
    else if |b| <= 3 then EncodeQuantum(b)
    else EncodeQuantum(b[..3]) + Encode(b[3..])
  }

  /** Decoding the encoding of any byte string gives that byte string back. */
  lemma {:induction false} DecodeEncode(b: seq<Byte>)
    ensures Decode(Encode(b)) == Some(b)
    decreases |b|
  {
    if |b| == 0 {
    } else if |b| <= 3 {
      QuantumRoundTrip(b);
    } else {
      var s, head, rest := Encode(b), b[..3], Encode(b[3..]);
      assert s == EncodeQuantum(head) + rest;
      assert |rest| >= 4;
      QuantumRoundTrip(head);
      DecodeEncode(b[3..]);
      assert s[..4] == EncodeQuantum(head);
      assert s[4..] == rest;
      assert Decode(s) == Some(head + b[3..]);
      assert b == head + b[3..];
    }
  }

  /** One quantum of one, two or three bytes survives encoding then decoding. */
  lemma QuantumRoundTrip(b: seq<Byte>)
    requires 1 <= |b| <= 3
    ensures DecodeQuantum(EncodeQuantum(b), |b| < 3) == Some(b)
    ensures DecodeQuantum(EncodeQuantum(b), true) == Some(b)
  {
    if |b| == 1 {
      OneByteRoundTrip(b[0]);
      assert [b[0]] == b;
    } else if |b| == 2 {
      TwoBytesRoundTrip(b[0], b[1]);
      assert [b[0], b[1]] == b;
    } else {
      ThreeBytesRoundTrip(b[0], b[1], b[2]);
      assert [b[0], b[1], b[2]] == b;
    }
  }

  lemma OneByteRoundTrip(x: Byte)
    ensures DecodeQuantum(EncodeQuantum([x]), true) == Some([x])
  {
    var q := EncodeQuantum([x]);
    var s0, s1 := x as int / 4, (x as int % 4) * 16;
    assert SextetOf(q[0]) == Some(s0) && SextetOf(q[1]) == Some(s1);
    assert q[2] == Pad && q[3] == Pad;
    assert (s0 * 4 + s1 / 16) as Byte == x;
  }

  lemma TwoBytesRoundTrip(x: Byte, y: Byte)
    ensures DecodeQuantum(EncodeQuantum([x, y]), true) == Some([x, y])
  {
    var q := EncodeQuantum([x, y]);
    var s0, s1, s2 := x as int / 4, (x as int % 4) * 16 + y as int / 16, (y as int % 16) * 4;
    assert SextetOf(q[0]) == Some(s0) && SextetOf(q[1]) == Some(s1) && SextetOf(q[2]) == Some(s2);
    assert q[3] == Pad;
    assert (s0 * 4 + s1 / 16) as Byte == x;
    assert ((s1 % 16) * 16 + s2 / 4) as Byte == y;
  }

  lemma ThreeBytesRoundTrip(x: Byte, y: Byte, z: Byte)
    ensures forall last :: DecodeQuantum(EncodeQuantum([x, y, z]), last) == Some([x, y, z])
  {
    var q := EncodeQuantum([x, y, z]);
    var s0, s1 := x as int / 4, (x as int % 4) * 16 + y as int / 16;
    var s2, s3 := (y as int % 16) * 4 + z as int / 64, z as int % 64;
    assert SextetOf(q[0]) == Some(s0) && SextetOf(q[1]) == Some(s1);
    assert SextetOf(q[2]) == Some(s2) && SextetOf(q[3]) == Some(s3);
    assert (s0 * 4 + s1 / 16) as Byte == x;
    assert ((s1 % 16) * 16 + s2 / 4) as Byte == y;
    assert ((s2 % 4) * 64 + s3) as Byte == z;
  }

  /**
   * Decoding rejects text that is not a whole number of quanta; for text of
   * alphabet characters only, Python's decoder raises here too (an
   * "Incorrect padding" or invalid-length error). A corollary of Decode's
   * contract.
   */
  lemma DecodeRejectsRaggedLength(s: string)
    requires |s| % 4 != 0
    ensures Decode(s) == None
  {
  }
}
