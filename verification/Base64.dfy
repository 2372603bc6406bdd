/** The standard encoding of section 4 of RFC 4648, applied by the certificate creator to the password. */
module Base64 {
  import opened Wrappers

  type byte = x: int | 0 <= x < 256
  type Bytes = seq<byte>

  /** A value of six bits, or the padding. */
  type code = x: int | 0 <= x <= 64
  const PAD: code := 64

  /** The alphabet, as ASCII codes: A-Z, a-z, 0-9, +, / and = for the padding. */
  function Symbol(v: code): byte {
    if v < 26 then 65 + v
    else if v < 52 then 97 + v - 26
    else if v < 62 then 48 + v - 52
    else if v == 62 then 43
    else if v == 63 then 47
    else 61
  }

  /** The code of a symbol, or None for a byte outside the alphabet. */
  function Code(c: byte): Option<code> {
    if 65 <= c <= 90 then Some(c - 65)
    else if 97 <= c <= 122 then Some(c - 97 + 26)
    else if 48 <= c <= 57 then Some(c - 48 + 52)
    else if c == 43 then Some(62)
    else if c == 47 then Some(63)
    else if c == 61 then Some(PAD)
    else None
  }

  /** Three bytes as four codes. */
  function Split(b0: int, b1: int, b2: int): (v: seq<code>)
    requires 0 <= b0 < 256 && 0 <= b1 < 256 && 0 <= b2 < 256
    ensures |v| == 4 && PAD !in v
  {
    [b0 / 4, b0 % 4 * 16 + b1 / 16, b1 % 16 * 4 + b2 / 64, b2 % 64]
  }

  /** Four codes as three bytes. */
  function Merge(v0: int, v1: int, v2: int, v3: int): (b: Bytes)
    requires 0 <= v0 < 64 && 0 <= v1 < 64 && 0 <= v2 < 64 && 0 <= v3 < 64
    ensures |b| == 3
  {
    [v0 * 4 + v1 / 16, v1 % 16 * 16 + v2 / 4, v2 % 4 * 64 + v3]
  }

  /** Cuts groups of three bytes into four codes, and pads the last group. */
  function Cut(b: Bytes): seq<code> {
    if |b| == 0 then []
    else if |b| == 1 then Split(b[0], 0, 0)[..2] + [PAD, PAD]
    else if |b| == 2 then Split(b[0], b[1], 0)[..3] + [PAD]
    else Split(b[0], b[1], b[2]) + Cut(b[3..])
  }

  /** Joins groups of four codes; padding may only end the last group. */
  function Glue(v: seq<code>): Option<Bytes> {
    if |v| == 0 then Some([])
    else if |v| < 4 || v[0] == PAD || v[1] == PAD then None
    else if v[2] == PAD then
      if |v| == 4 && v[3] == PAD then Some(Merge(v[0], v[1], 0, 0)[..1]) else None
    else if v[3] == PAD then
      if |v| == 4 then Some(Merge(v[0], v[1], v[2], 0)[..2]) else None
    else
      match Glue(v[4..])
      case None => None
      case Some(rest) => Some(Merge(v[0], v[1], v[2], v[3]) + rest)
  }

  function Spell(codes: seq<code>): Bytes {
    seq(|codes|, i requires 0 <= i < |codes| => Symbol(codes[i]))
  }

  function Encode(b: Bytes): Bytes {
    Spell(Cut(b))
  }

  function Decode(s: Bytes): Option<Bytes> {
    if exists i :: 0 <= i < |s| && Code(s[i]).None? then None
    else Glue(seq(|s|, i requires 0 <= i < |s| => Code(s[i]).value))
  }

  lemma DecodeOfSpell(codes: seq<code>)
    ensures Decode(Spell(codes)) == Glue(codes)
  {
    var s := Spell(codes);
    assert forall i :: 0 <= i < |s| ==> Code(s[i]) == Some(codes[i]);
    assert seq(|s|, i requires 0 <= i < |s| => Code(s[i]).value) == codes;
  }

  lemma MergeOfSplit(b0: byte, b1: byte, b2: byte)
    ensures var v := Split(b0, b1, b2); Merge(v[0], v[1], v[2], v[3]) == [b0, b1, b2]
  {
  }

  lemma CutStep(b0: byte, b1: byte, b2: byte, rest: Bytes)
    ensures Cut([b0, b1, b2] + rest) == Split(b0, b1, b2) + Cut(rest)
  {
    assert ([b0, b1, b2] + rest)[3..] == rest;
  }

  lemma GlueStep(v: seq<code>, rest: seq<code>)
    requires |v| == 4 && PAD !in v && Glue(rest).Some?
    ensures Glue(v + rest) == Some(Merge(v[0], v[1], v[2], v[3]) + Glue(rest).value)
  {
    assert (v + rest)[4..] == rest;
  }

  lemma GlueOfOne(b0: byte)
    ensures Glue(Cut([b0])) == Some([b0])
  {
    var v := Split(b0, 0, 0);
    MergeOfSplit(b0, 0, 0);
    assert v[2] == 0 && v[3] == 0;
    assert Cut([b0]) == [v[0], v[1], PAD, PAD];
    assert Merge(v[0], v[1], 0, 0)[..1] == [b0];
  }

  lemma GlueOfTwo(b0: byte, b1: byte)
    ensures Glue(Cut([b0, b1])) == Some([b0, b1])
  {
    var v := Split(b0, b1, 0);
    MergeOfSplit(b0, b1, 0);
    assert v[3] == 0;
    assert Cut([b0, b1]) == [v[0], v[1], v[2], PAD];
    assert Merge(v[0], v[1], v[2], 0)[..2] == [b0, b1];
  }

  lemma {:induction false} GlueOfCut(b: Bytes)
    ensures Glue(Cut(b)) == Some(b)
  {
    if |b| == 1 {
      GlueOfOne(b[0]);
      assert b == [b[0]];
    } else if |b| == 2 {
      GlueOfTwo(b[0], b[1]);
      assert b == [b[0], b[1]];
    } else if |b| > 2 {
      var rest := b[3..];
      GlueOfCut(rest);
      CutStep(b[0], b[1], b[2], rest);
      assert b == [b[0], b[1], b[2]] + rest;
      MergeOfSplit(b[0], b[1], b[2]);
      GlueStep(Split(b[0], b[1], b[2]), Cut(rest));
    }
  }

  lemma {:induction false} CutLength(b: Bytes)
    ensures |Cut(b)| == (|b| + 2) / 3 * 4
  {
    if |b| > 2 {
      CutLength(b[3..]);
    }
  }

  /** Decoding recovers every byte string, and the padded length is that of EncodedLen. */
  lemma DecodeOfEncode(b: Bytes)
    ensures Decode(Encode(b)) == Some(b)
    ensures |Encode(b)| == (|b| + 2) / 3 * 4
  {
    DecodeOfSpell(Cut(b));
    GlueOfCut(b);
    CutLength(b);
  }

  /** The encoding is never the identity, except on the empty string. */
  lemma EncodeChanges(b: Bytes)
    ensures Encode(b) == b <==> b == []
  {
    DecodeOfEncode(b);
  }

  lemma EncodeInjective(a: Bytes, b: Bytes)
    ensures Encode(a) == Encode(b) <==> a == b
  {
    DecodeOfEncode(a);
    DecodeOfEncode(b);
  }
}
