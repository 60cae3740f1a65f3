/** Text as Unicode scalar values and its UTF-8 form (section 3 of RFC 3629), with the
    incremental strict decoder that pcbridge/files.py reads text through. */
module Utf8 {
  import opened Wrappers

  type Byte = n: int | 0 <= n < 256

  /** A code point written as the digits its UTF-8 form carries: the leading digit and one
      digit of six bits for every continuation byte. */
  datatype CodePoint =
    | One(a: nat)
    | Two(a: nat, b: nat)
    | Three(a: nat, b: nat, c: nat)
    | Four(a: nat, b: nat, c: nat, d: nat)

  /** The shortest form only, no surrogate (U+D800 to U+DFFF), nothing above U+10FFFF. */
  predicate IsScalar(x: CodePoint) {
    match x
    case One(a) => a < 0x80
    case Two(a, b) => 2 <= a < 32 && b < 64
    case Three(a, b, c) => a < 16 && b < 64 && c < 64 && (a == 0 ==> 32 <= b) && (a == 13 ==> b < 32)
    case Four(a, b, c, d) => a < 5 && b < 64 && c < 64 && d < 64 && (a == 0 ==> 16 <= b) && (a == 4 ==> b < 16)
  }

  type Scalar = x: CodePoint | IsScalar(x) witness One(0)
  type Text = seq<Scalar>

  const NL: Scalar := One(10)
  const CR: Scalar := One(13)

  function Enc(x: Scalar): (bs: seq<Byte>)
    ensures 1 <= |bs| <= 4
  {
    match x
    case One(a) => [a]
    case Two(a, b) => [0xC0 + a, 0x80 + b]
    case Three(a, b, c) => [0xE0 + a, 0x80 + b, 0x80 + c]
    case Four(a, b, c, d) => [0xF0 + a, 0x80 + b, 0x80 + c, 0x80 + d]
  }

  function Encode(t: Text): seq<Byte> {
    if t == [] then [] else Enc(t[0]) + Encode(t[1..])
  }

  datatype First = Char(c: Scalar, n: nat) | Incomplete | Invalid

  predicate Tail(b: Byte) {
    0x80 <= b < 0xC0
  }

  /** Which second bytes may follow: no overlong form, no surrogate, nothing above U+10FFFF. */
  predicate Second(b0: Byte, b1: Byte) {
    && Tail(b1)
    && (b0 == 0xE0 ==> 0xA0 <= b1)
    && (b0 == 0xED ==> b1 < 0xA0)
    && (b0 == 0xF0 ==> 0x90 <= b1)
    && (b0 == 0xF4 ==> b1 < 0x90)
  }

  /** How many bytes the sequence that starts with `b0` has; 0 if none does. */
  function Length(b0: Byte): nat {
    if b0 < 0x80 then 1 else if b0 < 0xC2 then 0 else if b0 < 0xE0 then 2
    else if b0 < 0xF0 then 3 else if b0 < 0xF5 then 4 else 0
  }

  predicate IllFormed(bs: seq<Byte>)
    requires bs != []
  {
    var need := Length(bs[0]);
    || need == 0
    || (need >= 2 && |bs| >= 2 && !Second(bs[0], bs[1]))
    || (need >= 3 && |bs| >= 3 && !Tail(bs[2]))
    || (need >= 4 && |bs| >= 4 && !Tail(bs[3]))
  }

  /** The first character of a byte sequence, as far as it can be told. */
  function DecodeOne(bs: seq<Byte>): (r: First)
    requires bs != []
    ensures r.Char? ==> 1 <= r.n <= |bs|
  {
    var need := Length(bs[0]);
    if IllFormed(bs) then Invalid
    else if |bs| < need then Incomplete
    else if need == 1 then Char(CodePoint.One(bs[0]), 1)
    else if need == 2 then Char(Two(bs[0] - 0xC0, bs[1] - 0x80), 2)
    else if need == 3 then Char(Three(bs[0] - 0xE0, bs[1] - 0x80, bs[2] - 0x80), 3)
    else Char(Four(bs[0] - 0xF0, bs[1] - 0x80, bs[2] - 0x80, bs[3] - 0x80), 4)
  }

  /** What one call of the incremental decoder makes of its bytes: the complete characters
      and the bytes kept for the next call, or a refusal. */
  datatype Decoded = Decoded(text: Text, rest: seq<Byte>) | Bad

  function Decode(bs: seq<Byte>): Decoded {
    if bs == [] then Decoded([], [])
    else match DecodeOne(bs)
      case Incomplete => Decoded([], bs)
      case Invalid => Bad
      case Char(c, n) =>
        match Decode(bs[n..])
        case Bad => Bad
        case Decoded(t, rest) => Decoded([c] + t, rest)
  }

  /** A whole file: strict, and nothing may be left over. */
  function DecodeAll(bs: seq<Byte>): Option<Text> {
    match Decode(bs)
    case Decoded(t, rest) => if rest == [] then Some(t) else None
    case Bad => None
  }

  // ------------------------------------------------------------- round trip

  lemma Assoc<T>(a: seq<T>, b: seq<T>, c: seq<T>)
    ensures a + (b + c) == (a + b) + c
  {
  }

  lemma DecodeOneEnc(c: Scalar, more: seq<Byte>)
    ensures DecodeOne(Enc(c) + more) == Char(c, |Enc(c)|)
  {
  }

  lemma DecodeOneSound(bs: seq<Byte>)
    requires bs != [] && DecodeOne(bs).Char?
    ensures bs == Enc(DecodeOne(bs).c) + bs[DecodeOne(bs).n..]
  {
  }

  lemma PartOfOneIsIncomplete(c: Scalar, n: nat)
    requires 0 < n < |Enc(c)|
    ensures DecodeOne(Enc(c)[..n]) == Incomplete
  {
  }

  lemma {:induction false} EncodeJoins(a: Text, b: Text)
    ensures Encode(a + b) == Encode(a) + Encode(b)
  {
    if a == [] {
      assert a + b == b;
    } else {
      EncodeJoins(a[1..], b);
      assert (a + b)[1..] == a[1..] + b;
      Assoc(Enc(a[0]), Encode(a[1..]), Encode(b));
    }
  }

  lemma EncodeCons(c: Scalar, t: Text)
    ensures Encode([c] + t) == Enc(c) + Encode(t)
  {
    assert ([c] + t)[1..] == t;
  }

  lemma DecodeCons(c: Scalar, more: seq<Byte>)
    requires Decode(more).Decoded?
    ensures Decode(Enc(c) + more) == Decoded([c] + Decode(more).text, Decode(more).rest)
  {
    DecodeOneEnc(c, more);
    assert (Enc(c) + more)[|Enc(c)|..] == more;
  }

  /** What `DecodePrefix` says about the first `n` bytes of a text. */
  ghost predicate SplitsAt(t: Text, n: nat)
    requires n <= |Encode(t)|
  {
    var d := Decode(Encode(t)[..n]);
    && d.Decoded? && d.text <= t
    && Encode(t)[..n] == Encode(d.text) + d.rest
    && (n == |Encode(t)| ==> d.text == t && d.rest == [])
  }

  lemma TakeJoin(e: seq<Byte>, s: seq<Byte>, m: nat)
    requires m <= |s|
    ensures (e + s)[..|e| + m] == e + s[..m]
  {
  }

  lemma SplitCons(c: Scalar, u: Text, m: nat)
    requires m <= |Encode(u)| && SplitsAt(u, m)
    ensures |Enc(c)| + m <= |Encode([c] + u)| && SplitsAt([c] + u, |Enc(c)| + m)
  {
    var e, sub := Enc(c), Encode(u)[..m];
    EncodeCons(c, u);
    TakeJoin(e, Encode(u), m);
    DecodeCons(c, sub);
    var d := Decode(sub);
    EncodeCons(c, d.text);
    Assoc(e, Encode(d.text), d.rest);
  }

  /** The decoder splits any prefix of a valid stream into whole characters and a remainder
      shorter than one, wherever the stream was cut. */
  lemma {:induction false} DecodePrefix(t: Text, n: nat)
    requires n <= |Encode(t)|
    ensures SplitsAt(t, n)
  {
    if n == 0 || t == [] {
    } else if n < |Enc(t[0])| {
      assert Encode(t)[..n] == Enc(t[0])[..n];
      PartOfOneIsIncomplete(t[0], n);
    } else {
      var m := n - |Enc(t[0])|;
      DecodePrefix(t[1..], m);
      SplitCons(t[0], t[1..], m);
      assert [t[0]] + t[1..] == t;
    }
  }

  /** Whatever the decoder accepts is the UTF-8 form of its answer. */
  lemma {:induction false} DecodeSound(bs: seq<Byte>)
    ensures Decode(bs).Decoded? ==> bs == Encode(Decode(bs).text) + Decode(bs).rest
    decreases |bs|
  {
    if bs != [] && DecodeOne(bs).Char? {
      var c, n := DecodeOne(bs).c, DecodeOne(bs).n;
      DecodeSound(bs[n..]);
      DecodeOneSound(bs);
      if Decode(bs[n..]).Decoded? {
        var t, rest := Decode(bs[n..]).text, Decode(bs[n..]).rest;
        EncodeCons(c, t);
        calc {
          bs;
          Enc(c) + (Encode(t) + rest);
          { Assoc(Enc(c), Encode(t), rest); }
          Encode([c] + t) + rest;
        }
      }
    }
  }

  lemma {:induction false} DecodeJoins(t: Text, more: seq<Byte>)
    ensures Decode(more).Bad? ==> Decode(Encode(t) + more).Bad?
    ensures Decode(more).Decoded? ==>
              Decode(Encode(t) + more) == Decoded(t + Decode(more).text, Decode(more).rest)
  {
    if t == [] {
      assert Encode(t) + more == more;
      if Decode(more).Decoded? {
        assert t + Decode(more).text == Decode(more).text;
      }
    } else {
      DecodeJoins(t[1..], more);
      var sub := Encode(t[1..]) + more;
      Assoc(Enc(t[0]), Encode(t[1..]), more);
      DecodeOneEnc(t[0], sub);
      assert (Enc(t[0]) + sub)[|Enc(t[0])|..] == sub;
      if Decode(more).Decoded? {
        Assoc([t[0]], t[1..], Decode(more).text);
        assert [t[0]] + t[1..] == t;
      }
    }
  }

  /** Decoding goes on from the bytes the last call kept. */
  lemma DecodeMore(bs: seq<Byte>, raw: seq<Byte>)
    requires Decode(bs).Decoded?
    ensures var d, e := Decode(bs), Decode(Decode(bs).rest + raw);
            Decode(bs + raw) == if e.Bad? then Bad else Decoded(d.text + e.text, e.rest)
  {
    var d := Decode(bs);
    DecodeSound(bs);
    Assoc(Encode(d.text), d.rest, raw);
    DecodeJoins(d.text, d.rest + raw);
  }

  /** A file is valid UTF-8 with text `t` exactly when it is the encoding of `t`. */
  lemma DecodeAllExact(bs: seq<Byte>, t: Text)
    ensures DecodeAll(bs) == Some(t) <==> bs == Encode(t)
  {
    DecodeSound(bs);
    if bs == Encode(t) {
      DecodePrefix(t, |bs|);
      assert Encode(t)[..|bs|] == bs;
    }
  }

  lemma EncodeInjective(a: Text, b: Text)
    requires Encode(a) == Encode(b)
    ensures a == b
  {
    DecodeAllExact(Encode(a), a);
    DecodeAllExact(Encode(a), b);
  }
}
