/** Base64 (section 4 of RFC 4648), with and without its padding. */
module Base64 {
  import opened Wrappers
  import opened Utf8

  type Digit = n: int | 0 <= n < 64

  function ToChar(n: Digit): char {
    if n < 26 then ('A' as int + n) as char
    else if n < 52 then ('a' as int + (n - 26)) as char
    else if n < 62 then ('0' as int + (n - 52)) as char
    else if n == 62 then '+' else '/'
  }

  function FromChar(c: char): Option<Digit> {
    if 'A' <= c <= 'Z' then Some(c as int - 'A' as int)
    else if 'a' <= c <= 'z' then Some(c as int - 'a' as int + 26)
    else if '0' <= c <= '9' then Some(c as int - '0' as int + 52)
    else if c == '+' then Some(62) else if c == '/' then Some(63) else None
  }

  function Chars(ds: seq<Digit>): string {
    seq(|ds|, i requires 0 <= i < |ds| => ToChar(ds[i]))
  }

  /** The six-bit digits of a byte string; the last one is filled up with zero bits. */
  function Digits(bs: seq<Byte>): (ds: seq<Digit>)
    ensures |ds| == (|bs| * 4 + 2) / 3
  {
    if |bs| == 0 then []
    else if |bs| == 1 then [bs[0] / 4, bs[0] % 4 * 16]
    else if |bs| == 2 then [bs[0] / 4, bs[0] % 4 * 16 + bs[1] / 16, bs[1] % 16 * 4]
    else [bs[0] / 4, bs[0] % 4 * 16 + bs[1] / 16, bs[1] % 16 * 4 + bs[2] / 64, bs[2] % 64] + Digits(bs[3..])
  }

  function First(p: int, q: int): (b: Byte)
    requires 0 <= p < 64 && 0 <= q < 64
  {
    p * 4 + q / 16
  }

  function Second(q: int, r: int): (b: Byte)
    requires 0 <= q < 64 && 0 <= r < 64
  {
    q % 16 * 16 + r / 4
  }

  function Third(r: int, s: int): (b: Byte)
    requires 0 <= r < 64 && 0 <= s < 64
  {
    r % 4 * 64 + s
  }

  /** The bytes of six-bit digits; a single digit left over makes none. */
  function Bytes(ds: seq<Digit>): Option<seq<Byte>> {
    if |ds| == 0 then Some([])
    else if |ds| == 1 then None
    else if |ds| == 2 then Some([First(ds[0], ds[1])])
    else if |ds| == 3 then Some([First(ds[0], ds[1]), Second(ds[1], ds[2])])
    else match Bytes(ds[4..])
      case None => None
      case Some(more) =>
        Some([First(ds[0], ds[1]), Second(ds[1], ds[2]), Third(ds[2], ds[3])] + more)
  }

  /** How many `=` make a length a multiple of four. */
  function PadLength(n: nat): nat {
    (4 - n % 4) % 4
  }

  function Padding(n: nat): string {
    seq(PadLength(n), _ => '=')
  }

  function Encode64(bs: seq<Byte>): string {
    var text := Chars(Digits(bs));
    text + Padding(|text|)
  }

  /** `rstrip("=")`. */
  function StripPad(s: string): string {
    if s != [] && s[|s| - 1] == '=' then StripPad(s[..|s| - 1]) else s
  }

  function AllDigits(s: string): Option<seq<Digit>> {
    if s == [] then Some([])
    else match FromChar(s[0])
      case None => None
      case Some(d) =>
        match AllDigits(s[1..])
        case None => None
        case Some(more) => Some([d] + more)
  }

  /** Strict decoding: only alphabet characters, then exactly the padding that is due. */
  function Decode64(s: string): Option<seq<Byte>> {
    var text := StripPad(s);
    if s != text + Padding(|text|) then None
    else match AllDigits(text)
      case None => None
      case Some(ds) => Bytes(ds)
  }

  // ------------------------------------------------------------- round trips

  lemma DigitChar(n: Digit)
    ensures FromChar(ToChar(n)) == Some(n) && ToChar(n) != '='
  {
  }

  lemma {:induction false} AllDigitsChars(ds: seq<Digit>)
    ensures AllDigits(Chars(ds)) == Some(ds)
    ensures forall i :: 0 <= i < |ds| ==> Chars(ds)[i] != '='
  {
    if ds != [] {
      AllDigitsChars(ds[1..]);
      DigitChar(ds[0]);
      assert Chars(ds)[1..] == Chars(ds[1..]);
      assert [ds[0]] + ds[1..] == ds;
      forall i | 0 <= i < |ds|
        ensures Chars(ds)[i] != '='
      {
        DigitChar(ds[i]);
      }
    }
  }

  lemma ThreeBytes(a: Byte, b: Byte, c: Byte)
    ensures var p, q, r, s := a / 4, a % 4 * 16 + b / 16, b % 16 * 4 + c / 64, c % 64;
            && 0 <= p < 64 && 0 <= q < 64 && 0 <= r < 64 && 0 <= s < 64
            && First(p, q) == a && Second(q, r) == b && Third(r, s) == c
  {
  }

  /** The four digits of three bytes. */
  function Quad(a: Byte, b: Byte, c: Byte): seq<Digit> {
    [a / 4, a % 4 * 16 + b / 16, b % 16 * 4 + c / 64, c % 64]
  }

  lemma QuadFirst(a: Byte, b: Byte, c: Byte, ds: seq<Digit>)
    requires Bytes(ds).Some?
    ensures Bytes(Quad(a, b, c) + ds) == Some([a, b, c] + Bytes(ds).value)
  {
    ThreeBytes(a, b, c);
    assert (Quad(a, b, c) + ds)[4..] == ds;
  }

  lemma OneByte(a: Byte)
    ensures Bytes(Digits([a])) == Some([a])
  {
    var ds: seq<Digit> := [a / 4, a % 4 * 16];
    assert Digits([a]) == ds;
    assert First(ds[0], ds[1]) == a;
  }

  lemma TwoBytes(a: Byte, b: Byte)
    ensures Bytes(Digits([a, b])) == Some([a, b])
  {
    ThreeBytes(a, b, 0);
    var ds: seq<Digit> := [a / 4, a % 4 * 16 + b / 16, b % 16 * 4];
    assert Digits([a, b]) == ds;
    assert First(ds[0], ds[1]) == a;
    assert Second(ds[1], ds[2]) == b;
  }

  lemma {:induction false} BytesDigits(bs: seq<Byte>)
    ensures Bytes(Digits(bs)) == Some(bs)
  {
    if |bs| == 0 {
      assert bs == [];
    } else if |bs| == 1 {
      OneByte(bs[0]);
      assert bs == [bs[0]];
    } else if |bs| == 2 {
      TwoBytes(bs[0], bs[1]);
      assert bs == [bs[0], bs[1]];
    } else {
      BytesDigits(bs[3..]);
      QuadFirst(bs[0], bs[1], bs[2], Digits(bs[3..]));
      assert Digits(bs) == Quad(bs[0], bs[1], bs[2]) + Digits(bs[3..]);
      assert bs == [bs[0], bs[1], bs[2]] + bs[3..];
    }
  }

  lemma {:induction false} StripPadding(text: string, n: nat)
    requires forall i :: 0 <= i < |text| ==> text[i] != '='
    ensures StripPad(text + seq(n, _ => '=')) == text
  {
    var s := text + seq(n, _ => '=');
    if n > 0 {
      assert s[..|s| - 1] == text + seq(n - 1, _ => '=');
      StripPadding(text, n - 1);
    } else {
      assert s == text;
    }
  }

  /** Decoding undoes encoding, for every byte string. */
  lemma DecodeEncode64(bs: seq<Byte>)
    ensures Decode64(Encode64(bs)) == Some(bs)
  {
    var text := Chars(Digits(bs));
    AllDigitsChars(Digits(bs));
    StripPadding(text, PadLength(|text|));
    BytesDigits(bs);
  }

  /** Four characters for every three bytes or part of them. */
  lemma EncodedLength(bs: seq<Byte>)
    ensures |Encode64(bs)| == (|bs| + 2) / 3 * 4
  {
  }

  lemma DigitsStep(bs: seq<Byte>)
    requires |bs| >= 3
    ensures Digits(bs) == Quad(bs[0], bs[1], bs[2]) + Digits(bs[3..])
  {
  }

  lemma TailJoin(a: seq<Byte>, b: seq<Byte>)
    requires |a| >= 3
    ensures (a + b)[3..] == a[3..] + b
    ensures (a + b)[0] == a[0] && (a + b)[1] == a[1] && (a + b)[2] == a[2]
  {
  }

  lemma {:induction false} DigitsJoin(a: seq<Byte>, b: seq<Byte>)
    requires |a| % 3 == 0
    ensures Digits(a + b) == Digits(a) + Digits(b)
  {
    if a == [] {
      assert a + b == b;
    } else {
      TailJoin(a, b);
      DigitsJoin(a[3..], b);
      DigitsStep(a);
      DigitsStep(a + b);
      Assoc(Quad(a[0], a[1], a[2]), Digits(a[3..]), Digits(b));
    }
  }

  lemma CharsJoin(a: seq<Digit>, b: seq<Digit>)
    ensures Chars(a + b) == Chars(a) + Chars(b)
  {
  }

  lemma DigitCount(n: nat)
    requires n % 3 == 0
    ensures (n * 4 + 2) / 3 == n / 3 * 4
  {
    assert n == 3 * (n / 3);
  }

  /** Whole groups of three bytes can be encoded apart from what follows. */
  lemma Encode64Joins(a: seq<Byte>, b: seq<Byte>)
    requires |a| % 3 == 0
    ensures Encode64(a + b) == Encode64(a) + Encode64(b)
  {
    DigitCount(|a|);
    DigitsJoin(a, b);
    CharsJoin(Digits(a), Digits(b));
    PadJoin(Chars(Digits(a)), Chars(Digits(b)));
  }

  lemma PadJoin(a: string, b: string)
    requires |a| % 4 == 0
    ensures (a + b) + Padding(|a + b|) == (a + Padding(|a|)) + (b + Padding(|b|))
  {
    assert Padding(|a|) == [];
    assert PadLength(|a + b|) == PadLength(|b|);
  }
}
