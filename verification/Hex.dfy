/** Bytes, text as its bytes, and the hexadecimal form of digests and signatures. */
module Hex {
  import opened Wrappers

  type byte = x: int | 0 <= x < 256
  type Text = seq<byte>

  /** The bytes of an ASCII literal. */
  function Ascii(s: string): (t: Text)
    ensures |t| == |s|
  {
    seq(|s|, i requires 0 <= i < |s| => (s[i] as int) % 256)
  }

  function Digit(n: nat): byte
    requires n < 16
  {
    if n < 10 then 48 + n else 87 + n
  }

  /** Both cases are read; only the lower one is written. */
  function Value(c: byte): Option<nat> {
    if 48 <= c <= 57 then Some(c - 48)
    else if 97 <= c <= 102 then Some(c - 87)
    else if 65 <= c <= 70 then Some(c - 55)
    else None
  }

  predicate HexDigits(t: Text) {
    forall i | 0 <= i < |t| :: Value(t[i]).Some?
  }

  function Lower(t: Text): (r: Text)
    ensures |r| == |t|
  {
    seq(|t|, i requires 0 <= i < |t| => if 65 <= t[i] <= 70 then t[i] + 32 else t[i])
  }

  function Encode(bs: seq<byte>): (t: Text)
    ensures |t| == 2 * |bs|
  {
    if bs == [] then [] else [Digit(bs[0] / 16), Digit(bs[0] % 16)] + Encode(bs[1..])
  }

  function Decode(t: Text): (r: Option<seq<byte>>) {
    if t == [] then Some([])
    else if |t| == 1 || Value(t[0]).None? || Value(t[1]).None? then None
    else
      var rest := Decode(t[2..]);
      if rest.None? then None else Some([Pair(Value(t[0]).value, Value(t[1]).value)] + rest.value)
  }

  function Pair(high: nat, low: nat): byte {
    (high * 16 + low) % 256
  }

  /** What decoding reads is what encoding writes, up to case: no two byte strings share a text, and every
      text read has one canonical form. */
  lemma {:induction false} DecodeReads(t: Text, bs: seq<byte>)
    ensures Decode(t) == Some(bs) <==> Lower(t) == Encode(bs)
    decreases |t|
  {
    if |t| >= 2 && bs != [] {
      DecodeReads(t[2..], bs[1..]);
      DecodeFirst(t, bs);
      LowerFirst(t, bs);
    } else if |t| >= 2 {
      DecodeLength(t);
    }
  }

  lemma DecodeLength(t: Text)
    ensures Decode(t).Some? ==> |t| == 2 * |Decode(t).value|
  {
  }

  /** Decoding reads exactly the hexadecimal texts of even length, in either case. */
  lemma {:induction false} DecodesHex(t: Text)
    ensures Decode(t).Some? <==> |t| % 2 == 0 && HexDigits(t)
  {
    if |t| >= 2 {
      DecodesHex(t[2..]);
      HexFirst(t);
      assert |t| % 2 == |t[2..]| % 2;
    }
  }

  lemma HexFirst(t: Text)
    requires |t| >= 2
    ensures HexDigits(t) <==> Value(t[0]).Some? && Value(t[1]).Some? && HexDigits(t[2..])
  {
    var first := [t[0], t[1]];
    HexConcat(first, t[2..]);
    assert t == first + t[2..];
    assert HexDigits(first) <==> Value(first[0]).Some? && Value(first[1]).Some?;
  }

  lemma HexConcat(a: Text, b: Text)
    ensures HexDigits(a + b) <==> HexDigits(a) && HexDigits(b)
  {
    if HexDigits(a + b) {
      forall i | 0 <= i < |a| ensures Value(a[i]).Some? { assert a[i] == (a + b)[i]; }
      forall i | 0 <= i < |b| ensures Value(b[i]).Some? { assert b[i] == (a + b)[|a| + i]; }
    }
  }

  lemma DecodeFirst(t: Text, bs: seq<byte>)
    requires |t| >= 2 && bs != []
    ensures Decode(t) == Some(bs) <==>
            && Value(t[0]).Some? && Value(t[1]).Some?
            && Pair(Value(t[0]).value, Value(t[1]).value) == bs[0]
            && Decode(t[2..]) == Some(bs[1..])
  {
    if Decode(t).Some? {
      assert Decode(t).value[1..] == Decode(t[2..]).value;
    }
    assert bs == [bs[0]] + bs[1..];
  }

  lemma LowerFirst(t: Text, bs: seq<byte>)
    requires |t| >= 2 && bs != []
    ensures Lower(t) == Encode(bs) <==>
            && Value(t[0]).Some? && Value(t[1]).Some?
            && Pair(Value(t[0]).value, Value(t[1]).value) == bs[0]
            && Lower(t[2..]) == Encode(bs[1..])
  {
    var low, code := Lower(t), Encode(bs);
    assert low == [low[0], low[1]] + Lower(t[2..]);
    assert code == [code[0], code[1]] + Encode(bs[1..]);
    assert low[2..] == Lower(t[2..]) && code[2..] == Encode(bs[1..]);
    DigitIs(t[0], bs[0] / 16);
    DigitIs(t[1], bs[0] % 16);
    if Value(t[0]).Some? && Value(t[1]).Some? {
      DigitsAre(Value(t[0]).value, Value(t[1]).value, bs[0]);
    }
  }

  lemma DigitIs(c: byte, n: nat)
    requires n < 16
    ensures Lower([c])[0] == Digit(n) <==> Value(c) == Some(n)
  {
  }

  lemma DigitsAre(high: nat, low: nat, b: byte)
    requires high < 16 && low < 16
    ensures Pair(high, low) == b <==> Digit(high) == Digit(b / 16) && Digit(low) == Digit(b % 16)
  {
    assert b == (b / 16) * 16 + b % 16;
    DigitInjective(high, b / 16);
    DigitInjective(low, b % 16);
    assert Pair(high, low) == high * 16 + low;
  }

  lemma DigitInjective(m: nat, n: nat)
    requires m < 16 && n < 16
    ensures Digit(m) == Digit(n) <==> m == n
  {
  }

  lemma {:induction false} EncodeIsLowerHex(bs: seq<byte>)
    ensures HexDigits(Encode(bs)) && Lower(Encode(bs)) == Encode(bs)
  {
    if bs != [] {
      EncodeIsLowerHex(bs[1..]);
      var t := Encode(bs);
      forall i | 0 <= i < |t| ensures Value(t[i]).Some? && Lower(t)[i] == t[i] {
        if i >= 2 {
          assert t[i] == Encode(bs[1..])[i - 2];
          assert Lower(Encode(bs[1..]))[i - 2] == Encode(bs[1..])[i - 2];
        }
      }
    }
  }

  lemma RoundTrip(bs: seq<byte>)
    ensures Decode(Encode(bs)) == Some(bs)
  {
    EncodeIsLowerHex(bs);
    DecodeReads(Encode(bs), bs);
  }

  lemma EncodeInjective(a: seq<byte>, b: seq<byte>)
    requires Encode(a) == Encode(b)
    ensures a == b
  {
    RoundTrip(a);
    RoundTrip(b);
  }

  lemma DigitIsHex(n: nat)
    requires n < 16
    ensures Digit(n) == "0123456789abcdef"[n] as int
  {
    var digits := "0123456789abcdef";
    if n < 8 {
      assert digits[0] == '0' && digits[1] == '1' && digits[2] == '2' && digits[3] == '3';
    } else {
      assert digits[8] == '8' && digits[9] == '9' && digits[10] == 'a' && digits[15] == 'f';
    }
  }

  /** The digits are the sixteen lower-case ones, the high half of a byte first. */
  lemma {:induction false} EncodeIsHex(bs: seq<byte>, k: nat)
    requires k < |bs|
    ensures Encode(bs)[2 * k] == "0123456789abcdef"[bs[k] / 16] as int
    ensures Encode(bs)[2 * k + 1] == "0123456789abcdef"[bs[k] % 16] as int
  {
    EncodeAt(bs, k);
    DigitIsHex(bs[k] / 16);
    DigitIsHex(bs[k] % 16);
  }

  lemma {:induction false} EncodeAt(bs: seq<byte>, k: nat)
    requires k < |bs|
    ensures Encode(bs)[2 * k] == Digit(bs[k] / 16) && Encode(bs)[2 * k + 1] == Digit(bs[k] % 16)
  {
    if k > 0 {
      EncodeAt(bs[1..], k - 1);
      var rest := Encode(bs[1..]);
      assert Encode(bs)[2 * k] == rest[2 * (k - 1)] && Encode(bs)[2 * k + 1] == rest[2 * (k - 1) + 1];
    }
  }
}
