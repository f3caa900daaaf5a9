/** Digest comparison, hexadecimal and decimal text, as every record and digest check uses them. */
module Text {
  import opened Bytes
  import opened Status

  function Pow2(k: nat): (p: nat)
    ensures p > 0
  {
    if k == 0 then 1 else 2 * Pow2(k - 1)
  }

  /** Bitwise exclusive or of the low k bits. */
  function XorBits(x: nat, y: nat, k: nat): (r: nat)
    ensures r < Pow2(k)
  {
    if k == 0 then 0 else 2 * XorBits(x / 2, y / 2, k - 1) + if x % 2 == y % 2 then 0 else 1
  }

  /** Bitwise or of the low k bits. */
  function OrBits(x: nat, y: nat, k: nat): (r: nat)
    ensures r < Pow2(k)
  {
    if k == 0 then 0 else 2 * OrBits(x / 2, y / 2, k - 1) + if x % 2 == 0 && y % 2 == 0 then 0 else 1
  }

  lemma {:induction false} XorIsZero(x: nat, y: nat, k: nat)
    requires x < Pow2(k) && y < Pow2(k)
    ensures XorBits(x, y, k) == 0 <==> x == y
  {
    if k > 0 {
      XorIsZero(x / 2, y / 2, k - 1);
    }
  }

  lemma {:induction false} OrIsZero(x: nat, y: nat, k: nat)
    requires x < Pow2(k) && y < Pow2(k)
    ensures OrBits(x, y, k) == 0 <==> x == 0 && y == 0
  {
    if k > 0 {
      OrIsZero(x / 2, y / 2, k - 1);
    }
  }

  /** Compares the first `length` bytes without stopping at the first difference. */
  method ConstantTimeEqual(a: seq<Byte>, b: seq<Byte>, length: nat) returns (equal: bool)
    requires length <= |a| && length <= |b|
    ensures equal <==> a[..length] == b[..length]
  {
    hide XorBits, OrBits;
    assert Pow2(8) == 256;
    var diff: Byte := 0;
    for i := 0 to length
      invariant diff == 0 <==> a[..i] == b[..i]
    {
      var bits := XorBits(a[i], b[i], 8);
      XorIsZero(a[i], b[i], 8);
      OrIsZero(diff, bits, 8);
      assert a[..i + 1] == a[..i] + [a[i]] && b[..i + 1] == b[..i] + [b[i]];
      diff := OrBits(diff, bits, 8);
    }
    equal := diff == 0;
  }

  /** The lower-case digit for a nibble. */
  function HexDigit(n: int): (d: Byte)
    requires 0 <= n < 16
    ensures 48 <= d < 58 || 97 <= d < 103
  {
    if n < 10 then 48 + n else 87 + n
  }

  /** The value of a hexadecimal digit of either case, or -1. */
  function HexNibble(d: Byte): (n: int)
    ensures -1 <= n < 16
  {
    if 48 <= d <= 57 then d - 48
    else if 97 <= d <= 102 then d - 97 + 10
    else if 65 <= d <= 70 then d - 65 + 10
    else -1
  }

  function Nibble(bytes: seq<Byte>, i: nat): (n: int)
    requires i < 2 * |bytes|
    ensures 0 <= n < 16
  {
    if i % 2 == 0 then bytes[i / 2] / 16 else bytes[i / 2] % 16
  }

  function Hex(bytes: seq<Byte>): (text: seq<Byte>)
    ensures |text| == 2 * |bytes|
    ensures forall i :: 0 <= i < 2 * |bytes| ==> text[i] == HexDigit(Nibble(bytes, i))
  {
    seq(2 * |bytes|, i requires 0 <= i < 2 * |bytes| => HexDigit(Nibble(bytes, i)))
  }

  method HexEncode(bytes: seq<Byte>) returns (text: seq<Byte>)
    ensures text == Hex(bytes)
  {
    hide HexDigit;
    var output := new Byte[2 * |bytes|];
    for i := 0 to |bytes|
      invariant forall j :: 0 <= j < 2 * i ==> output[j] == HexDigit(Nibble(bytes, j))
    {
      assert Nibble(bytes, 2 * i) == bytes[i] / 16 && Nibble(bytes, 2 * i + 1) == bytes[i] % 16;
      output[i * 2] := HexDigit(bytes[i] / 16);
      output[i * 2 + 1] := HexDigit(bytes[i] % 16);
    }
    text := output[..];
  }

  /** Text that reads as a digest: 64 hexadecimal digits of either case. */
  predicate IsHex64(text: seq<Byte>) {
    |text| == 64 && forall i :: 0 <= i < 64 ==> HexNibble(text[i]) >= 0
  }

  function HexValue(text: seq<Byte>): (bytes: Digest)
    requires IsHex64(text)
    ensures forall i :: 0 <= i < 32 ==> bytes[i] == HexNibble(text[2 * i]) * 16 + HexNibble(text[2 * i + 1])
  {
    seq(32, i requires 0 <= i < 32 => HexNibble(text[2 * i]) * 16 + HexNibble(text[2 * i + 1]))
  }

  function ParseHex64(text: seq<Byte>): Option<Digest> {
    if IsHex64(text) then Some(HexValue(text)) else None
  }

  /** Decodes digit by digit, giving up at the first character that is not one. */
  method HexDecode32(text: seq<Byte>) returns (r: Option<Digest>)
    ensures r == ParseHex64(text)
  {
    if |text| != 64 {
      return None;
    }
    var output := new Byte[32];
    for i := 0 to 32
      invariant forall j :: 0 <= j < 2 * i ==> HexNibble(text[j]) >= 0
      invariant forall j :: 0 <= j < i ==> output[j] == HexNibble(text[2 * j]) * 16 + HexNibble(text[2 * j + 1])
    {
      var high := HexNibble(text[2 * i]);
      var low := HexNibble(text[2 * i + 1]);
      if high < 0 || low < 0 {
        return None;
      }
      output[i] := high * 16 + low;
    }
    assert output[..] == HexValue(text);
    r := Some(output[..]);
  }

  /** Encoding then decoding a digest returns it. */
  lemma HexRoundTrip(digest: Digest)
    ensures ParseHex64(Hex(digest)) == Some(digest)
  {
    var text := Hex(digest);
    forall i | 0 <= i < 64
      ensures HexNibble(text[i]) == Nibble(digest, i)
    {
      assert text[i] == HexDigit(Nibble(digest, i));
    }
    forall i | 0 <= i < 32
      ensures HexValue(text)[i] == digest[i]
    {
      assert Nibble(digest, 2 * i) == digest[i] / 16 && Nibble(digest, 2 * i + 1) == digest[i] % 16;
    }
    assert HexValue(text) == digest;
  }

  /** Two encodings agree on a prefix exactly when the bytes behind it do. */
  lemma HexPrefixInjective(x: seq<Byte>, y: seq<Byte>, n: nat)
    requires n <= |x| && n <= |y|
    ensures Hex(x)[..2 * n] == Hex(y)[..2 * n] <==> x[..n] == y[..n]
  {
    if Hex(x)[..2 * n] == Hex(y)[..2 * n] {
      forall i | 0 <= i < n
        ensures x[i] == y[i]
      {
        SameNibble(x, y, 2 * n, 2 * i);
        SameNibble(x, y, 2 * n, 2 * i + 1);
      }
    }
    if x[..n] == y[..n] {
      forall i | 0 <= i < 2 * n
        ensures Hex(x)[i] == Hex(y)[i]
      {
        assert x[i / 2] == x[..n][i / 2] == y[..n][i / 2] == y[i / 2];
      }
    }
  }

  lemma SameNibble(x: seq<Byte>, y: seq<Byte>, n: nat, i: nat)
    requires i < n <= 2 * |x| && n <= 2 * |y| && Hex(x)[..n] == Hex(y)[..n]
    ensures Nibble(x, i) == Nibble(y, i)
  {
    assert Hex(x)[i] == Hex(x)[..n][i] == Hex(y)[..n][i] == Hex(y)[i];
  }

  predicate IsDigit(d: Byte) {
    48 <= d <= 57
  }

  /** Decimal digits, most significant first. */
  function Decimal(n: nat): (text: seq<Byte>)
    ensures |text| >= 1
    ensures forall i :: 0 <= i < |text| ==> IsDigit(text[i])
  {
    if n < 10 then [48 + n] else Decimal(n / 10) + [48 + n % 10]
  }

  function DecimalValue(text: seq<Byte>): nat
    requires forall i :: 0 <= i < |text| ==> IsDigit(text[i])
  {
    if text == [] then 0
    else
      var last: int := text[|text| - 1];
      assert IsDigit(last);
      10 * DecimalValue(text[..|text| - 1]) + last - 48
  }

  /** A token that reads as an unsigned 64-bit numeral. */
  function ParseU64(text: seq<Byte>): Option<U64> {
    if |text| > 0 && (forall i :: 0 <= i < |text| ==> IsDigit(text[i])) && DecimalValue(text) <= U64_MAX
    then Some(DecimalValue(text)) else None
  }

  lemma {:induction false} DecimalRoundTrip(n: nat)
    ensures DecimalValue(Decimal(n)) == n
  {
    if n >= 10 {
      DecimalRoundTrip(n / 10);
      assert Decimal(n)[..|Decimal(n)| - 1] == Decimal(n / 10);
    } else {
      assert Decimal(n)[..0] == [];
    }
  }

  lemma ParseDecimal(n: U64)
    ensures ParseU64(Decimal(n)) == Some(n)
  {
    DecimalRoundTrip(n);
  }

  lemma DecimalInjective(m: nat, n: nat)
    requires Decimal(m) == Decimal(n)
    ensures m == n
  {
    DecimalRoundTrip(m);
    DecimalRoundTrip(n);
  }

  function Pow10(k: nat): (p: nat)
    ensures p > 0
  {
    if k == 0 then 1 else 10 * Pow10(k - 1)
  }

  lemma {:induction false} DecimalLength(n: nat, k: nat)
    requires k > 0 && n < Pow10(k)
    ensures |Decimal(n)| <= k
  {
    assert Pow10(1) == 10;
    if n >= 10 {
      DecimalLength(n / 10, k - 1);
    }
  }

  /** The position of the first `end`. */
  function Find(end: Byte, text: seq<Byte>): nat {
    if text == [] || text[0] == end then 0 else 1 + Find(end, text[1..])
  }

  lemma {:induction false} FindEnd(end: Byte, x: seq<Byte>, rest: seq<Byte>)
    requires end !in x
    ensures Find(end, x + [end] + rest) == |x|
  {
    if x != [] {
      assert (x + [end] + rest)[1..] == x[1..] + [end] + rest;
      FindEnd(end, x[1..], rest);
    }
  }

  /** Terminated fields decode uniquely: the text up to the first terminator is the first field. */
  lemma FieldSplit(end: Byte, x: seq<Byte>, y: seq<Byte>, r: seq<Byte>, s: seq<Byte>)
    requires end !in x && end !in y
    requires x + [end] + r == y + [end] + s
    ensures x == y && r == s
  {
    FindEnd(end, x, r);
    FindEnd(end, y, s);
    assert x == (x + [end] + r)[..|x|] && y == (y + [end] + s)[..|y|];
    assert r == (x + [end] + r)[|x| + 1..] && s == (y + [end] + s)[|y| + 1..];
  }

  /** Each text followed by the terminator `end`. */
  function Fields(end: Byte, texts: seq<seq<Byte>>): seq<Byte> {
    if texts == [] then [] else Fields(end, texts[..|texts| - 1]) + texts[|texts| - 1] + [end]
  }

  predicate Unterminated(end: Byte, texts: seq<seq<Byte>>) {
    forall i :: 0 <= i < |texts| ==> end !in texts[i]
  }

  lemma {:induction false} FirstField(end: Byte, texts: seq<seq<Byte>>)
    requires texts != []
    ensures Fields(end, texts) == texts[0] + [end] + Fields(end, texts[1..])
  {
    var front, last := texts[..|texts| - 1], texts[|texts| - 1];
    if |texts| == 1 {
      assert front == [];
    } else {
      FirstField(end, front);
      assert front[1..] == texts[1..][..|texts| - 2];
    }
  }

  /** A record of a known number of terminated fields determines them. */
  lemma {:induction false} FieldsInjective(end: Byte, a: seq<seq<Byte>>, b: seq<seq<Byte>>)
    requires |a| == |b| && Unterminated(end, a) && Unterminated(end, b)
    requires Fields(end, a) == Fields(end, b)
    ensures a == b
  {
    if a != [] {
      FirstField(end, a);
      FirstField(end, b);
      FieldSplit(end, a[0], b[0], Fields(end, a[1..]), Fields(end, b[1..]));
      FieldsInjective(end, a[1..], b[1..]);
      assert a == [a[0]] + a[1..] && b == [b[0]] + b[1..];
    }
  }
}
