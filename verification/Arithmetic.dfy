/** Division facts and rounding up to an alignment in 64-bit arithmetic, where overflow yields zero. */
module Arithmetic {
  import opened Bytes

  lemma Monotone(d: nat, a: int, b: int)
    ensures a <= b ==> d * a <= d * b
  {
  }

  lemma Quotient(x: nat, d: nat, q: nat)
    requires 0 < d
    ensures x / d == q <==> q * d <= x < (q + 1) * d
  {
    assert x == d * (x / d) + x % d;
    Monotone(d, x / d + 1, q);
    Monotone(d, q + 1, x / d);
  }

  lemma SmallQuotient(x: nat, d: nat)
    requires x < d
    ensures x / d == 0
  {
  }

  lemma Remainder(d: nat, q: nat, r: nat)
    requires r < d
    ensures (d * q + r) % d == r
  {
    var x := d * q + r;
    Quotient(x, d, q);
    assert x == d * (x / d) + x % d;
  }

  function RoundUp(value: U64, alignment: U64): U64 {
    if alignment == 0 || value % alignment == 0 then value
    else if value > U64_MAX - (alignment - value % alignment) then 0
    else value + alignment - value % alignment
  }

  /** The exact meaning: the least multiple not below the value, or zero when that does not fit. */
  lemma RoundUpMeaning(value: U64, alignment: U64)
    requires alignment > 0
    ensures var up := RoundUp(value, alignment);
            && up % alignment == 0
            && (up != 0 ==> value <= up < value + alignment)
            && (up == 0 <==> value == 0 || (value % alignment != 0 && value + alignment - value % alignment > U64_MAX))
  {
    var r := value % alignment;
    if r != 0 {
      assert value == alignment * (value / alignment) + r;
      Remainder(alignment, value / alignment + 1, 0);
      assert alignment * (value / alignment + 1) == value + alignment - r;
    }
  }

  /** Rounding a file size up to a sector size never overflows. */
  lemma RoundUpFits(size: FileSize, alignment: U32)
    requires size > 0 && alignment > 0
    ensures size <= RoundUp(size, alignment) < size + alignment
    ensures RoundUp(size, alignment) % alignment == 0
  {
    RoundUpMeaning(size, alignment);
  }

  /** An aligned offset does not change the remainder behind it. */
  lemma RemainderShifts(offset: nat, rest: nat, alignment: nat)
    requires alignment > 0 && offset % alignment == 0
    ensures (offset + rest) % alignment == rest % alignment
  {
    var q, p := offset / alignment, rest / alignment;
    assert offset == alignment * q && rest == alignment * p + rest % alignment;
    Remainder(alignment, q + p, rest % alignment);
    assert offset + rest == alignment * (q + p) + rest % alignment;
  }

  /** Behind an aligned offset, rounding the rest up rounds the whole up. */
  lemma RoundUpShifts(offset: nat, rest: nat, alignment: nat)
    requires alignment > 0 && offset % alignment == 0 && offset + rest + alignment <= U64_MAX
    ensures RoundUp(offset + rest, alignment) == offset + RoundUp(rest, alignment)
  {
    RemainderShifts(offset, rest, alignment);
    var r := rest % alignment;
    assert 0 <= r < alignment;
  }

  /** The sum of multiples is a multiple. */
  lemma AlignedSum(x: nat, y: nat, alignment: nat)
    requires alignment > 0 && x % alignment == 0 && y % alignment == 0
    ensures (x + y) % alignment == 0
  {
    var p, q := x / alignment, y / alignment;
    assert x == alignment * p && y == alignment * q;
    Remainder(alignment, p + q, 0);
    assert x + y == alignment * (p + q);
  }
}
