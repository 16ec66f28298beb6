/** Bit fields of a report (hid/src/lib.rs; section 6.2.2 of USB HID 1.11):
    extraction, insertion, and the two's complement conversions. Shifts and
    masks are written as repeated halving and doubling. */
module HidCodec {
  import opened Util

  type Report = seq<Byte>

  function Pow2(n: nat): (p: nat)
    ensures p > 0
  {
    if n == 0 then 1 else 2 * Pow2(n - 1)
  }

  /** Bit `k` of a number. */
  function Bit(x: nat, k: nat): nat { if k == 0 then x % 2 else Bit(x / 2, k - 1) }

  /** `x >> s`. */
  function Shr(x: nat, s: nat): nat { if s == 0 then x else Shr(x / 2, s - 1) }

  /** The low `n` bits (`x & ((1 << n) - 1)`). */
  function Low(x: nat, n: nat): nat { if n == 0 then 0 else x % 2 + 2 * Low(x / 2, n - 1) }

  /** `x` with bit `k` set (`x | 1 << k`) or cleared (`x & !(1 << k)`). */
  function WithBit(x: nat, k: nat, on: bool): nat {
    if k == 0 then x / 2 * 2 + (if on then 1 else 0) else x % 2 + 2 * WithBit(x / 2, k - 1, on)
  }

  lemma {:induction false} WithBitIs(x: nat, k: nat, on: bool, j: nat)
    ensures Bit(WithBit(x, k, on), j) == if j == k then (if on then 1 else 0) else Bit(x, j)
    decreases k
  {
    if k > 0 && j > 0 {
      assert WithBit(x, k, on) / 2 == WithBit(x / 2, k - 1, on);
      WithBitIs(x / 2, k - 1, on, j - 1);
    }
  }

  lemma {:induction false} WithBitBelow(x: nat, k: nat, on: bool, n: nat)
    requires x < Pow2(n) && k < n
    ensures WithBit(x, k, on) < Pow2(n)
    decreases k
  {
    if k > 0 {
      WithBitBelow(x / 2, k - 1, on, n - 1);
    }
  }

  lemma {:induction false} ShrStep(x: nat, s: nat)
    ensures Shr(x, s + 1) == Shr(x, s) / 2 && Bit(x, s) == Shr(x, s) % 2
    decreases s
  {
    if s > 0 {
      ShrStep(x / 2, s - 1);
    }
  }

  lemma {:induction false} ShrBelow(x: nat, s: nat)
    requires x < Pow2(s)
    ensures Shr(x, s) == 0
  {
    if s > 0 {
      ShrBelow(x / 2, s - 1);
    }
  }

  lemma {:induction false} LowIs(x: nat, n: nat)
    ensures Low(x, n) < Pow2(n)
    ensures x < Pow2(n) ==> Low(x, n) == x
  {
    if n > 0 {
      LowIs(x / 2, n - 1);
    }
  }

  lemma {:induction false} LowBit(x: nat, n: nat, k: nat)
    ensures Bit(Low(x, n), k) == if k < n then Bit(x, k) else 0
    decreases n
  {
    if n == 0 {
      ZeroBit(k);
    } else {
      assert Low(x, n) / 2 == Low(x / 2, n - 1);
      if k > 0 {
        LowBit(x / 2, n - 1, k - 1);
      }
    }
  }

  lemma {:induction false} ZeroBit(k: nat)
    ensures Bit(0, k) == 0
  {
    if k > 0 {
      ZeroBit(k - 1);
    }
  }

  // ── Reports ──────────────────────────────────────────────────────────

  /** Bit `i` of a report, little endian; past its end 0. */
  function ReportBit(r: Report, i: nat): nat { if i / 8 < |r| then Bit(r[i / 8], i % 8) else 0 }

  /** The number in the `n` bits at `offset`. */
  function Value(r: Report, offset: nat, n: nat): nat
    decreases n
  {
    if n == 0 then 0 else ReportBit(r, offset) + 2 * Value(r, offset + 1, n - 1)
  }

  lemma {:induction false} ValueSplit(r: Report, offset: nat, a: nat, b: nat)
    ensures Value(r, offset, a + b) == Value(r, offset, a) + Pow2(a) * Value(r, offset + a, b)
    decreases a
  {
    if a > 0 {
      ValueSplit(r, offset + 1, a - 1, b);
      Double(Pow2(a - 1), Value(r, offset + a, b));
    }
  }

  lemma Commute(a: nat, b: nat)
    ensures a * b == b * a
  {
  }

  lemma ValueNone(r: Report, offset: nat)
    ensures Value(r, offset, 0) == 0
  {
  }

  lemma Double(p: nat, v: nat)
    ensures 2 * (p * v) == (2 * p) * v
  {
  }

  lemma {:induction false} ValueLow(r: Report, offset: nat, n: nat, got: nat)
    requires n <= got
    ensures Low(Value(r, offset, got), n) == Value(r, offset, n)
    decreases n
  {
    if n > 0 {
      hide ReportBit;
      BitIsBit(r, offset);
      ValueLow(r, offset + 1, n - 1, got - 1);
      Halves(ReportBit(r, offset), Value(r, offset + 1, got - 1));
    }
  }

  lemma Halves(b: nat, v: nat)
    requires b <= 1
    ensures (b + 2 * v) % 2 == b && (b + 2 * v) / 2 == v
  {
  }

  lemma BitIsBit(r: Report, i: nat)
    ensures ReportBit(r, i) <= 1
  {
    if i / 8 < |r| {
      ShrStep(r[i / 8], i % 8);
    }
  }

  function ByteAt(r: Report, i: nat): Byte { if i < |r| then r[i] else 0 }

  /** The upper bits of a byte, as the loop of `field_extract` takes them. */
  lemma {:induction false} ByteTail(r: Report, i: nat, s: nat)
    requires s <= 8
    ensures Shr(ByteAt(r, i), s) == Value(r, 8 * i + s, 8 - s)
    decreases 8 - s
  {
    var b: nat := ByteAt(r, i);
    if s == 8 {
      assert Pow2(8) == 256;
      ShrBelow(b, 8);
    } else {
      ByteTail(r, i, s + 1);
      ShrStep(b, s);
      assert (8 * i + s) / 8 == i && (8 * i + s) % 8 == s;
      if i >= |r| {
        ZeroBit(s);
      }
    }
  }

  /** `field_extract`: a byte at a time. */
  method FieldExtract(r: Report, offset: nat, size: nat) returns (v: nat)
    ensures v == Value(r, offset, Min(size, 32))
  {
    hide Value, Shr, Low, Pow2, ReportBit;
    var n := Min(size, 32);
    var value: nat, got: nat, idx: nat, shift: nat := 0, 0, offset / 8, offset % 8;
    ValueNone(r, offset);
    while got < n
      invariant value == Value(r, offset, got)
      invariant shift < 8 && offset + got == 8 * idx + shift
      decreases n - got
    {
      // The new bits lie above all those gathered, so `|=` adds them.
      ByteTail(r, idx, shift);
      ValueSplit(r, offset, got, 8 - shift);
      Commute(Shr(ByteAt(r, idx), shift), Pow2(got));
      value := value + Shr(ByteAt(r, idx), shift) * Pow2(got);
      got := got + 8 - shift;
      shift := 0;
      idx := idx + 1;
    }
    ValueLow(r, offset, n, got);
    v := Low(value, n);
  }

  /** Bit `i` of a report after `n` bits of `value` were written at `offset`. */
  ghost function After(r: Report, offset: nat, n: nat, value: nat, i: nat): nat {
    if offset <= i < offset + n && i < 8 * |r| then Bit(value, i - offset) else ReportBit(r, i)
  }

  ghost predicate Written(r0: Report, r1: Report, offset: nat, n: nat, value: nat) {
    |r1| == |r0| && forall i: nat :: ReportBit(r1, i) == After(r0, offset, n, value, i)
  }

  /** `field_implement`: a bit at a time, up to the end of the report. */
  method FieldImplement(r: array<Byte>, offset: nat, size: nat, value: nat)
    modifies r
    ensures Written(old(r[..]), r[..], offset, Min(size, 32), value)
  {
    hide WithBit, Bit;
    for k := 0 to Min(size, 32)
      invariant Written(old(r[..]), r[..], offset, k, value)
    {
      var bit := offset + k;
      if bit / 8 >= r.Length {
        assert bit >= 8 * r.Length;
        return;
      }
      ghost var before := r[..];
      EightBits();
      WithBitBelow(r[bit / 8], bit % 8, Bit(value, k) != 0, 8);
      r[bit / 8] := WithBit(r[bit / 8], bit % 8, Bit(value, k) != 0);
      SetOne(before, r[..], bit, Bit(value, k) != 0);
      ShrStep(value, k);
      assert bit < 8 * r.Length;
    }
  }

  lemma EightBits()
    ensures Pow2(8) == 256
  {
  }

  /** Changing one bit of one byte changes that bit of the report. */
  lemma SetOne(r0: Report, r1: Report, bit: nat, on: bool)
    requires bit / 8 < |r0| && |r1| == |r0|
    requires r1[bit / 8] == WithBit(r0[bit / 8], bit % 8, on)
    requires forall i | 0 <= i < |r0| && i != bit / 8 :: r1[i] == r0[i]
    ensures forall i: nat :: ReportBit(r1, i) == if i == bit then (if on then 1 else 0) else ReportBit(r0, i)
  {
    forall i: nat ensures ReportBit(r1, i) == if i == bit then (if on then 1 else 0) else ReportBit(r0, i) {
      if i / 8 == bit / 8 {
        WithBitIs(r0[bit / 8], bit % 8, on, i % 8);
        assert i == 8 * (i / 8) + i % 8 && bit == 8 * (bit / 8) + bit % 8;
      }
    }
  }

  // ── Round trips ──────────────────────────────────────────────────────

  /** Equal bits, equal value. */
  lemma {:induction false} SameBits(r0: Report, r1: Report, offset: nat, n: nat)
    requires forall i: nat | offset <= i < offset + n :: ReportBit(r1, i) == ReportBit(r0, i)
    ensures Value(r1, offset, n) == Value(r0, offset, n)
    decreases n
  {
    if n > 0 {
      SameBits(r0, r1, offset + 1, n - 1);
    }
  }

  lemma {:induction false} BitsOf(r: Report, offset: nat, n: nat, value: nat)
    requires forall i: nat | offset <= i < offset + n :: ReportBit(r, i) == Bit(value, i - offset)
    ensures Value(r, offset, n) == Low(value, n)
    decreases n
  {
    if n > 0 {
      forall i: nat | offset + 1 <= i < offset + 1 + (n - 1) ensures ReportBit(r, i) == Bit(value / 2, i - (offset + 1)) {
        assert Bit(value, i - offset) == Bit(value / 2, i - offset - 1);
      }
      BitsOf(r, offset + 1, n - 1, value / 2);
      assert ReportBit(r, offset) == Bit(value, 0);
    }
  }

  /** What is written reads back as its low bits, and any field that does not
      overlap reads as before. */
  lemma ImplementThenExtract(r0: Report, r1: Report, offset: nat, n: nat, value: nat)
    requires Written(r0, r1, offset, n, value) && offset + n <= 8 * |r0|
    ensures Value(r1, offset, n) == Low(value, n)
  {
    hide Bit;
    BitsOf(r1, offset, n, value);
  }

  lemma ImplementElsewhere(r0: Report, r1: Report, offset: nat, n: nat, value: nat, other: nat, m: nat)
    requires Written(r0, r1, offset, n, value) && (other + m <= offset || offset + n <= other)
    ensures Value(r1, other, m) == Value(r0, other, m)
  {
    SameBits(r0, r1, other, m);
  }

  /** A field of a report to be written: where, how many bits, what. */
  datatype Put = Put(offset: nat, size: nat, value: nat)

  ghost predicate Clear(a: Put, b: Put) { a.offset + a.size <= b.offset || b.offset + b.size <= a.offset }

  /** Write every field in turn. */
  method ImplementAll(r: array<Byte>, puts: seq<Put>)
    requires forall i | 0 <= i < |puts| :: puts[i].size <= 32 && puts[i].offset + puts[i].size <= 8 * r.Length
    requires forall i, j | 0 <= i < j < |puts| :: Clear(puts[i], puts[j])
    modifies r
    ensures forall i | 0 <= i < |puts| :: Value(r[..], puts[i].offset, puts[i].size) == Low(puts[i].value, puts[i].size)
  {
    hide Value, Low, ReportBit;
    for i := 0 to |puts|
      invariant forall k | 0 <= k < i :: Value(r[..], puts[k].offset, puts[k].size) == Low(puts[k].value, puts[k].size)
    {
      ghost var before := r[..];
      FieldImplement(r, puts[i].offset, puts[i].size, puts[i].value);
      ImplementThenExtract(before, r[..], puts[i].offset, puts[i].size, puts[i].value);
      forall k | 0 <= k < i ensures Value(r[..], puts[k].offset, puts[k].size) == Low(puts[k].value, puts[k].size) {
        assert Clear(puts[k], puts[i]);
        ImplementElsewhere(before, r[..], puts[i].offset, puts[i].size, puts[i].value, puts[k].offset, puts[k].size);
      }
    }
  }

  // ── Signed values ────────────────────────────────────────────────────

  /** `x << 1` in 32 bits, `s` times. */
  function Shl32(x: nat, s: nat): nat { if s == 0 then x % 0x1_0000_0000 else 2 * Shl32(x, s - 1) % 0x1_0000_0000 }

  /** `v >> s` of a signed value: halving, rounding down. */
  function Sar(v: int, s: nat): int
    decreases s
  {
    if s == 0 then v else Sar(v / 2, s - 1)
  }

  /** `snto32`: up to the top and down again. */
  function Snto32(value: nat, n: nat): int {
    if value == 0 || n == 0 then 0
    else
      var shift := 32 - Min(n, 32);
      Sar(AsI32(Shl32(value, shift)), shift)
  }

  /** `s32ton`: the low bits, or the nearest value that fits. */
  function S32ton(v: int, n: nat): nat
    requires -0x8000_0000 <= v < 0x8000_0000
  {
    if v == 0 || n == 0 then 0
    else
      var m := Min(n, 32);
      var a := Sar(v, m - 1);
      if a != 0 && a != -1 then (if v < 0 then Pow2(m - 1) else Pow2(m - 1) - 1)
      else Low(AsU32(v), m)
  }

  lemma {:induction false} SarRange(v: int, s: nat)
    ensures Sar(v, s) == 0 <==> 0 <= v < Pow2(s)
    ensures Sar(v, s) == -1 <==> 0 - Pow2(s) <= v < 0
    decreases s
  {
    if s > 0 {
      SarRange(v / 2, s - 1);
    }
  }

  lemma {:induction false} SarOfMultiple(y: int, s: nat)
    ensures Sar(Pow2(s) * y, s) == y
  {
    if s > 0 {
      var z := Pow2(s - 1) * y;
      assert Pow2(s) * y == 2 * z;
      SarOfMultiple(y, s - 1);
    }
  }

  lemma {:induction false} PowSum(a: nat, b: nat)
    ensures Pow2(a) * Pow2(b) == Pow2(a + b)
  {
    if a > 0 {
      PowSum(a - 1, b);
      Double(Pow2(a - 1), Pow2(b));
    }
  }

  lemma Pow32()
    ensures Pow2(32) == 0x1_0000_0000
  {
    assert Pow2(8) == 256;
    PowSum(8, 8);
    PowSum(16, 16);
  }

  lemma {:induction false} LowTop(x: nat, n: nat)
    ensures Low(x, n + 1) == Low(x, n) + Pow2(n) * Bit(x, n) && Bit(x, n) <= 1
    decreases n
  {
    if n > 0 {
      LowTop(x / 2, n - 1);
      Double(Pow2(n - 1), Bit(x, n));
    }
  }

  lemma MulSum(p: int, a: int, b: int)
    ensures p * (a + b) == p * a + p * b
  {
  }

  lemma MulAssoc(p: int, q: int, b: int)
    ensures p * (q * b) == (p * q) * b
  {
  }

  lemma MulLess(p: int, a: int, b: int)
    requires 0 < p
    ensures a < b ==> p * a < p * b
    ensures a <= b ==> p * a <= p * b
  {
    if a < b {
      assert p * b == p * a + p * (b - a) by { MulSum(p, a, b - a); }
      assert p * (b - a) > 0;
    }
  }

  lemma PowStep(n: nat)
    requires n > 0
    ensures Pow2(n) == 2 * Pow2(n - 1)
  {
  }

  /** Shifting left keeps the low bits, at the top. */
  lemma {:induction false} Shl32Is(x: nat, s: nat)
    requires x < 0x1_0000_0000 && s <= 32
    ensures Shl32(x, s) == Pow2(s) * Low(x, 32 - s)
    decreases s
  {
    if s == 0 {
      hide Low;
      Pow32();
      LowIs(x, 32);
      assert Pow2(0) == 1;
    } else {
      hide Low, Pow2, Bit;
      Shl32Is(x, s - 1);
      LowIs(x, 32 - s);
      LowTop(x, 32 - s);
      ShlStep(s, Low(x, 32 - s), Bit(x, 32 - s), Low(x, 33 - s));
    }
  }

  lemma ShlStep(s: nat, low: nat, bit: nat, more: nat)
    requires 0 < s <= 32 && low < Pow2(32 - s) && bit <= 1 && more == low + Pow2(32 - s) * bit
    ensures 2 * (Pow2(s - 1) * more) % 0x1_0000_0000 == Pow2(s) * low
  {
    hide Pow2;
    var p, q := Pow2(s), Pow2(32 - s);
    PowStep(s);
    Double(Pow2(s - 1), more);
    PowSum(s, 32 - s);
    Pow32();
    MulSum(p, low, q * bit);
    MulAssoc(p, q, bit);
    MulLess(p, low, q);
    WrapOnce(p * low, bit);
  }

  lemma WrapOnce(a: nat, bit: nat)
    requires a < 0x1_0000_0000 && bit <= 1
    ensures (a + 0x1_0000_0000 * bit) % 0x1_0000_0000 == a
  {
  }

  /** The value of `n` bits in two's complement. */
  function Signed(x: nat, n: nat): int
    requires n > 0
  {
    var low := Low(x, n);
    if low < Pow2(n - 1) then low else low - Pow2(n)
  }

  lemma Snto32Is(x: nat, n: nat)
    requires x < 0x1_0000_0000 && 0 < n <= 32
    ensures Snto32(x, n) == Signed(x, n)
  {
    LowIs(x, n);
    if x == 0 {
      LowIs(0, n);
    } else {
      var s := 32 - n;
      Shl32Is(x, s);
      TopBit(s, n, Low(x, n));
      SarOfMultiple(Signed(x, n), s);
    }
  }

  lemma TopBit(s: nat, n: nat, low: nat)
    requires s + n == 32 && n > 0 && low < Pow2(n)
    ensures AsI32(Pow2(s) * low) == Pow2(s) * (if low < Pow2(n - 1) then low else low - Pow2(n))
  {
    hide Pow2;
    var p := Pow2(s);
    PowStep(n);
    PowSum(s, n - 1);
    PowSum(s, n);
    Pow32();
    Double(p, Pow2(n - 1));
    assert 2 * (p * Pow2(n - 1)) == p * Pow2(n) by { MulAssoc(p, 2, Pow2(n - 1)); }
    MulLess(p, low, Pow2(n - 1));
    MulLess(p, Pow2(n - 1), low);
    MulSum(p, low, 0 - Pow2(n));
    MulSum(p, Pow2(n), 0 - Pow2(n));
  }

  /** The value clamped to what `m` bits hold in two's complement. */
  function Clamped(v: int, m: nat): int
    requires m > 0
  {
    var half: int := Pow2(m - 1);
    if v >= half then half - 1 else if v < 0 - half then 0 - half else v
  }

  /** A signed value written in `n` bits and read back is the value clamped to
      what `n` bits can hold. */
  lemma SignedRoundTrip(v: int, n: nat)
    requires -0x8000_0000 <= v < 0x8000_0000
    ensures n == 0 ==> Snto32(S32ton(v, n), n) == 0
    ensures n > 0 ==> Snto32(S32ton(v, n), n) == Clamped(v, Min(n, 32))
  {
    if n > 0 {
      hide Pow2, Low, Sar, Shl32, Snto32, Signed, S32ton, Clamped;
      var m := Min(n, 32);
      SnMin(v, S32ton(v, n), n);
      S32tonSigned(v, m);
      Snto32Is(S32ton(v, m), m);
    }
  }

  lemma S32tonSigned(v: int, m: nat)
    requires -0x8000_0000 <= v < 0x8000_0000 && 0 < m <= 32
    ensures S32ton(v, m) < 0x1_0000_0000 && Signed(S32ton(v, m), m) == Clamped(v, m)
  {
    hide Low, Sar, Signed;
    PowUpTo(m);
    SarRange(v, m - 1);
    hide Pow2;
    if v == 0 {
      SignedSmall(0, m);
    } else if v >= Pow2(m - 1) {
      SignedSmall(Pow2(m - 1) - 1, m);
    } else if v < 0 - Pow2(m - 1) {
      SignedBig(Pow2(m - 1), m);
    } else {
      LowOfSigned(v, m);
      if v < 0 {
        SignedBig(v + Pow2(m), m);
      } else {
        SignedSmall(v, m);
      }
    }
  }

  lemma SignedSmall(x: nat, m: nat)
    requires m > 0 && x < Pow2(m - 1)
    ensures Signed(x, m) == x
  {
    PowStep(m);
    LowIs(x, m);
  }

  lemma SignedBig(x: nat, m: nat)
    requires m > 0 && Pow2(m - 1) <= x < Pow2(m)
    ensures Signed(x, m) == x - Pow2(m)
  {
    LowIs(x, m);
  }

  /** The low bits of a value that fits. */
  lemma LowOfSigned(v: int, m: nat)
    requires 0 < m <= 32 && 0 - Pow2(m - 1) <= v < Pow2(m - 1) <= 0x8000_0000
    ensures Low(AsU32(v), m) == (if v < 0 then v + Pow2(m) else v) && Low(Low(AsU32(v), m), m) == Low(AsU32(v), m)
  {
    hide Pow2, Low;
    PowStep(m);
    if v < 0 {
      var k := Pow2(32 - m) - 1;
      PowSum(m, 32 - m);
      Pow32();
      MulSum(Pow2(m), k, 1);
      LowPlus(v + Pow2(m), k, m);
      LowIs(v + Pow2(m), m);
    } else {
      LowIs(v, m);
    }
  }

  lemma {:induction false} LowPlus(x: nat, k: nat, m: nat)
    ensures Low(x + Pow2(m) * k, m) == Low(x, m)
    decreases m
  {
    if m > 0 {
      var z := Pow2(m - 1) * k;
      Double(Pow2(m - 1), k);
      assert (x + 2 * z) % 2 == x % 2 && (x + 2 * z) / 2 == x / 2 + z;
      LowPlus(x / 2, k, m - 1);
    }
  }

  lemma SnMin(v: int, x: nat, n: nat)
    requires -0x8000_0000 <= v < 0x8000_0000
    ensures Snto32(x, n) == Snto32(x, Min(n, 32)) && S32ton(v, n) == S32ton(v, Min(n, 32))
  {
  }

  lemma PowUpTo(m: nat)
    requires 0 < m <= 32
    ensures Pow2(m) == 2 * Pow2(m - 1) <= 0x1_0000_0000
  {
    PowSum(m, 32 - m);
    Pow32();
    assert Pow2(m) * Pow2(32 - m) >= Pow2(m);
  }

  /** So a signed value written to a field reads back clamped, whatever else was
      written around it. */
  lemma SignedFieldReadsBack(r: Report, offset: nat, n: nat, v: int)
    requires -0x8000_0000 <= v < 0x8000_0000 && 0 < n <= 32
    requires Value(r, offset, n) == Low(S32ton(v, n), n)
    ensures Snto32(Value(r, offset, n), n) == Clamped(v, n)
  {
    hide Value, Sar, Shl32, Snto32, S32ton, Low, Pow2;
    var x := S32ton(v, n);
    S32tonSigned(v, n);
    PowUpTo(n);
    LowIs(x, n);
    LowIs(Low(x, n), n);
    Snto32Is(Low(x, n), n);
  }

  /** Read without its sign, it does if and only if it has none or fills all 32
      bits. */
  lemma UnsignedFieldReadsBack(r: Report, offset: nat, n: nat, v: int)
    requires -0x8000_0000 <= v < 0x8000_0000 && 0 < n <= 32
    requires Value(r, offset, n) == Low(S32ton(v, n), n)
    ensures AsI32(Value(r, offset, n)) == Clamped(v, n) <==> v >= 0 || n == 32
  {
    hide Value, Sar, Shl32, Snto32, S32ton, Low, Pow2;
    S32tonSigned(v, n);
    PowUpTo(n);
    LowIs(S32ton(v, n), n);
    if n == 32 {
      Pow32();
    } else {
      PowBelow(n);
    }
  }

  lemma PowBelow(n: nat)
    requires 0 < n < 32
    ensures Pow2(n) == 2 * Pow2(n - 1) <= 0x8000_0000
  {
    PowUpTo(n + 1);
    PowUpTo(n);
  }
}
