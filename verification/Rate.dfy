/** The ring buffers and the linear rate converters of playback
    (kernel/src/audio.rs) and capture (kernel/src/capture.rs). A frame is one
    sample here: the channels are converted alike. */
module Rate {
  import opened Util

  const ONE: nat := 0x1_0000_0000

  // ── Interpolation ────────────────────────────────────────────────────

  type I32 = x: int | -0x8000_0000 <= x < 0x8000_0000

  ghost predicate IsI32(x: int) { -0x8000_0000 <= x < 0x8000_0000 }

  /** `as i32`, and 64-bit arithmetic that wraps. */
  function WrapI32(x: int): int {
    var low := x % 0x1_0000_0000;
    if low < 0x8000_0000 then low else low - 0x1_0000_0000
  }

  function WrapI64(x: int): int {
    var low := x % 0x1_0000_0000_0000_0000;
    if low < 0x8000_0000_0000_0000 then low else low - 0x1_0000_0000_0000_0000
  }

  /** A sample between `a` and `b`, `frac` of 2^32 on the way, as computed. */
  function Interpolate(a: int, b: int, frac: nat): int {
    WrapI32(WrapI64(a + WrapI64((b - a) * frac) / 0x1_0000_0000))
  }

  /** As meant: rounded down, without overflow. */
  function Between(a: int, b: int, frac: nat): int { a + (b - a) * frac / 0x1_0000_0000 }

  lemma {:induction false} Scaled(d: nat, f: nat)
    requires f <= 0x1_0000_0000
    ensures 0 <= d * f <= d * 0x1_0000_0000
  {
    if d > 0 {
      Scaled(d - 1, f);
      assert d * f == (d - 1) * f + f;
    }
  }

  /** What is meant lies between the two samples. */
  lemma BetweenIs(a: int, b: int, frac: nat)
    requires frac < 0x1_0000_0000
    ensures Min(a, b) <= Between(a, b, frac) <= Max(a, b)
  {
    if a <= b {
      Scaled(b - a, frac);
    } else {
      Scaled(a - b, frac);
      assert (b - a) * frac == -((a - b) * frac);
    }
  }

  /** The product may leave 64 bits, but what wraps away there is cut off again by
      the narrowing: the computed sample is the meant one for all samples. */
  lemma InterpolateIs(a: int, b: int, frac: nat)
    requires IsI32(a) && IsI32(b) && frac < 0x1_0000_0000
    ensures Interpolate(a, b, frac) == Between(a, b, frac)
    ensures IsI32(Between(a, b, frac))
  {
    BetweenIs(a, b, frac);
    Narrow(a, (b - a) * frac);
  }

  lemma Narrow(a: int, p: int)
    requires IsI32(a) && IsI32(a + p / 0x1_0000_0000)
    ensures WrapI32(WrapI64(a + WrapI64(p) / 0x1_0000_0000)) == a + p / 0x1_0000_0000
  {
    var w := WrapI64(p);
    var t := (p - w) / 0x1_0000_0000_0000_0000;
    assert p == w + 0x1_0000_0000_0000_0000 * t;
    assert p / 0x1_0000_0000 == w / 0x1_0000_0000 + 0x1_0000_0000 * t;
    var x := a + w / 0x1_0000_0000;
    assert WrapI64(x) == x;
    Same32(a + p / 0x1_0000_0000, x, t);
  }

  lemma Same32(x: int, y: int, t: int)
    requires IsI32(x) && x == y + 0x1_0000_0000 * t
    ensures WrapI32(y) == x
  {
  }

  /** The stream `s` read at position `p` (in 2^32nds of a frame). */
  ghost function Sample(s: seq<int>, p: nat): int
    requires p / 0x1_0000_0000 + 1 < |s|
  {
    Between(s[p / 0x1_0000_0000], s[p / 0x1_0000_0000 + 1], p % 0x1_0000_0000)
  }

  lemma SampleBetween(s: seq<int>, p: nat)
    requires p / 0x1_0000_0000 + 1 < |s|
    ensures var i := p / 0x1_0000_0000; Min(s[i], s[i + 1]) <= Sample(s, p) <= Max(s[i], s[i + 1])
  {
    var i := p / 0x1_0000_0000;
    BetweenIs(s[i], s[i + 1], p % 0x1_0000_0000);
  }
}
