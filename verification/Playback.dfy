/** A playback stream (`Slot` of kernel/src/audio.rs): bytes go into the ring,
    frames at the device's rate come out. */
module Playback {
  import opened Util
  import opened Rate
  import Ring

  // ── Frames of a byte stream ──────────────────────────────────────────

  /** The whole frames of `bytes`, decoded. */
  ghost function Frames(bytes: seq<int>, size: nat, decode: seq<int> -> I32): seq<int>
    requires size > 0
    decreases |bytes|
  {
    if |bytes| < size then [] else [decode(bytes[..size])] + Frames(bytes[size..], size, decode)
  }

  /** `bytes` ends with a whole frame. */
  ghost predicate Whole(bytes: seq<int>, size: nat)
    requires size > 0
    decreases |bytes|
  {
    bytes == [] || (|bytes| >= size && Whole(bytes[size..], size))
  }

  lemma {:induction false} FramesConcat(a: seq<int>, b: seq<int>, size: nat, decode: seq<int> -> I32)
    requires size > 0 && Whole(a, size)
    ensures Frames(a + b, size, decode) == Frames(a, size, decode) + Frames(b, size, decode)
    ensures Whole(b, size) ==> Whole(a + b, size)
    decreases |a|
  {
    if a == [] {
      assert a + b == b;
    } else {
      assert (a + b)[..size] == a[..size];
      assert (a + b)[size..] == a[size..] + b;
      FramesConcat(a[size..], b, size, decode);
      Reassociate(decode(a[..size]), Frames(a[size..], size, decode), Frames(b, size, decode));
    }
  }

  lemma Reassociate(x: int, a: seq<int>, b: seq<int>)
    ensures [x] + (a + b) == [x] + a + b
  {
  }

  lemma OneFrame(chunk: seq<int>, size: nat, decode: seq<int> -> I32)
    requires size > 0 && |chunk| == size
    ensures Frames(chunk, size, decode) == [decode(chunk)] && Whole(chunk, size)
  {
    assert chunk[..size] == chunk;
    assert chunk[size..] == [];
    assert Frames([], size, decode) == [];
  }

  class Slot {
    const ring: Ring.Ring
    const size: nat
    const decode: seq<int> -> I32
    var pos: nat
    var prev: I32
    var cur: I32

    // The bytes accepted, those read, and what was played at which position.
    ghost var accepted: seq<int>
    ghost var consumed: seq<int>
    ghost var played: seq<(nat, int)>
    ghost var phase: nat
    ghost var steps: seq<nat>

    /** The frames read so far. */
    ghost function Done(): seq<int>
      requires size > 0
      reads this
    {
      Frames(consumed, size, decode)
    }

    ghost predicate Valid()
      reads this, ring, ring.buf
    {
      && size > 0 && ring.Valid() && accepted == consumed + ring.Contents() && Whole(consumed, size)
      && Position(pos, prev, cur, phase, Done())
      && (forall k | 0 <= k < |played| :: PlayedOk(played[k], Done()))
      && phase == Total(steps) && Stepped(played, steps)
    }

    constructor (size: nat, cap: nat, decode: seq<int> -> I32)
      requires size > 0 && cap > 0
      ensures Valid() && fresh(ring) && fresh(ring.buf) && accepted == [] && played == [] && steps == []
    {
      ring := new Ring.Ring(cap);
      this.size, this.decode := size, decode;
      pos, prev, cur := 2 * ONE, 0, 0;
      accepted, consumed, played, phase, steps := [], [], [], 0, [];
    }

    /** `submit`: as many bytes as there is room for. */
    method Submit(data: seq<int>) returns (n: nat)
      requires Valid()
      modifies this, ring, ring.buf
      ensures Valid() && n <= |data| && accepted == old(accepted) + data[..n]
      ensures unchanged(`played, `phase, `steps)
    {
      hide PlayedOk, Position, Frames, Whole, Stepped, Total;
      n := ring.Push(data);
      accepted := accepted + data[..n];
    }

    /** `next_frame`: the frame at the output position, or none while the source
        frame after it has not come. */
    method NextFrame(step: nat) returns (out: Option<int>)
      requires Valid()
      modifies this, ring
      ensures Valid() && accepted == old(accepted)
      ensures out.Some? ==> played == old(played) + [(old(phase), out.value)] && steps == old(steps) + [step]
      ensures out.None? ==> unchanged(`played, `phase, `steps) && ring.len < size
    {
      hide PlayedOk, Position, Frames, Whole, Stepped, Total;
      while pos >= ONE
        invariant Valid() && accepted == old(accepted) && unchanged(`played, `phase, `steps)
        decreases pos
      {
        if ring.len < size {
          return None;
        }
        ReadFrame();
      }
      AtPosition(pos, prev, cur, phase, Done());
      InterpolateIs(prev, cur, pos);
      var x := Interpolate(prev, cur, pos);
      PlayedNow(phase, x, Done());
      Advanced(pos, prev, cur, phase, Done(), step);
      SteppedOn(played, steps, (phase, x), step);
      played := played + [(phase, x)];
      steps := steps + [step];
      pos := pos + step;
      phase := phase + step;
      return Some(x);
    }

    /** `read_frame`, and the step of the converter past it. */
    method ReadFrame()
      requires Valid() && pos >= ONE && ring.len >= size
      modifies this, ring
      ensures Valid() && pos == old(pos) - ONE
      ensures unchanged(`accepted, `played, `phase, `steps)
    {
      hide Frames, Whole, Stepped, Total;
      var bytes := ring.Take(size);
      OneFrame(bytes, size, decode);
      FramesConcat(consumed, bytes, size, decode);
      ghost var before := Done();
      consumed := consumed + bytes;
      prev := cur;
      cur := decode(bytes);
      pos := pos - ONE;
      assert Done() == before + [cur as int];
    }
  }

  /** The converter's state after `done` source frames, at output position
      `phase`. */
  ghost predicate Position(pos: nat, prev: int, cur: int, phase: nat, done: seq<int>) {
    && pos + 0x1_0000_0000 * |done| == phase + 0x2_0000_0000
    && cur == (if |done| >= 1 then done[|done| - 1] else 0)
    && prev == (if |done| >= 2 then done[|done| - 2] else 0)
  }

  /** A frame played is the source stream at its position. */
  ghost predicate PlayedOk(p: (nat, int), s: seq<int>) {
    p.0 / 0x1_0000_0000 + 1 < |s| && p.1 == Sample(s, p.0)
  }

  lemma AtPosition(pos: nat, prev: int, cur: int, phase: nat, done: seq<int>)
    requires Position(pos, prev, cur, phase, done) && pos < 0x1_0000_0000
    ensures phase / 0x1_0000_0000 + 2 == |done| && phase % 0x1_0000_0000 == pos
    ensures prev == done[|done| - 2] && cur == done[|done| - 1]
  {
  }

  lemma PlayedNow(phase: nat, x: int, done: seq<int>)
    requires phase / 0x1_0000_0000 + 2 == |done|
    requires x == Between(done[|done| - 2], done[|done| - 1], phase % 0x1_0000_0000)
    ensures PlayedOk((phase, x), done)
  {
  }

  lemma Advanced(pos: nat, prev: int, cur: int, phase: nat, done: seq<int>, step: nat)
    requires Position(pos, prev, cur, phase, done)
    ensures Position(pos + step, prev, cur, phase + step, done)
  {
  }

  // ── Positions ────────────────────────────────────────────────────────

  ghost function Total(steps: seq<nat>): nat {
    if steps == [] then 0 else Total(steps[..|steps| - 1]) + steps[|steps| - 1]
  }

  /** Frame `k` is played where the steps before it lead. */
  ghost predicate Stepped(played: seq<(nat, int)>, steps: seq<nat>) {
    |played| == |steps| && forall k | 0 <= k < |played| :: played[k].0 == Total(steps[..k])
  }

  lemma SteppedOn(played: seq<(nat, int)>, steps: seq<nat>, p: (nat, int), step: nat)
    requires Stepped(played, steps) && p.0 == Total(steps)
    ensures Stepped(played + [p], steps + [step]) && Total(steps + [step]) == Total(steps) + step
  {
    var more := steps + [step];
    assert more[..|steps|] == steps;
    forall k | 0 <= k < |played| + 1 ensures (played + [p])[k].0 == Total(more[..k]) {
      assert k < |steps| ==> more[..k] == steps[..k];
    }
  }

  lemma {:induction false} SteadyTotal(steps: seq<nat>, step: nat)
    requires forall i | 0 <= i < |steps| :: steps[i] == step
    ensures Total(steps) == |steps| * step
  {
    if steps != [] {
      SteadyTotal(steps[..|steps| - 1], step);
    }
  }

  /** Playback refines a pure function of the bytes accepted: at a fixed rate the
      k-th frame is the source stream at k steps, however submits, polls and
      underruns came about, and lies between its two neighbours. */
  lemma RefinesStream(s: Slot, k: nat, step: nat)
    requires s.Valid() && k < |s.played| && forall i | 0 <= i < |s.steps| :: s.steps[i] == step
    ensures var stream := Frames(s.accepted, s.size, s.decode); var i := k * step / 0x1_0000_0000;
      && i + 1 < |stream| && s.played[k].1 == Sample(stream, k * step)
      && Min(stream[i], stream[i + 1]) <= s.played[k].1 <= Max(stream[i], stream[i + 1])
  {
    hide Whole, Sample, Total;
    FramesConcat(s.consumed, s.ring.Contents(), s.size, s.decode);
    SteadyTotal(s.steps[..k], step);
    var done, stream, p := s.Done(), Frames(s.accepted, s.size, s.decode), s.played[k];
    assert PlayedOk(p, done);
    SamplePrefix(done, stream, p.0);
    SampleBetween(stream, p.0);
  }

  lemma SamplePrefix(a: seq<int>, b: seq<int>, p: nat)
    requires p / 0x1_0000_0000 + 1 < |a| && a <= b
    ensures Sample(a, p) == Sample(b, p)
  {
  }
}
