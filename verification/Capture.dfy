/** A capture stream (`Stream` of kernel/src/capture.rs): device frames come in,
    frames at the stream's rate go into the ring. */
module Capture {
  import opened Util
  import opened Rate
  import Ring

  /** The device's frames, after the silence before the first. */
  ghost function Source(fed: seq<I32>): seq<int> { [0] + seq(|fed|, i requires 0 <= i < |fed| => fed[i] as int) }

  /** The position after `e` steps. */
  function Steps(e: nat, step: nat): nat { e * step }

  lemma OneStepMore(e: nat, step: nat)
    ensures Steps(e + 1, step) == Steps(e, step) + step
  {
  }

  ghost predicate EmittedOk(emitted: seq<int>, fed: seq<I32>, step: nat) {
    forall e | 0 <= e < |emitted| :: FrameOk(emitted[e], Source(fed), Steps(e, step))
  }

  /** A frame emitted is the source at its position. */
  ghost predicate FrameOk(x: int, s: seq<int>, p: nat) { p / 0x1_0000_0000 + 1 < |s| && x == Sample(s, p) }

  /** `e` steps reach `j` device frames and `e - 1` do not. */
  ghost predicate Reaches(e: nat, j: nat, step: nat) { j * 0x1_0000_0000 <= Steps(e, step) < j * 0x1_0000_0000 + step }

  class Stream {
    const ring: Ring.Ring
    const step: nat
    var pos: nat
    var prev: I32
    var cur: I32
    var dropped: nat

    // The device's frames, all frames made of them, and those gone from the ring.
    ghost var fed: seq<I32>
    ghost var emitted: seq<int>
    ghost var gone: seq<int>
    ghost var read: nat
    ghost var reported: nat

    ghost predicate Kept()
      reads this, ring, ring.buf
    {
      && ring.Valid() && emitted == gone + ring.Contents() && |gone| == read + reported + dropped && step > 0
      && EmittedOk(emitted, fed, step)
      && cur == (if fed == [] then 0 else fed[|fed| - 1])
    }

    ghost predicate Valid()
      reads this, ring, ring.buf
    {
      Kept() && pos + |fed| * 0x1_0000_0000 == Steps(|emitted|, step) && pos < step
    }

    constructor (cap: nat, step: nat)
      requires cap > 0 && step > 0
      ensures Valid() && fresh(ring) && fresh(ring.buf) && fed == [] && emitted == []
    {
      ring := new Ring.Ring(cap);
      this.step := step;
      pos, prev, cur, dropped := 0, 0, 0, 0;
      fed, emitted, gone, read, reported := [], [], [], 0, 0;
    }

    /** `put`: one frame; the oldest goes when the ring is full. */
    method Put(x: int)
      requires Kept() && FrameOk(x, Source(fed), Steps(|emitted|, step))
      modifies ring, ring.buf, `dropped, `emitted, `gone
      ensures Kept() && emitted == old(emitted) + [x]
      ensures dropped == old(dropped) + (if old(ring.len) == ring.buf.Length then 1 else 0)
    {
      hide EmittedOk, FrameOk, Steps, Source, Ring.Unrolled;
      EmittedMore(emitted, fed, step, x);
      if ring.len + 1 > ring.buf.Length {
        var oldest := ring.Take(1);
        gone := gone + oldest;
        dropped := dropped + 1;
      }
      assert emitted == gone + ring.Contents();
      ghost var waiting := ring.Contents();
      var n := ring.Push([x]);
      assert n == 1 && [x][..n] == [x];
      assert gone + (waiting + [x]) == gone + waiting + [x];
      emitted := emitted + [x];
    }

    /** `feed`: the frames between the previous device frame and this one. */
    method Feed(f: I32)
      requires Valid()
      modifies this, ring, ring.buf
      ensures Valid() && fed == old(fed) + [f] && old(emitted) <= emitted && read == old(read) && reported == old(reported)
    {
      hide EmittedOk, FrameOk, Source, Steps, Interpolate, Between, Ring.Unrolled;
      EmittedStays(emitted, fed, f, step);
      ghost var j := |fed|;
      prev := cur;
      cur := f;
      fed := fed + [f];
      while pos < ONE
        invariant Kept() && fed == old(fed) + [f] && cur == f && prev == old(cur) && read == old(read) && reported == old(reported)
        invariant pos + j * 0x1_0000_0000 == Steps(|emitted|, step) && pos < step + 0x1_0000_0000
        invariant old(emitted) <= emitted
        decreases 0x1_0000_0000 - pos
      {
        InterpolateIs(prev, cur, pos);
        var x := Interpolate(prev, cur, pos);
        ThisFrame(old(fed), f, prev, pos, Steps(|emitted|, step), x);
        OneStepMore(|emitted|, step);
        Put(x);
        pos := pos + step;
      }
      pos := pos - ONE;
    }

    /** `take_dropped`: the frames lost since it was last asked. */
    method TakeDropped() returns (n: nat)
      requires Valid()
      modifies `dropped, `reported
      ensures Valid() && n == old(dropped) && dropped == 0 && reported == old(reported) + n
    {
      n := dropped;
      reported := reported + n;
      dropped := 0;
    }

    /** `read`: up to `most` frames, oldest first. */
    method Read(most: nat) returns (out: seq<int>)
      requires Valid()
      modifies ring, `gone, `read
      ensures Valid() && |out| == Min(most, old(ring.len)) && gone == old(gone) + out && read == old(read) + |out|
      ensures out == old(ring.Contents())[..|out|] && emitted == old(emitted)
    {
      hide EmittedOk, Steps, Ring.Unrolled;
      var n := Min(ring.len, most);
      out := ring.Take(n);
      gone := gone + out;
      read := read + n;
    }
  }

  lemma EmittedMore(emitted: seq<int>, fed: seq<I32>, step: nat, x: int)
    requires EmittedOk(emitted, fed, step) && FrameOk(x, Source(fed), Steps(|emitted|, step))
    ensures EmittedOk(emitted + [x], fed, step)
  {
    hide FrameOk;
  }

  /** Later device frames change nothing about the frames before. */
  lemma EmittedStays(emitted: seq<int>, fed: seq<I32>, f: I32, step: nat)
    requires EmittedOk(emitted, fed, step)
    ensures EmittedOk(emitted, fed + [f], step)
  {
    var a, b := Source(fed), Source(fed + [f]);
    assert a <= b;
    forall e | 0 <= e < |emitted| ensures FrameOk(emitted[e], b, Steps(e, step)) {
      assert FrameOk(emitted[e], a, Steps(e, step));
    }
  }

  /** The frame emitted at `pos` between the last device frame and this one. */
  lemma ThisFrame(before: seq<I32>, f: I32, prev: I32, pos: nat, p: nat, x: int)
    requires pos < 0x1_0000_0000 && p == pos + |before| * 0x1_0000_0000
    requires prev == (if before == [] then 0 else before[|before| - 1]) && x == Between(prev, f, pos)
    ensures FrameOk(x, Source(before + [f]), p)
  {
    var s := Source(before + [f]);
    assert p / 0x1_0000_0000 == |before| && p % 0x1_0000_0000 == pos;
    assert s[|before|] == prev && s[|before| + 1] == f;
  }

  /** After `j` device frames exactly as many frames have been made as steps are
      needed to reach `j`, each of them read, waiting or dropped. */
  lemma Conserves(s: Stream)
    requires s.Valid()
    ensures Reaches(|s.emitted|, |s.fed|, s.step)
    ensures |s.emitted| == (|s.fed| * 0x1_0000_0000 + s.step - 1) / s.step
    ensures |s.emitted| == s.read + s.reported + s.dropped + s.ring.len
  {
    CeilIs(|s.emitted|, |s.fed| * 0x1_0000_0000, s.step);
  }

  lemma CeilIs(e: nat, a: nat, step: nat)
    requires step > 0 && a <= e * step < a + step
    ensures (a + step - 1) / step == e
  {
    var x := a + step - 1;
    var q := x / step;
    assert x == step * q + x % step;
    assert q < e ==> step * (q + 1) <= step * e;
    assert q > e ==> step * q >= step * (e + 1);
  }

  lemma FrameAt(s: Stream, e: nat)
    requires s.Valid() && e < |s.emitted|
    ensures var src := Source(s.fed); var i := e * s.step / 0x1_0000_0000;
      && i + 1 < |src| && s.emitted[e] == Sample(src, e * s.step)
      && Min(src[i], src[i + 1]) <= s.emitted[e] <= Max(src[i], src[i + 1])
  {
    hide Sample;
    assert FrameOk(s.emitted[e], Source(s.fed), Steps(e, s.step));
    SampleBetween(Source(s.fed), e * s.step);
  }
}
