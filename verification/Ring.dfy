/** A ring buffer in place (`Slot` of kernel/src/audio.rs, `Stream` of
    kernel/src/capture.rs). */
module Ring {
  import opened Util

  /** A place past the end comes round to the front. */
  function Wrap(x: nat, cap: nat): nat { if x < cap then x else x - cap }

  lemma ModWrap(x: nat, cap: nat)
    requires 0 < cap && x < 2 * cap
    ensures x % cap == Wrap(x, cap)
  {
    var q := x / cap;
    assert x == cap * q + x % cap;
    assert q >= 2 ==> cap * q >= cap * 2;
    assert q == 0 || q == 1;
  }

  /** Element `i` of a ring that begins at `head`. */
  function At(b: seq<int>, head: nat, i: nat): int
    requires head < |b| && i < |b|
  {
    b[Wrap(head + i, |b|)]
  }

  /** `n` elements of `b` from `head` on, round the end. */
  function Unrolled(b: seq<int>, head: nat, n: nat): seq<int>
    requires head < |b| && n <= |b|
  {
    seq(n, i requires 0 <= i < n => At(b, head, i))
  }

  /** The front of a ring and the rest, from where that begins. */
  lemma Cut(b: seq<int>, head: nat, n: nat, len: nat)
    requires head < |b| && n <= len <= |b| && n < |b|
    ensures Unrolled(b, head, n) + Unrolled(b, Wrap(head + n, |b|), len - n) == Unrolled(b, head, len)
  {
    var front, rest, all := Unrolled(b, head, n), Unrolled(b, Wrap(head + n, |b|), len - n), Unrolled(b, head, len);
    forall i | 0 <= i < len ensures (front + rest)[i] == all[i] {
      if i >= n {
        assert Wrap(Wrap(head + n, |b|) + (i - n), |b|) == Wrap(head + i, |b|);
      }
    }
  }

  /** Writing past the last element, round the end, appends. */
  lemma Grown(b: seq<int>, c: seq<int>, head: nat, len: nat, n: nat, data: seq<int>, w: nat, first: nat)
    requires |c| == |b| && head < |b| && len + n <= |b| && n <= |data|
    requires w == Wrap(head + len, |b|) && first == Min(n, |b| - w)
    requires forall i | 0 <= i < first :: c[w + i] == data[i]
    requires forall i | 0 <= i < n - first :: c[i] == data[first + i]
    requires forall k | n - first <= k < |b| && !(w <= k < w + first) :: c[k] == b[k]
    ensures Unrolled(c, head, len + n) == Unrolled(b, head, len) + data[..n]
  {
    forall k: nat | k < len ensures At(c, head, k) == At(b, head, k) {
      Untouched(|b|, head, len, n, w, first, k);
    }
    forall k: nat | k < n ensures At(c, head, len + k) == data[k] {
      Reached(|b|, head, len, n, w, first, k);
      if k >= first {
        assert c[k - first] == data[first + (k - first)];
      }
    }
  }

  /** The places written are not those of the elements there. */
  lemma Untouched(cap: nat, head: nat, len: nat, n: nat, w: nat, first: nat, k: nat)
    requires head < cap && len + n <= cap && w == Wrap(head + len, cap) && first == Min(n, cap - w) && k < len
    ensures var p := Wrap(head + k, cap); n - first <= p < cap && !(w <= p < w + first)
  {
  }

  /** The places written are the next ones. */
  lemma Reached(cap: nat, head: nat, len: nat, n: nat, w: nat, first: nat, k: nat)
    requires head < cap && len + n <= cap && w == Wrap(head + len, cap) && first == Min(n, cap - w) && k < n
    ensures Wrap(head + (len + k), cap) == if k < first then w + k else k - first
  {
  }

  class Ring {
    const buf: array<int>
    var head: nat
    var len: nat

    ghost predicate Valid()
      reads this
    {
      0 < buf.Length && head < buf.Length && len <= buf.Length
    }

    ghost function Contents(): (s: seq<int>)
      requires Valid()
      reads this, buf
      ensures |s| == len
    {
      Unrolled(buf[..], head, len)
    }

    constructor (cap: nat)
      requires cap > 0
      ensures Valid() && fresh(buf) && buf.Length == cap && Contents() == []
    {
      buf := new int[cap](_ => 0);
      head, len := 0, 0;
    }

    /** `push`: as much of `data` as there is room for, in up to two pieces. */
    method Push(data: seq<int>) returns (n: nat)
      requires Valid()
      modifies this, buf
      ensures Valid() && n == Min(|data|, buf.Length - |old(Contents())|)
      ensures Contents() == old(Contents()) + data[..n]
    {
      var cap := buf.Length;
      n := Min(|data|, cap - len);
      ModWrap(head + len, cap);
      var w := (head + len) % cap;
      var first := Min(n, cap - w);
      for i := 0 to first
        invariant head == old(head) && len == old(len)
        invariant forall k | 0 <= k < cap :: buf[k] == if w <= k < w + i then data[k - w] else old(buf[k])
      {
        buf[w + i] := data[i];
      }
      for i := 0 to n - first
        invariant head == old(head) && len == old(len)
        invariant forall k | 0 <= k < cap ::
          buf[k] == if k < i then data[first + k] else if w <= k < w + first then data[k - w] else old(buf[k])
      {
        buf[i] := data[first + i];
      }
      Grown(old(buf[..]), buf[..], head, len, n, data, w, first);
      len := len + n;
    }

    /** Take `n` elements from the front. */
    method Take(n: nat) returns (out: seq<int>)
      requires Valid() && n <= len
      modifies `head, `len
      ensures Valid() && out + Contents() == old(Contents()) && |out| == n
    {
      var cap := buf.Length;
      out := [];
      for i := 0 to n
        invariant head == old(head) && len == old(len) && out == Unrolled(buf[..], head, i)
      {
        ModWrap(head + i, cap);
        out := out + [buf[(head + i) % cap]];
      }
      ModWrap(head + n, cap);
      if n < cap {
        Cut(buf[..], head, n, len);
      }
      head := (head + n) % cap;
      len := len - n;
    }
  }
}
