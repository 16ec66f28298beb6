/** The Internet checksum: the eight-bytes-at-a-time sum, its fold and the
    incremental update (net/src/csum.rs), against the plain sum of 16-bit
    words of section 2 of RFC 1071. */
module Csum {
  import opened Util

  type Word = w: int | 0 <= w <= 0xFFFF

  /** The reference: the bytes in pairs, high byte first; a last single byte is the
      high half of its word. */
  function WordSum(data: seq<Byte>): nat {
    if |data| == 0 then 0
    else if |data| == 1 then Be16(data[0], 0)
    else Be16(data[0], data[1]) + WordSum(data[2..])
  }

  /** The ones-complement value of a sum: zero only for zero, else 1..0xFFFF. */
  function Ones(s: nat): (r: Word)
    ensures (r == 0 <==> s == 0) && r % 0xFFFF == s % 0xFFFF
  {
    if s == 0 then 0 else (s - 1) % 0xFFFF + 1
  }

  /** `!x` on 16 bits. */
  function Not16(x: Word): Word { 0xFFFF - x }

  function Be32(a: Byte, b: Byte, c: Byte, d: Byte): int { 65536 * Be16(a, b) + Be16(c, d) }

  /** Adding a multiple of 0xFFFF to a nonzero sum leaves its value alone. */
  lemma {:induction false} OnesShift(s: nat, q: nat)
    requires s == 0 ==> q == 0
    ensures Ones(s + 0xFFFF * q) == Ones(s)
    decreases q
  {
    if q > 0 {
      OnesShift(s, q - 1);
      var t := s + 0xFFFF * (q - 1);
      assert (t - 1 + 0xFFFF) % 0xFFFF == (t - 1) % 0xFFFF;
    }
  }

  lemma WordSumSplit(a: seq<Byte>, b: seq<Byte>)
    requires |a| % 2 == 0
    ensures WordSum(a + b) == WordSum(a) + WordSum(b)
    decreases |a|
  {
    if a == [] {
      assert a + b == b;
    } else {
      assert (a + b)[2..] == a[2..] + b;
      WordSumSplit(a[2..], b);
    }
  }

  method Sum(data: seq<Byte>) returns (acc: nat)
    ensures Ones(acc) == Ones(WordSum(data))
    // The u64 accumulator holds the sum of anything up to 16 GiB.
    ensures acc <= 0x4000_0000 * |data|
  {
    acc := 0;
    var i := 0;
    // A 32-bit word counts like its two halves plus 0xFFFF times the upper one.
    ghost var q: nat := 0;
    while i + 8 <= |data|
      invariant 0 <= i <= |data| && i % 2 == 0
      invariant acc == WordSum(data[..i]) + 0xFFFF * q
      invariant WordSum(data[..i]) == 0 ==> q == 0
      invariant acc <= 0x4000_0000 * i
    {
      acc := acc + Be32(data[i], data[i + 1], data[i + 2], data[i + 3]);
      acc := acc + Be32(data[i + 4], data[i + 5], data[i + 6], data[i + 7]);
      q := q + Be16(data[i], data[i + 1]) + Be16(data[i + 4], data[i + 5]);
      ChunkStep(data, i);
      EvenAfter(i);
      i := i + 8;
    }
    var rest := SumTail(data, i);
    acc := acc + rest;
    OnesShift(WordSum(data), q);
  }

  lemma EvenAfter(i: nat)
    requires i % 2 == 0
    ensures (i + 8) % 2 == 0
  {
  }

  /** The words past the last whole eight, and an odd byte. */
  method SumTail(data: seq<Byte>, from: nat) returns (acc: nat)
    requires from <= |data| && from % 2 == 0
    ensures WordSum(data) == WordSum(data[..from]) + acc
    ensures acc <= 0x4000_0000 * (|data| - from)
  {
    acc := 0;
    var i := from;
    while i + 1 < |data|
      invariant from <= i <= |data| && i % 2 == 0
      invariant WordSum(data[..i]) == WordSum(data[..from]) + acc
      invariant acc <= 0x4000_0000 * (i - from)
    {
      WordStep(data, i);
      acc := acc + Be16(data[i], data[i + 1]);
      i := i + 2;
    }
    assert data == data[..i] + data[i..];
    WordSumSplit(data[..i], data[i..]);
    if i < |data| {
      acc := acc + Be16(data[i], 0);
    }
  }

  lemma ChunkStep(data: seq<Byte>, i: nat)
    requires i + 8 <= |data| && i % 2 == 0
    ensures WordSum(data[..i + 8]) == WordSum(data[..i])
            + Be16(data[i], data[i + 1]) + Be16(data[i + 2], data[i + 3])
            + Be16(data[i + 4], data[i + 5]) + Be16(data[i + 6], data[i + 7])
  {
    WordStep(data, i);
    WordStep(data, i + 2);
    WordStep(data, i + 4);
    WordStep(data, i + 6);
  }

  lemma WordStep(data: seq<Byte>, i: nat)
    requires i + 2 <= |data| && i % 2 == 0
    ensures WordSum(data[..i + 2]) == WordSum(data[..i]) + Be16(data[i], data[i + 1])
  {
    assert data[..i + 2] == data[..i] + data[i..i + 2];
    WordSumSplit(data[..i], data[i..i + 2]);
  }

  method Fold(sum: nat) returns (f: Word)
    ensures f == Ones(sum)
  {
    var r := sum;
    while r >= 0x1_0000
      invariant Ones(r) == Ones(sum)
      decreases r
    {
      var hi, lo := r / 0x1_0000, r % 0x1_0000;
      OnesShift(lo + hi, hi);
      r := lo + hi;
    }
    f := r;
  }

  /** The checksum of a header or segment: the complement of its folded sum. */
  function Checksum(data: seq<Byte>): Word { Not16(Ones(WordSum(data))) }

  /** The terms `~m + m'` of section 3 of RFC 1624, over the changed words. */
  function ChangeSum(changes: seq<(Word, Word)>): nat {
    if changes == [] then 0
    else
      var (m, m') := changes[|changes| - 1];
      ChangeSum(changes[..|changes| - 1]) + Not16(m) + m'
  }

  method Update(check: Word, changes: seq<(Word, Word)>) returns (r: Word)
    ensures r == Not16(Ones(Not16(check) + ChangeSum(changes)))
  {
    var s: nat := Not16(check);
    for i := 0 to |changes|
      invariant s == Not16(check) + ChangeSum(changes[..i])
    {
      assert changes[..i + 1][..i] == changes[..i];
      s := s + Not16(changes[i].0) + changes[i].1;
    }
    assert changes[..|changes|] == changes;
    var f := Fold(s);
    r := Not16(f);
  }

  // ── Incremental update against a full recomputation ──────────────────

  /** A write of one aligned 16-bit word: its index and its new value. */
  datatype Write = Write(at: nat, word: Word)

  /** The bytes of a buffer of 16-bit words. */
  function Bytes(ws: seq<Word>): seq<Byte> {
    if ws == [] then [] else
      var b: seq<Byte> := [ws[0] / 256, ws[0] % 256];
      b + Bytes(ws[1..])
  }

  function Words(ws: seq<Word>): nat { if ws == [] then 0 else ws[0] as nat + Words(ws[1..]) }

  lemma {:induction false} WordSumOfBytes(ws: seq<Word>)
    ensures WordSum(Bytes(ws)) == Words(ws)
  {
    if ws != [] {
      WordSumOfBytes(ws[1..]);
      assert Bytes(ws)[2..] == Bytes(ws[1..]);
    }
  }

  /** The buffer after a series of writes. */
  function Apply(ws: seq<Word>, writes: seq<Write>): (r: seq<Word>)
    requires forall w | w in writes :: w.at < |ws|
    ensures |r| == |ws|
  {
    if writes == [] then ws
    else
      var last := writes[|writes| - 1];
      Apply(ws, writes[..|writes| - 1])[last.at := last.word]
  }

  /** The (old, new) pairs handed to `update`, each old word as it stood at its write. */
  function Changes(ws: seq<Word>, writes: seq<Write>): seq<(Word, Word)>
    requires forall w | w in writes :: w.at < |ws|
  {
    if writes == [] then []
    else
      var init, last := writes[..|writes| - 1], writes[|writes| - 1];
      Changes(ws, init) + [(Apply(ws, init)[last.at], last.word)]
  }

  lemma WordsUpdate(ws: seq<Word>, i: nat, v: Word)
    requires i < |ws|
    ensures Words(ws[i := v]) + ws[i] == Words(ws) + v
  {
    if i > 0 {
      assert ws[i := v][1..] == ws[1..][i - 1 := v];
      WordsUpdate(ws[1..], i - 1, v);
    }
  }

  lemma WordsZero(ws: seq<Word>)
    ensures Words(ws) == 0 <==> forall i | 0 <= i < |ws| :: ws[i] == 0
  {
    if ws != [] {
      WordsZero(ws[1..]);
      assert forall i | 1 <= i < |ws| :: ws[i] == ws[1..][i - 1];
    }
  }

  /** The change terms account for the new sum, up to one 0xFFFF per write. */
  lemma {:induction false} ChangeSumTracks(ws: seq<Word>, writes: seq<Write>)
    requires forall w | w in writes :: w.at < |ws|
    ensures Words(ws) + ChangeSum(Changes(ws, writes)) == Words(Apply(ws, writes)) + 0xFFFF * |writes|
  {
    if writes != [] {
      var init, last := writes[..|writes| - 1], writes[|writes| - 1];
      ChangeSumTracks(ws, init);
      WordsUpdate(Apply(ws, init), last.at, last.word);
      var cs := Changes(ws, writes);
      assert cs[..|cs| - 1] == Changes(ws, init);
    }
  }

  /** What `update` makes of the buffer's checksum and the changed words. */
  function Updated(ws: seq<Word>, writes: seq<Write>): Word
    requires forall w | w in writes :: w.at < |ws|
  {
    Not16(Ones(Not16(Checksum(Bytes(ws))) + ChangeSum(Changes(ws, writes))))
  }

  /** Section 3 of RFC 1624: the incremental update agrees with a full
      recomputation exactly unless something was written and every word is
      now zero; then it yields the other ones-complement zero. */
  lemma {:induction false} UpdateIsRecompute(ws: seq<Word>, writes: seq<Write>)
    requires forall w | w in writes :: w.at < |ws|
    ensures Updated(ws, writes) == Checksum(Bytes(Apply(ws, writes)))
            <==> (writes == [] || exists i :: 0 <= i < |ws| && Apply(ws, writes)[i] != 0)
    ensures writes != [] && (forall i | 0 <= i < |ws| :: Apply(ws, writes)[i] == 0)
            ==> Updated(ws, writes) == 0
  {
    hide Words, WordSum, Bytes, Changes, ChangeSum, Ones;
    WordSumOfBytes(ws);
    WordSumOfBytes(Apply(ws, writes));
    WordsZero(Apply(ws, writes));
    ChangeSumTracks(ws, writes);
    UpdateValue(Words(ws), Words(Apply(ws, writes)), ChangeSum(Changes(ws, writes)), |writes|);
  }

  /** The folded change sum, from sums that differ by a multiple of 0xFFFF. */
  lemma UpdateValue(before: nat, after: nat, change: nat, n: nat)
    requires before + change == after + 0xFFFF * n
    ensures Ones(Ones(before) + change) == if n > 0 && after == 0 then 0xFFFF else Ones(after)
  {
    var s := Ones(before) + change;
    var q := Quotient(before);
    assert s + 0xFFFF * q == after + 0xFFFF * n;
    OnesShift(s, q);
    if after != 0 || n == 0 {
      OnesShift(after, n);
    } else {
      OnesMultiple(n);
    }
  }

  /** A sum is its ones-complement value plus a multiple of 0xFFFF. */
  lemma Quotient(s: nat) returns (q: nat)
    ensures s == Ones(s) + 0xFFFF * q && (s == 0 ==> q == 0)
  {
    q := if s == 0 then 0 else (s - 1) / 0xFFFF;
  }

  /** A positive multiple of 0xFFFF is the negative zero. */
  lemma OnesMultiple(q: nat)
    requires q > 0
    ensures Ones(0xFFFF * q) == 0xFFFF
  {
    assert 0xFFFF * q == 0xFFFF + 0xFFFF * (q - 1);
    OnesShift(0xFFFF, q - 1);
  }

  /** A sum and its complement make the negative zero. */
  lemma SumPlusComplement(s: nat)
    ensures Ones(s + Not16(Ones(s))) == 0xFFFF
  {
    var q := Quotient(s);
    OnesShift(0xFFFF, q);
  }

  /** Putting the complement of a header's sum into its zeroed checksum
      field, at an even offset, makes the header fold to 0xFFFF. */
  lemma StoredChecksumFolds(header: seq<Byte>, at: nat, c: Word)
    requires at % 2 == 0 && at + 2 <= |header|
    requires header[at] == 0 && header[at + 1] == 0
    requires c == Checksum(header)
    ensures Ones(WordSum(header[at := c / 256][at + 1 := c % 256])) == 0xFFFF
  {
    var stored := header[at := c / 256][at + 1 := c % 256];
    WordStep(header, at);
    WordStep(stored, at);
    assert header[..at] == stored[..at] && header[at + 2..] == stored[at + 2..];
    assert header == header[..at + 2] + header[at + 2..] && stored == stored[..at + 2] + stored[at + 2..];
    WordSumSplit(header[..at + 2], header[at + 2..]);
    WordSumSplit(stored[..at + 2], stored[at + 2..]);
    assert Be16(c / 256, c % 256) == c;
    SumPlusComplement(WordSum(header));
  }
}
