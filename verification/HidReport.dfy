/** Whole reports: values written to the fields of a parsed report read back
    together (hid/src/lib.rs). */
module HidReport {
  import opened Util
  import opened HidLayout
  import C = HidCodec

  /** The bits of a value the codec uses. */
  function Bits(f: Field): nat { Min(f.size, 32) }

  /** Value `n` of a field as `hid_input_fetch_field` takes it: with its sign if
      the field has negative values. */
  function Fetched(r: C.Report, f: Field, n: nat): int {
    var raw := C.Value(r, At(f, n), Bits(f));
    if f.minimum < 0 then C.Snto32(raw, f.size) else AsI32(raw)
  }

  /** The first half of `hid_input_fetch_field`: the values of a field. */
  method FetchField(r: C.Report, f: Field) returns (values: seq<int>)
    ensures |values| == f.count && forall n | 0 <= n < f.count :: values[n] == Fetched(r, f, n)
  {
    hide C.Value, C.Snto32;
    values := [];
    for n := 0 to f.count
      invariant |values| == n && forall k | 0 <= k < n :: values[k] == Fetched(r, f, k)
    {
      var raw := C.FieldExtract(r, At(f, n), f.size);
      values := values + [if f.minimum < 0 then C.Snto32(raw, f.size) else AsI32(raw)];
    }
  }

  /** A signed value for place `n` of a field. */
  datatype Write = Write(field: nat, n: nat, value: int)

  ghost predicate WriteOk(l: Layout, w: Write) {
    && w.field < |l.fields| && w.n < l.fields[w.field].count && l.fields[w.field].size > 0
    && -0x8000_0000 <= w.value < 0x8000_0000
  }

  ghost predicate Elsewhere(a: Write, b: Write) { a.field != b.field || a.n != b.n }

  /** The place holds the value's bits. */
  ghost predicate Stored(r: C.Report, l: Layout, w: Write)
    requires WriteOk(l, w)
  {
    var f := l.fields[w.field];
    C.Value(r, At(f, w.n), Bits(f)) == C.Low(C.S32ton(w.value, f.size), Bits(f))
  }

  /** The place reads back the value clamped to its bits, unless it is negative
      and the field has no negative values. */
  ghost predicate ReadsBack(r: C.Report, l: Layout, w: Write)
    requires WriteOk(l, w)
  {
    var f := l.fields[w.field];
    Fetched(r, f, w.n) == C.Clamped(w.value, Bits(f)) <==> f.minimum < 0 || w.value >= 0 || f.size >= 32
  }

  lemma StoredReadsBack(r: C.Report, l: Layout, w: Write)
    requires WriteOk(l, w) && Stored(r, l, w)
    ensures ReadsBack(r, l, w)
  {
    hide C.Value, C.Snto32, C.S32ton, C.Low, C.Clamped, At;
    var f := l.fields[w.field];
    var at, v := At(f, w.n), w.value;
    C.SnMin(v, C.Value(r, at, Bits(f)), f.size);
    C.SignedFieldReadsBack(r, at, Bits(f), v);
    C.UnsignedFieldReadsBack(r, at, Bits(f), v);
  }

  /** One value into its place leaves every other place as it was. */
  method WriteOne(r: array<Byte>, l: Layout, w: Write)
    requires LayoutOk(l) && l.size <= 8 * r.Length && WriteOk(l, w)
    modifies r
    ensures Stored(r[..], l, w)
    ensures forall k | WriteOk(l, k) && Elsewhere(k, w) && old(Stored(r[..], l, k)) :: Stored(r[..], l, k)
  {
    hide LayoutOk, C.Value, C.Snto32, C.S32ton, C.Low, C.ReportBit, At;
    var f := l.fields[w.field];
    var x := C.S32ton(w.value, f.size);
    ghost var before := r[..];
    C.FieldImplement(r, At(f, w.n), f.size, x);
    ghost var after := r[..];
    WriteInside(l, w);
    C.ImplementThenExtract(before, after, At(f, w.n), Bits(f), x);
    forall k | WriteOk(l, k) && Elsewhere(k, w) && Stored(before, l, k) ensures Stored(after, l, k) {
      var g := l.fields[k.field];
      ValuesClear(l, w.field, w.n, k.field, k.n);
      C.ImplementElsewhere(before, after, At(f, w.n), Bits(f), x, At(g, k.n), Bits(g));
    }
  }

  lemma WriteInside(l: Layout, w: Write)
    requires LayoutOk(l) && WriteOk(l, w)
    ensures At(l.fields[w.field], w.n) + l.fields[w.field].size <= l.size
  {
    hide At, Width;
    AtInside(l.fields[w.field], w.n);
  }

  /** Signed values written to any places of a report, each once, all read back
      together, clamped to their fields. */
  method WriteAll(r: array<Byte>, l: Layout, ws: seq<Write>)
    requires LayoutOk(l) && l.size <= 8 * r.Length
    requires forall i | 0 <= i < |ws| :: WriteOk(l, ws[i])
    requires forall i, j | 0 <= i < j < |ws| :: Elsewhere(ws[i], ws[j])
    modifies r
    ensures forall i | 0 <= i < |ws| :: ReadsBack(r[..], l, ws[i])
  {
    hide LayoutOk, WriteOk, Stored, ReadsBack;
    for i := 0 to |ws|
      invariant forall k | 0 <= k < i :: Stored(r[..], l, ws[k])
    {
      WriteOne(r, l, ws[i]);
    }
    forall i | 0 <= i < |ws| ensures ReadsBack(r[..], l, ws[i]) {
      StoredReadsBack(r[..], l, ws[i]);
    }
  }
}
