/** The report descriptor parser (hid/src/lib.rs; section 6.2.2 of USB HID
    1.11), as far as it lays out reports. */
module HidLayout {
  import opened Util

  const MAX_USAGES: nat := 12288
  const MAX_IDS: nat := 256
  const MAX_FIELDS: nat := 256
  const MAX_BITS: nat := 131_064
  const STACK_SIZE: nat := 4

  datatype Kind = InputReport | OutputReport | FeatureReport

  /** One main item's field: a bit range, and one place in each value table for
      every usage. */
  datatype Field = Field(usage: seq<nat>, flags: nat, offset: nat, size: nat, count: nat,
                         minimum: int, maximum: int, values: nat)

  /** The bits of a field, and its end. */
  function Width(f: Field): nat { f.size * f.count }

  datatype Layout = Layout(size: nat, fields: seq<Field>)

  ghost predicate FieldOk(f: Field) { f.count <= |f.usage| == f.values && |f.usage| > 0 && f.size <= 256 }

  /** Each field begins where, or after, the one before ends, and the last ends
      within the report. */
  ghost predicate LayoutOk(l: Layout) {
    && l.size <= 131_064 && |l.fields| <= 256
    && (forall i | 0 <= i < |l.fields| :: FieldOk(l.fields[i]) && l.fields[i].offset + Width(l.fields[i]) <= l.size)
    && (forall i, j | 0 <= i < j < |l.fields| :: l.fields[i].offset + Width(l.fields[i]) <= l.fields[j].offset)
  }

  type Device = map<(Kind, nat), Layout>

  ghost predicate DeviceOk(d: Device) { forall k | k in d :: LayoutOk(d[k]) }

  /** Where value `n` of a field begins. */
  function At(f: Field, n: nat): nat { f.offset + n * f.size }

  lemma {:induction false} Multiples(n: nat, m: nat, size: nat)
    requires n < m
    ensures n * size + size <= m * size
    decreases m
  {
    assert m * size == (m - 1) * size + size;
    if n < m - 1 {
      Multiples(n, m - 1, size);
    }
  }

  lemma AtInside(f: Field, n: nat)
    requires n < f.count
    ensures f.offset <= At(f, n) && At(f, n) + f.size <= f.offset + Width(f)
  {
    Multiples(n, f.count, f.size);
    assert f.size * f.count == f.count * f.size;
  }

  lemma AtNext(f: Field, n: nat, m: nat)
    requires n < m
    ensures At(f, n) + f.size <= At(f, m)
  {
    Multiples(n, m, f.size);
  }

  /** Two values of one report never share a bit, and all lie inside it. */
  lemma ValuesClear(l: Layout, i: nat, n: nat, j: nat, m: nat)
    requires LayoutOk(l) && i < |l.fields| && j < |l.fields| && n < l.fields[i].count && m < l.fields[j].count
    requires i != j || n != m
    ensures var a, b := l.fields[i], l.fields[j];
      && At(a, n) + a.size <= l.size
      && (At(a, n) + a.size <= At(b, m) || At(b, m) + b.size <= At(a, n))
  {
    hide At, Width;
    var a, b := l.fields[i], l.fields[j];
    AtInside(a, n);
    AtInside(b, m);
    if i < j {
      assert a.offset + Width(a) <= b.offset;
    } else if j < i {
      assert b.offset + Width(b) <= a.offset;
    } else if n < m {
      AtNext(a, n, m);
    } else {
      AtNext(a, m, n);
    }
  }

  // ── Items ────────────────────────────────────────────────────────────

  datatype Item = Item(long: bool, size: nat, kind: nat, tag: nat, data: nat)

  function Number(b: seq<Byte>): nat { if b == [] then 0 else b[0] + 256 * Number(b[1..]) }

  /** The other way: `n` bytes, the lowest first. */
  function Bytes(x: nat, n: nat): (b: seq<Byte>)
    ensures |b| == n
  {
    if n == 0 then [] else [x % 256] + Bytes(x / 256, n - 1)
  }

  lemma NumberUpTo(b: seq<Byte>)
    requires |b| <= 4
    ensures Number(b) < 0x1_0000_0000
    ensures |b| <= 1 ==> Number(b) < 0x100
    ensures |b| <= 2 ==> Number(b) < 0x1_0000
    ensures |b| <= 3 ==> Number(b) < 0x100_0000
    decreases |b|
  {
    if b != [] {
      NumberUpTo(b[1..]);
    }
  }

  /** A short item as it stands in a descriptor. */
  function Encoded(item: Item): seq<Byte>
    requires Short(item)
  {
    [16 * item.tag + 4 * item.kind + (if item.size == 4 then 3 else item.size)] + Bytes(item.data, item.size)
  }

  predicate Short(item: Item) {
    && !item.long && item.kind < 4 && item.tag < 15
    && match item.size
       case 0 => item.data == 0
       case 1 => item.data < 0x100
       case 2 => item.data < 0x1_0000
       case 4 => item.data < 0x1_0000_0000
       case _ => false
  }

  lemma {:induction false} NumberOfBytes(x: nat, n: nat)
    requires match n case 0 => x == 0 case 1 => x < 0x100 case 2 => x < 0x1_0000 case 3 => x < 0x100_0000 case 4 => x < 0x1_0000_0000 case _ => false
    ensures Number(Bytes(x, n)) == x
    decreases n
  {
    if n > 0 {
      NumberOfBytes(x / 256, n - 1);
      assert Bytes(x, n)[1..] == Bytes(x / 256, n - 1);
    }
  }

  lemma {:induction false} BytesOfNumber(b: seq<Byte>)
    ensures Bytes(Number(b), |b|) == b
  {
    if b != [] {
      BytesOfNumber(b[1..]);
    }
  }

  /** What a header byte and the data after it stand for. */
  lemma ShortIs(kind: nat, tag: nat, low: nat, data: seq<Byte>)
    requires kind < 4 && tag < 15 && low < 4 && |data| == if low == 3 then 4 else low
    ensures var item := Item(false, |data|, kind, tag, Number(data));
      Short(item) && Encoded(item) == [16 * tag + 4 * kind + low] + data
  {
    hide Number, Bytes;
    NumberUpTo(data);
    NumberNone();
    BytesOfNumber(data);
  }

  lemma NumberNone()
    ensures Number([]) == 0
  {
  }

  lemma HeaderIs(b: Byte)
    ensures 16 * (b / 16) + 4 * (b / 4 % 4) + b % 4 == b && b / 4 % 4 < 4
  {
    assert b / 16 == b / 4 / 4;
  }

  /** The parser reads every short item back, wherever it stands. */
  lemma FetchEncoded(before: seq<Byte>, item: Item, after: seq<Byte>)
    requires Short(item)
    ensures FetchItem(before + Encoded(item) + after, |before|) == Some((item, |before| + 1 + item.size))
  {
    var desc, p := before + Encoded(item) + after, |before| + 1;
    assert desc[|before|] == Encoded(item)[0];
    assert desc[p..p + item.size] == Bytes(item.data, item.size);
    NumberOfBytes(item.data, item.size);
  }

  /** `fetch_item`: one item with its end, if the bytes suffice. */
  function FetchItem(desc: seq<Byte>, start: nat): (r: Option<(Item, nat)>)
    requires start < |desc|
    ensures r.Some? ==> start < r.value.1 <= |desc| && r.value.0.data < 0x1_0000_0000
    ensures r.Some? && !r.value.0.long ==> Short(r.value.0) && desc[start..r.value.1] == Encoded(r.value.0)
    ensures r.Some? && r.value.0.long ==> desc[start] / 16 == 15 && r.value.1 >= start + 3 && r.value.1 == start + 3 + desc[start + 1]
  {
    var b: Byte := desc[start];
    var p := start + 1;
    var kind, tag := b / 4 % 4, b / 16;
    if tag == 15 then
      if |desc| - p < 2 then None
      else
        var size: nat := desc[p];
        if |desc| - (p + 2) < size then None
        else Some((Item(true, size, kind, desc[p + 1], 0), p + 2 + size))
    else
      var size := if b % 4 == 3 then 4 else b % 4;
      if |desc| - p < size then None
      else
        HeaderIs(b);
        ShortIs(kind, tag, b % 4, desc[p..p + size]);
        assert desc[start..p + size] == [desc[start]] + desc[p..p + size];
        Some((Item(false, size, kind, tag, Number(desc[p..p + size])), p + size))
  }

  /** `udata`. */
  function Data(item: Item): nat { if item.size == 0 then 0 else item.data }

  /** `sdata`: the data as a signed number of its size. */
  function Signed(item: Item): int {
    if item.size == 1 && item.data >= 0x80 then item.data - 0x100
    else if item.size == 2 && item.data >= 0x8000 then item.data - 0x1_0000
    else if item.size == 4 && item.data >= 0x8000_0000 then item.data - 0x1_0000_0000
    else item.data
  }

  datatype Global = Global(usagePage: nat, minimum: int, maximum: int, reportId: nat, size: nat, count: nat)

  ghost predicate GlobalOk(g: Global) { g.size <= 256 && g.count <= 12288 && g.reportId < 256 }

  /** What a global item that sets something sets; the physical range and the unit
      are not part of the layout. */
  function Set(g: Global, item: Item): Global {
    match item.tag
    case 0 => g.(usagePage := Data(item))
    case 1 => g.(minimum := Signed(item))
    case 2 => g.(maximum := if g.minimum < 0 then Signed(item) else AsI32(Data(item)))
    case 7 => g.(size := Data(item))
    case 8 => g.(reportId := Data(item))
    case 9 => g.(count := Data(item))
    case _ => g
  }

  function Completed(usage: nat, page: nat): nat { usage % 0x1_0000 + page % 0x1_0000 * 0x1_0000 }

  /** A short usage gets its page from the global item. */
  function Named(u: nat, size: nat, page: nat): nat { if size <= 2 then Completed(u, page) else u }

  /** The `n` usages from `first` on. */
  ghost function Span(first: nat, n: nat, size: nat, page: nat): seq<nat> {
    if n == 0 then [] else Span(first, n - 1, size, page) + [Named(first + n - 1, size, page)]
  }

  /** How many usages a Usage Maximum adds to the `held` ones, or none if it is
      refused. A range that is too long, or ends before it begins, is cut to the
      room there is; one whose end the 32-bit counter cannot pass fills the table. */
  function Taken(first: nat, last: nat, held: nat): Option<nat>
    requires held <= MAX_USAGES && first < 0x1_0000_0000 && last < 0x1_0000_0000
  {
    var room := MAX_USAGES - held;
    if (last - first) % 0x1_0000_0000 < room then
      if last < first then Some(0) else if last == 0xFFFF_FFFF then None else Some(last - first + 1)
    else
      var end := (room + first - 1) % 0x1_0000_0000;
      if end == 0 || end >= 0x8000_0000 then None else if end < first then Some(0) else Some(room)
  }

  /** A range that ends before it begins fills the table exactly if what that would
      take does not reach 2^31. */
  lemma BackwardFills(first: nat, last: nat, held: nat)
    requires held <= MAX_USAGES && last < first < 0x1_0000_0000
    ensures Taken(first, last, held) == Some(MAX_USAGES - held) <==> 1 < MAX_USAGES - held + first <= 0x8000_0000
  {
  }

  /** So do the usages 10 to 5. */
  lemma TenToFiveFills()
    ensures Taken(10, 5, 0) == Some(12288)
  {
  }

  lemma SpanNone(first: nat, size: nat, page: nat)
    ensures Span(first, 0, size, page) == []
  {
  }

  lemma SpanLength(first: nat, n: nat, size: nat, page: nat)
    ensures |Span(first, n, size, page)| == n
  {
  }

  /** The last usage up to `n` that is short and has the page already, or -1. */
  function LastWith(usage: seq<nat>, sizes: seq<nat>, page: nat, n: nat): (stop: int)
    requires n <= |usage| == |sizes|
    ensures -1 <= stop < n && (stop >= 0 ==> sizes[stop] <= 2 && usage[stop] / 0x1_0000 == page)
    ensures forall i | stop < i < n :: !(sizes[i] <= 2 && usage[i] / 0x1_0000 == page)
  {
    if n == 0 then -1
    else if sizes[n - 1] <= 2 && usage[n - 1] / 0x1_0000 == page then n - 1
    else LastWith(usage, sizes, page, n - 1)
  }

  /** The usages with `page` given to the short ones after that one. */
  function Paged(usage: seq<nat>, sizes: seq<nat>, page: nat): seq<nat>
    requires |usage| == |sizes|
  {
    seq(|usage|, i requires 0 <= i < |usage| =>
      if i > LastWith(usage, sizes, page, |usage|) && sizes[i] <= 2 then Completed(usage[i], page) else usage[i])
  }

  lemma LastFrom(usage: seq<nat>, sizes: seq<nat>, page: nat, i: nat, n: nat)
    requires i <= n <= |usage| == |sizes| && forall k | i <= k < n :: !(sizes[k] <= 2 && usage[k] / 0x1_0000 == page)
    ensures LastWith(usage, sizes, page, n) == LastWith(usage, sizes, page, i)
  {
  }

  lemma StopsAt(usage: seq<nat>, sizes: seq<nat>, page: nat, i: nat)
    requires i < |usage| == |sizes| && sizes[i] <= 2 && usage[i] / 0x1_0000 == page
    requires forall k | i < k < |usage| :: !(sizes[k] <= 2 && usage[k] / 0x1_0000 == page)
    ensures LastWith(usage, sizes, page, |usage|) == i
  {
    LastFrom(usage, sizes, page, i + 1, |usage|);
  }

  class Parser {
    var device: Device
    var global: Global
    var stack: seq<Global>
    var usage: seq<nat>
    var usageSize: seq<nat>
    var usageMinimum: nat
    var delimiterDepth: nat
    var delimiterBranch: nat
    var collections: nat

    /** A refused main item may leave its report too large; the parse then ends. */
    ghost predicate Sound()
      reads this
    {
      && GlobalOk(global) && (forall i | 0 <= i < |stack| :: GlobalOk(stack[i])) && |stack| <= 4
      && |usage| == |usageSize| <= 12288 && usageMinimum < 0x1_0000_0000
    }

    ghost predicate Valid()
      reads this
    {
      Sound() && DeviceOk(device)
    }

    constructor ()
      ensures Valid() && device == map[] && collections == 0 && delimiterDepth == 0 && usage == []
    {
      device, global, stack := map[], Global(0, 0, 0, 0, 0, 0), [];
      usage, usageSize, usageMinimum, delimiterDepth, delimiterBranch, collections := [], [], 0, 0, 0, 0;
    }

    /** `hid_add_usage`. */
    method AddUsage(u: nat, size: nat) returns (ok: bool)
      requires Sound()
      modifies `usage, `usageSize
      ensures Sound() && (ok <==> |old(usage)| < MAX_USAGES)
      ensures ok ==> usage == old(usage) + [Named(u, size, global.usagePage)]
      ensures !ok ==> usage == old(usage)
    {
      if |usage| >= MAX_USAGES {
        return false;
      }
      usage := usage + [Named(u, size, global.usagePage)];
      usageSize := usageSize + [size];
      return true;
    }

    /** `hid_add_field`. A refusal ends the parse, so what it leaves behind of its
        report is never seen. */
    method AddField(kind: Kind, flags: nat) returns (ok: bool)
      requires Valid()
      modifies `device
      ensures Valid()
      ensures ok ==>
        var k := (kind, global.reportId);
        k in device && device == old(device)[k := device[k]]
        && Extends(if k in old(device) then old(device)[k] else Layout(0, []), device[k], global, usage)
    {
      hide LayoutOk, Extends;
      if global.reportId >= MAX_IDS {
        return false;
      }
      var k := (kind, global.reportId);
      EmptyLayoutOk();
      var l := if k in device then device[k] else Layout(0, []);
      var r := AddTo(l, global, usage, flags);
      if r.None? {
        return false;
      }
      device := device[k := r.value];
      return true;
    }

    /** `hid_parser_global`. */
    method GlobalItem(item: Item) returns (ok: bool)
      requires Valid()
      modifies `global, `stack
      ensures DeviceOk(device) && (ok ==> Valid())
      ensures ok && item.tag == 10 ==> stack == old(stack) + [global] && global == old(global)
      ensures ok && item.tag == 11 ==> old(stack) == stack + [global]
      ensures item.tag != 10 && item.tag != 11 ==> stack == old(stack) && global == Set(old(global), item)
      ensures ok <==> !(|| (item.tag == 10 && |old(stack)| == 4) || (item.tag == 11 && old(stack) == [])
                        || (item.tag == 7 && Data(item) > 256) || (item.tag == 9 && Data(item) > 12288)
                        || (item.tag == 8 && (Data(item) == 0 || Data(item) >= 256)) || item.tag > 11)
    {
      var data := Data(item);
      match item.tag {
        case 10 =>
          if |stack| == STACK_SIZE {
            return false;
          }
          stack := stack + [global];
        case 11 =>
          if stack == [] {
            return false;
          }
          global := stack[|stack| - 1];
          stack := stack[..|stack| - 1];
        case 0 => global := global.(usagePage := data);
        case 1 => global := global.(minimum := Signed(item));
        case 2 => global := global.(maximum := if global.minimum < 0 then Signed(item) else AsI32(data));
        case 3 =>
        case 4 =>
        case 5 =>
        case 6 =>
        case 7 =>
          global := global.(size := data);
          if data > 256 {
            return false;
          }
        case 9 =>
          global := global.(count := data);
          if data > MAX_USAGES {
            return false;
          }
        case 8 =>
          global := global.(reportId := data);
          if data == 0 || data >= MAX_IDS {
            return false;
          }
        case _ => return false;
      }
      return true;
    }

    /** `hid_parser_local`. */
    method LocalItem(item: Item) returns (ok: bool)
      requires Valid() && item.data < 0x1_0000_0000
      modifies `usage, `usageSize, `usageMinimum, `delimiterDepth, `delimiterBranch
      ensures Valid()
      ensures item.tag == 10 ==>
        && usage == old(usage) && usageMinimum == old(usageMinimum)
        && (ok <==> (Data(item) != 0 <==> old(delimiterDepth) == 0))
        && (ok ==> delimiterDepth == (if Data(item) != 0 then 1 else old(delimiterDepth) - 1))
        && delimiterBranch == old(delimiterBranch) + (if ok && Data(item) != 0 then 1 else 0)
      ensures item.tag != 10 ==> delimiterDepth == old(delimiterDepth) && delimiterBranch == old(delimiterBranch)
      ensures item.tag != 10 && (old(delimiterBranch) > 1 || item.tag > 2) ==>
        ok && usage == old(usage) && usageMinimum == old(usageMinimum)
      ensures item.tag == 0 && old(delimiterBranch) <= 1 ==>
        && (ok <==> |old(usage)| < MAX_USAGES)
        && (ok ==> usage == old(usage) + [Named(Data(item), item.size, global.usagePage)])
      ensures item.tag == 1 && old(delimiterBranch) <= 1 ==> ok && usageMinimum == Data(item) && usage == old(usage)
      ensures item.tag == 2 && old(delimiterBranch) <= 1 ==>
        var n := Taken(usageMinimum, Data(item), |old(usage)|);
        (ok <==> n.Some?) && (ok ==> usage == old(usage) + Span(usageMinimum, n.value, item.size, global.usagePage))
    {
      hide DeviceOk, GlobalOk;
      var data := Data(item);
      if item.tag == 10 {
        if data != 0 {
          if delimiterDepth != 0 {
            return false;
          }
          delimiterDepth, delimiterBranch := delimiterDepth + 1, delimiterBranch + 1;
        } else {
          if delimiterDepth < 1 {
            return false;
          }
          delimiterDepth := delimiterDepth - 1;
        }
        return true;
      }
      if delimiterBranch > 1 || item.tag > 2 {
        return true;
      }
      if item.tag == 0 {
        ok := AddUsage(data, item.size);
      } else if item.tag == 1 {
        usageMinimum := data;
        ok := true;
      } else {
        ok := UsageMaximum(data, item.size);
      }
    }

    /** A Usage Maximum: every usage from the minimum on, as far as there is room. */
    method UsageMaximum(last: nat, size: nat) returns (ok: bool)
      requires Valid() && last < 0x1_0000_0000
      modifies `usage, `usageSize
      ensures Valid()
      ensures var n := Taken(usageMinimum, last, |old(usage)|);
        (ok <==> n.Some?) && (ok ==> usage == old(usage) + Span(usageMinimum, n.value, size, global.usagePage))
    {
      hide DeviceOk, GlobalOk, Span;
      var data := last;
      var count := (data - usageMinimum) % 0x1_0000_0000;
      if count + |usage| >= MAX_USAGES {
        var room := MAX_USAGES - |usage|;
        data := (room + usageMinimum - 1) % 0x1_0000_0000;
        if AsI32(data) <= 0 {
          return false;
        }
      }
      SpanNone(usageMinimum, size, global.usagePage);
      ok := AddUsages(data, size);
    }

    /** The loop: the counter is 32 bits wide and wraps, and then the room runs out. */
    method AddUsages(last: nat, size: nat) returns (ok: bool)
      requires Valid() && last < 0x1_0000_0000
      requires last != 0xFFFF_FFFF ==> last - usageMinimum + |usage| < MAX_USAGES
      modifies `usage, `usageSize
      ensures Valid()
      ensures last < usageMinimum ==> ok && usage == old(usage)
      ensures usageMinimum <= last ==> (ok <==> last != 0xFFFF_FFFF)
      ensures usageMinimum <= last && ok ==>
        usage == old(usage) + Span(usageMinimum, last - usageMinimum + 1, size, global.usagePage)
    {
      hide DeviceOk, GlobalOk, Named;
      var n: nat := usageMinimum;
      while n <= last
        invariant Valid() && n < 0x1_0000_0000 && (last < usageMinimum ==> n == usageMinimum && usage == old(usage))
        invariant last != 0xFFFF_FFFF && usageMinimum <= last ==>
          usageMinimum <= n <= last + 1 && usage == old(usage) + Span(usageMinimum, n - usageMinimum, size, global.usagePage)
        decreases MAX_USAGES - |usage|
      {
        if n >= usageMinimum {
          SpanLength(usageMinimum, n - usageMinimum, size, global.usagePage);
        }
        ok := AddUsage(n, size);
        if !ok {
          return;
        }
        n := if n == 0xFFFF_FFFF then 0 else n + 1;
      }
      return true;
    }

    /** `hid_concatenate_last_usage_page`: from the last usage back to one that has
        the page already, the short ones get it. */
    method ConcatenateUsagePage()
      requires Valid()
      modifies `usage
      ensures Valid() && usage == Paged(old(usage), usageSize, global.usagePage)
    {
      hide DeviceOk, GlobalOk, Completed, LastWith;
      ghost var was, page := usage, global.usagePage;
      var i: nat := |usage|;
      while i > 0
        invariant Valid() && i <= |usage| == |was| && forall k | 0 <= k < i :: usage[k] == was[k]
        invariant forall k | i <= k < |was| :: usage[k] == if usageSize[k] <= 2 then Completed(was[k], page) else was[k]
        invariant forall k | i <= k < |was| :: !(usageSize[k] <= 2 && was[k] / 0x1_0000 == page)
      {
        i := i - 1;
        if usageSize[i] <= 2 {
          if usage[i] / 0x1_0000 == global.usagePage {
            StopsAt(was, usageSize, page, i);
            return;
          }
          usage := usage[i := Completed(usage[i], global.usagePage)];
        }
      }
      LastFrom(was, usageSize, page, 0, |was|);
    }

    /** `hid_parser_main`; local items hold up to the next main item. */
    method MainItem(item: Item) returns (ok: bool)
      requires Valid()
      modifies this
      ensures Valid() && global == old(global) && stack == old(stack)
      ensures usage == [] && usageMinimum == 0 && delimiterDepth == 0 && delimiterBranch == 0
      ensures collections == old(collections) + (if item.tag == 10 then 1 else if item.tag == 12 && ok then -1 else 0)
      ensures item.tag == 12 ==> (ok <==> old(collections) > 0)
      ensures item.tag != 8 && item.tag != 9 && item.tag != 11 ==> device == old(device)
      ensures ok && (item.tag == 8 || item.tag == 9 || item.tag == 11) ==>
        var k := (if item.tag == 8 then InputReport else if item.tag == 9 then OutputReport else FeatureReport, global.reportId);
        && k in device && device == old(device)[k := device[k]]
        && Extends(if k in old(device) then old(device)[k] else Layout(0, []), device[k], global,
                   Paged(old(usage), old(usageSize), global.usagePage))
    {
      hide DeviceOk, GlobalOk, Extends, LayoutOk;
      ConcatenateUsagePage();
      var data := Data(item);
      ok := true;
      if item.tag == 10 {
        collections := collections + 1;
      } else if item.tag == 12 {
        ok := collections > 0;
        if ok {
          collections := collections - 1;
        }
      } else if item.tag == 8 {
        ok := AddField(InputReport, data);
      } else if item.tag == 9 {
        ok := AddField(OutputReport, data);
      } else if item.tag == 11 {
        ok := AddField(FeatureReport, data);
      }
      usage, usageSize, usageMinimum, delimiterDepth, delimiterBranch := [], [], 0, 0, 0;
    }
  }

  /** `hid_open_report`: every byte string is refused or gives reports whose
      values are apart, in bounds and have places in the value tables. */
  method Parse(desc: seq<Byte>) returns (r: Option<Device>)
    ensures r.Some? ==> DeviceOk(r.value)
  {
    hide DeviceOk, GlobalOk, LayoutOk;
    var p := new Parser();
    var start := 0;
    while start < |desc|
      invariant p.Valid() && start <= |desc|
      decreases |desc| - start
    {
      var fetched := FetchItem(desc, start);
      if fetched.None? {
        return None;
      }
      var (item, next) := fetched.value;
      if item.long {
        return None;
      }
      var ok := true;
      if item.kind == 0 {
        ok := p.MainItem(item);
      } else if item.kind == 1 {
        ok := p.GlobalItem(item);
      } else if item.kind == 2 {
        ok := p.LocalItem(item);
      }
      if !ok {
        return None;
      }
      start := next;
    }
    if p.collections != 0 || p.delimiterDepth != 0 {
      return None;
    }
    return Some(p.device);
  }

  /** Room for the item's values at the end, and, unless it is padding or the
      report has its 256 fields, a field of them. */
  ghost predicate Extends(was: Layout, now: Layout, g: Global, usage: seq<nat>) {
    && now.size == was.size + g.size * g.count
    && (if usage == [] || |was.fields| == 256 then now.fields == was.fields
        else
          && |now.fields| == |was.fields| + 1 && now.fields[..|was.fields|] == was.fields
          && var f := now.fields[|was.fields|];
            && f.offset == was.size && f.size == g.size && f.count == g.count
            && f.minimum == g.minimum && f.maximum == g.maximum
            && |f.usage| == Max(|usage|, g.count) && forall i | 0 <= i < |f.usage| :: f.usage[i] == usage[Min(i, |usage| - 1)])
  }

  lemma EmptyLayoutOk()
    ensures LayoutOk(Layout(0, []))
  {
  }

  /** The report with the item's field, or none: the range of values is empty or
      the report too large. */
  method AddTo(was: Layout, g: Global, usage: seq<nat>, flags: nat) returns (r: Option<Layout>)
    requires LayoutOk(was) && GlobalOk(g)
    ensures r.None? <==>
      || (g.minimum < 0 && g.maximum < g.minimum) || (g.minimum >= 0 && AsU32(g.maximum) < AsU32(g.minimum))
      || was.size + g.size * g.count > MAX_BITS
    ensures r.Some? ==> LayoutOk(r.value) && Extends(was, r.value, g, usage)
  {
    hide LayoutOk;
    if (g.minimum < 0 && g.maximum < g.minimum) || (g.minimum >= 0 && AsU32(g.maximum) < AsU32(g.minimum)) {
      return None;
    }
    var l := was.(size := was.size + g.size * g.count);
    if l.size > MAX_BITS {
      return None;
    }
    LayoutWider(was, l);
    if usage == [] || |l.fields| == MAX_FIELDS {
      return Some(l);
    }
    var names := Spread(usage, Max(|usage|, g.count));
    var f := Field(names, flags, was.size, g.size, g.count, g.minimum, g.maximum, |names|);
    LayoutGrow(was, l, f);
    return Some(l.(fields := l.fields + [f]));
  }

  lemma LayoutWider(was: Layout, l: Layout)
    requires LayoutOk(was) && l.fields == was.fields && was.size <= l.size <= 131_064
    ensures LayoutOk(l)
  {
    hide Width;
  }

  lemma LayoutGrow(was: Layout, l: Layout, f: Field)
    requires LayoutOk(was) && l.fields == was.fields && was.size <= l.size <= 131_064 && |l.fields| != 256
    requires FieldOk(f) && f.offset == was.size && f.offset + Width(f) <= l.size
    ensures LayoutOk(l.(fields := l.fields + [f]))
  {
    hide Width;
  }

  /** The usages of a field: as many as it needs, the last one repeated. */
  method Spread(usage: seq<nat>, n: nat) returns (names: seq<nat>)
    requires usage != []
    ensures |names| == n && forall i | 0 <= i < n :: names[i] == usage[Min(i, |usage| - 1)]
  {
    names := [];
    for i := 0 to n
      invariant |names| == i && forall k | 0 <= k < i :: names[k] == usage[Min(k, |usage| - 1)]
    {
      names := names + [usage[Min(i, |usage| - 1)]];
    }
  }
}
