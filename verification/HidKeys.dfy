/** Key tracking: the diff of an array field's reports into presses and releases
    (hid/src/lib.rs) and the list of held keys (hid/src/input.rs). */
module HidKeys {
  import opened Util
  import L = HidLayout

  const KEYS_MAX: nat := 32
  const UP_KEYBOARD: nat := 0x7_0000

  // ── Held keys ────────────────────────────────────────────────────────

  /** `List`: room for 32, and how many of them are in use. */
  class List {
    const items: array<nat>
    var len: nat

    ghost predicate Valid()
      reads this
    {
      items.Length == KEYS_MAX && len <= KEYS_MAX
    }

    ghost function View(): seq<nat>
      requires Valid()
      reads this, items
    {
      items[..len]
    }

    constructor ()
      ensures Valid() && fresh(items) && View() == []
    {
      items := new nat[KEYS_MAX](_ => 0);
      len := 0;
    }

    method Push(v: nat)
      requires Valid()
      modifies this, items
      ensures Valid()
      ensures View() == if |old(View())| < KEYS_MAX then old(View()) + [v] else old(View())
    {
      if len < KEYS_MAX {
        items[len] := v;
        len := len + 1;
      }
    }

    /** `copy_within` one place down. */
    method Remove(i: nat)
      requires Valid() && i < len
      modifies this, items
      ensures Valid()
      ensures View() == old(View())[..i] + old(View())[i + 1..]
    {
      var j := i;
      while j + 1 < len
        invariant i <= j < len == old(len) && Valid()
        invariant forall k | 0 <= k < i :: items[k] == old(items[k])
        invariant forall k | i <= k < j :: items[k] == old(items[k + 1])
        invariant forall k | j < k < len :: items[k] == old(items[k])
      {
        items[j] := items[j + 1];
        j := j + 1;
      }
      len := len - 1;
      ghost var was := old(items[..len]);
      assert forall k | 0 <= k < len :: items[k] == if k < i then was[k] else was[k + 1];
      assert items[..len] == was[..i] + was[i + 1..];
    }

    method Find(v: nat) returns (i: Option<nat>)
      requires Valid()
      ensures i.Some? ==> i.value < len && View()[i.value] == v && v !in View()[..i.value]
      ensures i.None? ==> v !in View()
    {
      for j := 0 to len
        invariant v !in items[..j]
      {
        if items[j] == v {
          assert View()[..j] == items[..j];
          return Some(j);
        }
      }
      return None;
    }
  }

  ghost function Press(ks: seq<nat>, k: nat): seq<nat> {
    if k in ks || |ks| >= 32 then ks else ks + [k]
  }

  /** `ks` without its first `k`. */
  ghost function Release(ks: seq<nat>, k: nat): seq<nat> {
    if ks == [] then [] else if ks[0] == k then ks[1..] else [ks[0]] + Release(ks[1..], k)
  }

  lemma ReleaseAt(ks: seq<nat>, k: nat, i: nat)
    requires i < |ks| && ks[i] == k && k !in ks[..i]
    ensures Release(ks, k) == ks[..i] + ks[i + 1..]
  {
    if i > 0 {
      assert ks[..i][0] == ks[0];
      assert ks[1..][..i - 1] == ks[..i][1..];
      ReleaseAt(ks[1..], k, i - 1);
      assert ks[..i] == [ks[0]] + ks[1..][..i - 1];
    }
  }

  lemma ReleaseAbsent(ks: seq<nat>, k: nat)
    requires k !in ks
    ensures Release(ks, k) == ks
  {
  }

  class Input {
    const keys: List

    ghost predicate Valid()
      reads this, keys
    {
      keys.Valid()
    }

    constructor ()
      ensures Valid() && fresh(keys) && fresh(keys.items) && keys.View() == []
    {
      keys := new List();
    }

    /** `Input::key`: a repeat of the state it already has changes nothing. */
    method Key(id: nat, down: bool)
      requires Valid()
      modifies keys, keys.items
      ensures Valid()
      ensures keys.View() == if down then Press(old(keys.View()), id) else Release(old(keys.View()), id)
    {
      var held := keys.Find(id);
      if down && held.None? {
        keys.Push(id);
      } else if !down && held.Some? {
        ReleaseAt(keys.View(), id, held.value);
        keys.Remove(held.value);
      } else if !down {
        ReleaseAbsent(keys.View(), id);
      }
    }

    /** `Input::event` for a usage of an array field: keyboard keys only. */
    method Event(hid: nat, down: bool)
      requires Valid()
      modifies keys, keys.items
      ensures Valid()
      ensures keys.View() == Applied(old(keys.View()), KeyOf(hid), down)
    {
      var k := KeyOf(hid);
      if k.Some? {
        Key(k.value, down);
      }
    }
  }

  /** The key a usage stands for: those of the keyboard page from 4 to 255. */
  function KeyOf(hid: nat): Option<nat> {
    if UP_KEYBOARD + 4 <= hid < UP_KEYBOARD + 0x100 then Some(hid - UP_KEYBOARD) else None
  }

  ghost function Applied(ks: seq<nat>, k: Option<nat>, down: bool): seq<nat> {
    match k
    case None => ks
    case Some(id) => if down then Press(ks, id) else Release(ks, id)
  }

  // ── Array fields ─────────────────────────────────────────────────────

  /** An array field of one byte a slot, by itself in its report. */
  function Keyboard(usage: seq<nat>, minimum: int, maximum: int, count: nat): L.Field {
    L.Field(usage, 0, 0, 8, count, minimum, maximum, |usage|)
  }

  /** `hid_array_value_is_valid`. */
  predicate IsValid(f: L.Field, v: int) { f.minimum <= v <= f.maximum && v - f.minimum < |f.usage| }

  function Name(f: L.Field, v: int): Option<nat> {
    if IsValid(f, v) then KeyOf(f.usage[v - f.minimum]) else None
  }

  /** No key has two values. What lies past the logical maximum does not count. */
  ghost predicate DistinctUsages(f: L.Field) {
    forall i, j | 0 <= i < j < |f.usage| && f.minimum + j <= f.maximum ::
      KeyOf(f.usage[i]).Some? ==> f.usage[i] != f.usage[j]
  }

  predicate IsRollOver(f: L.Field, v: int) { IsValid(f, v) && f.usage[v - f.minimum] == UP_KEYBOARD + 1 }

  /** One turn of `hid_input_array_field`. */
  ghost function Turn(f: L.Field, was: seq<int>, now: seq<int>, n: nat, ks: seq<nat>): seq<nat>
    requires n < |was| == |now|
  {
    var freed := if was[n] !in now then Applied(ks, Name(f, was[n]), false) else ks;
    if now[n] !in was then Applied(freed, Name(f, now[n]), true) else freed
  }

  ghost function Turns(f: L.Field, was: seq<int>, now: seq<int>, n: nat, ks: seq<nat>): seq<nat>
    requires n <= |was| == |now|
  {
    if n == 0 then ks else Turn(f, was, now, n - 1, Turns(f, was, now, n - 1, ks))
  }

  class ArrayField {
    const shape: L.Field
    var value: seq<int>
    var newValue: seq<int>
    var ignored: bool

    ghost predicate Valid()
      reads this
    {
      |value| == |newValue| == shape.count
    }

    constructor (shape: L.Field)
      ensures Valid() && this.shape == shape && forall i | 0 <= i < |value| :: value[i] == 0
    {
      this.shape := shape;
      value, newValue, ignored := seq(shape.count, _ => 0), seq(shape.count, _ => 0), false;
    }

    /** `hid_input_fetch_field`, the values already extracted; a roll-over stops
        it and the report is ignored. */
    method Fetch(report: seq<int>)
      requires Valid() && |report| == shape.count
      modifies `newValue, `ignored
      ensures Valid() && value == old(value)
      ensures ignored <==> exists v :: v in report && IsRollOver(shape, v)
      ensures !ignored ==> newValue == report
    {
      ignored := false;
      newValue := seq(shape.count, _ => 0);
      for n := 0 to shape.count
        invariant Valid() && !ignored && newValue[..n] == report[..n]
        invariant forall v | v in report[..n] :: !IsRollOver(shape, v)
      {
        newValue := newValue[n := report[n]];
        if IsRollOver(shape, report[n]) {
          ignored := true;
          return;
        }
      }
    }

    /** `hid_input_array_field`, its events handed to `input`. */
    method Report(input: Input)
      requires Valid() && input.Valid()
      modifies `value, input.keys, input.keys.items
      ensures Valid() && input.Valid()
      ensures ignored ==> value == old(value) && input.keys.View() == old(input.keys.View())
      ensures !ignored ==>
        value == newValue && input.keys.View() == Turns(shape, old(value), newValue, shape.count, old(input.keys.View()))
    {
      hide Press, Release, KeyOf, List.View;
      if ignored {
        return;
      }
      for n := 0 to shape.count
        invariant Valid() && input.Valid() && value == old(value)
        invariant input.keys.View() == Turns(shape, value, newValue, n, old(input.keys.View()))
      {
        var was := value[n];
        if IsValid(shape, was) && was !in newValue {
          input.Event(shape.usage[was - shape.minimum], false);
        }
        var now := newValue[n];
        if IsValid(shape, now) && now !in value {
          input.Event(shape.usage[now - shape.minimum], true);
        }
      }
      value := newValue;
    }
  }

  // ── What the diff means ──────────────────────────────────────────────

  ghost predicate NoRepeats(ks: seq<nat>) { forall i, j | 0 <= i < j < |ks| :: ks[i] != ks[j] }

  /** The keys a report names. */
  ghost function Named(f: L.Field, report: seq<int>): set<nat> {
    set v | v in report && Name(f, v).Some? :: Name(f, v).value
  }

  /** `ks` without the keys in `gone`, in order. */
  ghost function Without(ks: seq<nat>, gone: set<nat>): seq<nat> {
    if ks == [] then []
    else Without(ks[..|ks| - 1], gone) + (if ks[|ks| - 1] in gone then [] else [ks[|ks| - 1]])
  }

  /** The keys released by the first `n` slots. */
  ghost function Gone(f: L.Field, was: seq<int>, now: seq<int>, n: nat): set<nat>
    requires n <= |was|
  {
    set v | v in was[..n] && v !in now && Name(f, v).Some? :: Name(f, v).value
  }

  /** The keys pressed by the first `n` slots, in order. */
  ghost function Pressed(f: L.Field, was: seq<int>, now: seq<int>, n: nat): seq<nat>
    requires n <= |now|
  {
    if n == 0 then []
    else
      var before := Pressed(f, was, now, n - 1);
      match Name(f, now[n - 1])
      case Some(k) => if now[n - 1] !in was && k !in before then before + [k] else before
      case None => before
  }

  lemma NamesDiffer(f: L.Field, v: int, w: int)
    requires DistinctUsages(f) && v != w && Name(f, v).Some?
    ensures Name(f, v) != Name(f, w)
  {
    if IsValid(f, w) {
      var i, j := v - f.minimum, w - f.minimum;
      assert f.usage[i] != f.usage[j];
    }
  }

  lemma {:induction false} WithoutIs(ks: seq<nat>, gone: set<nat>)
    ensures forall k :: k in Without(ks, gone) <==> k in ks && k !in gone
    ensures NoRepeats(ks) ==> NoRepeats(Without(ks, gone))
  {
    if ks != [] {
      var init, last := ks[..|ks| - 1], ks[|ks| - 1];
      assert ks == init + [last];
      WithoutIs(init, gone);
      assert NoRepeats(ks) ==> last !in init;
    }
  }

  lemma ReleaseConcat(a: seq<nat>, t: seq<nat>, k: nat)
    requires k !in t
    ensures Release(a + t, k) == Release(a, k) + t
  {
    if a == [] {
      assert a + t == t;
      ReleaseAbsent(t, k);
    } else {
      assert (a + t)[1..] == a[1..] + t;
      ReleaseConcat(a[1..], t, k);
      if a[0] != k {
        assert [a[0]] + (Release(a[1..], k) + t) == [a[0]] + Release(a[1..], k) + t;
      }
    }
  }

  /** Releasing a key is leaving it out. */
  lemma {:induction false} ReleaseWithout(ks: seq<nat>, gone: set<nat>, k: nat)
    requires NoRepeats(ks)
    ensures Release(Without(ks, gone), k) == Without(ks, gone + {k})
  {
    if ks != [] {
      var init, last := ks[..|ks| - 1], ks[|ks| - 1];
      ReleaseWithout(init, gone, k);
      WithoutIs(init, gone);
      assert last !in init;
      var a := Without(init, gone);
      if last in gone {
        assert Without(ks, gone) == a;
      } else {
        assert Without(ks, gone) == a + [last];
        if last == k {
          ReleaseAt(a + [k], k, |a|);
          assert (a + [k])[..|a|] == a && (a + [k])[|a| + 1..] == [];
          ReleaseAbsent(a, k);
        } else {
          ReleaseConcat(a, [last], k);
        }
      }
    }
  }

  lemma {:induction false} PressedIs(f: L.Field, was: seq<int>, now: seq<int>, n: nat)
    requires n <= |now|
    ensures NoRepeats(Pressed(f, was, now, n))
    ensures forall k :: k in Pressed(f, was, now, n)
                        <==> exists v :: v in now[..n] && v !in was && Name(f, v) == Some(k)
  {
    if n > 0 {
      hide Name;
      PressedIs(f, was, now, n - 1);
      forall v ensures v in now[..n] <==> v in now[..n - 1] || v == now[n - 1] {
        assert now[..n] == now[..n - 1] + [now[n - 1]];
      }
    }
  }

  lemma GoneStep(f: L.Field, was: seq<int>, now: seq<int>, n: nat)
    requires n < |was|
    ensures Gone(f, was, now, n + 1) ==
      if was[n] !in now && Name(f, was[n]).Some? then Gone(f, was, now, n) + {Name(f, was[n]).value} else Gone(f, was, now, n)
  {
    assert was[..n + 1] == was[..n] + [was[n]];
  }

  lemma {:induction false} CountDistinct(ks: seq<nat>, all: set<nat>)
    requires NoRepeats(ks) && forall k | k in ks :: k in all
    ensures |ks| <= |all|
  {
    if ks != [] {
      var init, last := ks[..|ks| - 1], ks[|ks| - 1];
      assert last !in init;
      CountDistinct(init, all - {last});
    }
  }

  lemma NoRepeatsConcat(a: seq<nat>, b: seq<nat>)
    requires NoRepeats(a) && NoRepeats(b) && forall k | k in a :: k !in b
    ensures NoRepeats(a + b)
  {
    forall i, j | 0 <= i < j < |a + b| ensures (a + b)[i] != (a + b)[j] {
      if i < |a| <= j {
        assert (a + b)[i] in a && (a + b)[j] in b;
      }
    }
  }

  /** The keys held are those the last report named. */
  ghost predicate Tracks(f: L.Field, report: seq<int>, ks: seq<nat>) {
    NoRepeats(ks) && forall k :: k in ks <==> k in Named(f, report)
  }

  /** What is held after `n` slots, if nothing is lost: what remains, in its
      order, and then what came, in slot order. */
  ghost function Expected(f: L.Field, was: seq<int>, now: seq<int>, n: nat, ks: seq<nat>): seq<nat>
    requires n <= |was| == |now|
  {
    Without(ks, Gone(f, was, now, n)) + Pressed(f, was, now, n)
  }

  /** Slot `n` presses a key that is not held yet. */
  ghost predicate Presses(f: L.Field, was: seq<int>, now: seq<int>, n: nat)
    requires n < |was| == |now|
  {
    now[n] !in was && Name(f, now[n]).Some? && Name(f, now[n]).value !in Pressed(f, was, now, n)
  }

  /** There is room for it. */
  ghost predicate Fits(f: L.Field, was: seq<int>, now: seq<int>, n: nat, ks: seq<nat>)
    requires n < |was| == |now|
  {
    Presses(f, was, now, n) ==> |Without(ks, Gone(f, was, now, n + 1))| + |Pressed(f, was, now, n)| < 32
  }

  ghost predicate AllFit(f: L.Field, was: seq<int>, now: seq<int>, ks: seq<nat>)
    requires |was| == |now|
  {
    forall n | 0 <= n < |was| :: Fits(f, was, now, n, ks)
  }

  lemma NotHeld(f: L.Field, was: seq<int>, now: seq<int>, n: nat, ks: seq<nat>, v: int)
    requires DistinctUsages(f) && Tracks(f, was, ks) && v !in was && Name(f, v).Some?
    ensures Name(f, v).value !in ks
  {
    if Name(f, v).value in ks {
      var w :| w in was && Name(f, w) == Name(f, v);
      NamesDiffer(f, v, w);
    }
  }

  lemma NotPressed(f: L.Field, was: seq<int>, now: seq<int>, n: nat, v: int)
    requires DistinctUsages(f) && n <= |now| && v !in now && Name(f, v).Some?
    ensures Name(f, v).value !in Pressed(f, was, now, n)
  {
    PressedIs(f, was, now, n);
    if Name(f, v).value in Pressed(f, was, now, n) {
      var w :| w in now[..n] && w !in was && Name(f, w) == Name(f, v);
      NamesDiffer(f, v, w);
    }
  }

  /** One slot of the diff. */
  lemma TurnIs(f: L.Field, was: seq<int>, now: seq<int>, n: nat, ks: seq<nat>)
    requires DistinctUsages(f) && n < |was| == |now| && Tracks(f, was, ks)
    ensures var freed := Without(ks, Gone(f, was, now, n + 1)) + Pressed(f, was, now, n);
      Turn(f, was, now, n, Expected(f, was, now, n, ks))
      == if now[n] !in was then Applied(freed, Name(f, now[n]), true) else freed
  {
    GoneStep(f, was, now, n);
    if was[n] !in now && Name(f, was[n]).Some? {
      var k := Name(f, was[n]).value;
      NotPressed(f, was, now, n, was[n]);
      ReleaseConcat(Without(ks, Gone(f, was, now, n)), Pressed(f, was, now, n), k);
      ReleaseWithout(ks, Gone(f, was, now, n), k);
    }
  }

  /** The second half of a slot, with room. */
  lemma PressIs(f: L.Field, was: seq<int>, now: seq<int>, n: nat, kept: seq<nat>)
    requires n < |now| && now[n] !in was
    requires Name(f, now[n]).Some? ==> Name(f, now[n]).value !in kept
    requires Name(f, now[n]).Some? && Name(f, now[n]).value !in Pressed(f, was, now, n) ==> |kept + Pressed(f, was, now, n)| < 32
    ensures Applied(kept + Pressed(f, was, now, n), Name(f, now[n]), true) == kept + Pressed(f, was, now, n + 1)
  {
    var came := Pressed(f, was, now, n);
    if Name(f, now[n]).Some? && Name(f, now[n]).value !in came {
      assert kept + came + [Name(f, now[n]).value] == kept + (came + [Name(f, now[n]).value]);
    }
  }

  lemma {:induction false} TurnsAre(f: L.Field, was: seq<int>, now: seq<int>, n: nat, ks: seq<nat>)
    requires DistinctUsages(f) && n <= |was| == |now| && Tracks(f, was, ks)
    requires forall m | 0 <= m < n :: Fits(f, was, now, m, ks)
    ensures Turns(f, was, now, n, ks) == Expected(f, was, now, n, ks)
  {
    hide Without, Gone, Tracks, DistinctUsages, Turn, Pressed, Fits;
    if n == 0 {
      ExpectedNone(f, was, now, ks);
    } else {
      TurnsAre(f, was, now, n - 1, ks);
      TurnStep(f, was, now, n - 1, ks);
    }
  }

  lemma ExpectedNone(f: L.Field, was: seq<int>, now: seq<int>, ks: seq<nat>)
    requires |was| == |now|
    ensures Expected(f, was, now, 0, ks) == ks
  {
    assert Gone(f, was, now, 0) == {};
    NothingGone(ks);
  }

  /** One slot with room. */
  lemma TurnStep(f: L.Field, was: seq<int>, now: seq<int>, n: nat, ks: seq<nat>)
    requires DistinctUsages(f) && n < |was| == |now| && Tracks(f, was, ks) && Fits(f, was, now, n, ks)
    ensures Turn(f, was, now, n, Expected(f, was, now, n, ks)) == Expected(f, was, now, n + 1, ks)
  {
    hide Without, Gone, Tracks, DistinctUsages, Turn, NoRepeats, Applied, Name;
    TurnIs(f, was, now, n, ks);
    var v := now[n];
    if v !in was {
      if Name(f, v).Some? {
        NotHeld(f, was, now, n, ks, v);
        WithoutIs(ks, Gone(f, was, now, n + 1));
      }
      PressIs(f, was, now, n, Without(ks, Gone(f, was, now, n + 1)));
    }
  }

  lemma {:induction false} NothingGone(ks: seq<nat>)
    ensures Without(ks, {}) == ks
  {
    if ks != [] {
      NothingGone(ks[..|ks| - 1]);
    }
  }

  /** With room at every press, the keys held are those the report names: what
      was held and still is, in its order, then the new ones in slot order. */
  lemma ReportTracks(f: L.Field, was: seq<int>, now: seq<int>, ks: seq<nat>)
    requires DistinctUsages(f) && |was| == |now| && Tracks(f, was, ks)
    requires AllFit(f, was, now, ks)
    ensures var after := Turns(f, was, now, |was|, ks);
      Tracks(f, now, after) && after == Without(ks, Named(f, was) - Named(f, now)) + Pressed(f, was, now, |now|)
  {
    TurnsAre(f, was, now, |was|, ks);
    ExpectedTracks(f, was, now, ks);
    GoneAll(f, was, now);
  }

  lemma GoneAll(f: L.Field, was: seq<int>, now: seq<int>)
    requires DistinctUsages(f)
    ensures Gone(f, was, now, |was|) == Named(f, was) - Named(f, now)
  {
    assert was[..|was|] == was;
    forall k ensures k in Gone(f, was, now, |was|) <==> k in Named(f, was) - Named(f, now) {
      if k in Gone(f, was, now, |was|) && k in Named(f, now) {
        var v :| v in was && v !in now && Name(f, v) == Some(k);
        var w :| w in now && Name(f, w) == Some(k);
        NamesDiffer(f, v, w);
      }
    }
  }

  lemma ExpectedTracks(f: L.Field, was: seq<int>, now: seq<int>, ks: seq<nat>)
    requires DistinctUsages(f) && |was| == |now| && Tracks(f, was, ks)
    ensures Tracks(f, now, Expected(f, was, now, |was|, ks))
  {
    hide Without, Pressed;
    var gone, came := Gone(f, was, now, |was|), Pressed(f, was, now, |now|);
    WithoutIs(ks, gone);
    PressedIs(f, was, now, |now|);
    assert now[..|now|] == now;
    GoneAll(f, was, now);
    forall k | k in came ensures k !in ks && k in Named(f, now) {
      var v :| v in now && v !in was && Name(f, v) == Some(k);
      NotHeld(f, was, now, 0, ks, v);
    }
    forall k | k in Named(f, now) && k !in ks ensures k in came {
      var v :| v in now && Name(f, v) == Some(k);
      assert v in was ==> k in Named(f, was);
    }
    NoRepeatsConcat(Without(ks, gone), came);
    forall k ensures k in Without(ks, gone) + came <==> k in Named(f, now) {
      assert k in ks <==> k in Named(f, was);
    }
  }

  /** Enough: no more than 32 keys in the two reports together. */
  lemma UnionFits(f: L.Field, was: seq<int>, now: seq<int>, ks: seq<nat>, n: nat)
    requires DistinctUsages(f) && n < |was| == |now| && Tracks(f, was, ks)
    requires |Named(f, was) + Named(f, now)| <= 32
    ensures Fits(f, was, now, n, ks)
  {
    if Presses(f, was, now, n) {
      hide Without, Pressed, NoRepeats, Gone;
      var kept, came := Without(ks, Gone(f, was, now, n + 1)), Pressed(f, was, now, n);
      WithoutIs(ks, Gone(f, was, now, n + 1));
      PressedIs(f, was, now, n);
      var k := Name(f, now[n]).value;
      NotHeld(f, was, now, n, ks, now[n]);
      forall x | x in came ensures x !in ks && x in Named(f, now) {
        var v :| v in now[..n] && v !in was && Name(f, v) == Some(x);
        NotHeld(f, was, now, n, ks, v);
      }
      NoRepeatsConcat(kept, came);
      NoRepeatsConcat(kept + came, [k]);
      assert k in Named(f, now);
      CountDistinct(kept + came + [k], Named(f, was) + Named(f, now));
    }
  }

  /** No slot names a key that an earlier one names by the same value. */
  ghost predicate NoKeyTwice(f: L.Field, report: seq<int>) {
    forall i, j | 0 <= i < j < |report| && Name(f, report[i]).Some? :: report[i] != report[j]
  }

  /** A slot that does not press `k` leaves it unheld. */
  lemma TurnKeepsOut(f: L.Field, was: seq<int>, now: seq<int>, n: nat, ks: seq<nat>, k: nat)
    requires n < |was| == |now| && k !in ks && Name(f, now[n]) != Some(k)
    ensures k !in Turn(f, was, now, n, ks)
  {
    if was[n] !in now && Name(f, was[n]).Some? {
      ReleaseKeepsOut(ks, Name(f, was[n]).value, k);
    }
  }

  lemma {:induction false} ReleaseKeepsOut(ks: seq<nat>, x: nat, k: nat)
    requires k !in ks
    ensures k !in Release(ks, x)
  {
    if ks != [] && ks[0] != x {
      ReleaseKeepsOut(ks[1..], x, k);
    }
  }

  /** A press without room is lost for good: the key stays unheld although the
      report names it, unless the report names it twice. */
  lemma {:induction false} LostStaysLost(f: L.Field, was: seq<int>, now: seq<int>, m: nat, n: nat, ks: seq<nat>)
    requires DistinctUsages(f) && m < n <= |was| == |now| && Tracks(f, was, ks) && NoKeyTwice(f, now)
    requires (forall i | 0 <= i < m :: Fits(f, was, now, i, ks)) && !Fits(f, was, now, m, ks)
    ensures Name(f, now[m]).Some? && Name(f, now[m]).value !in Turns(f, was, now, n, ks)
    decreases n
  {
    hide Without, Gone, Tracks, DistinctUsages, NoRepeats, Name, Turn;
    var k := Name(f, now[m]).value;
    if n == m + 1 {
      TurnsAre(f, was, now, m, ks);
      TurnIs(f, was, now, m, ks);
      NotHeld(f, was, now, m, ks, now[m]);
      WithoutIs(ks, Gone(f, was, now, m + 1));
    } else {
      LostStaysLost(f, was, now, m, n - 1, ks);
      NamesDiffer(f, now[m], now[n - 1]);
      TurnKeepsOut(f, was, now, n - 1, Turns(f, was, now, n - 1, ks), k);
    }
  }

  /** For a report that names no key twice the keys are tracked if and only if
      each press finds room among the 32. */
  lemma TracksIffFits(f: L.Field, was: seq<int>, now: seq<int>, ks: seq<nat>)
    requires DistinctUsages(f) && |was| == |now| && Tracks(f, was, ks) && NoKeyTwice(f, now)
    ensures Tracks(f, now, Turns(f, was, now, |was|, ks)) <==> AllFit(f, was, now, ks)
  {
    if AllFit(f, was, now, ks) {
      ReportTracks(f, was, now, ks);
    } else {
      var m := FirstUnfit(f, was, now, ks);
      LostStaysLost(f, was, now, m, |was|, ks);
      assert now[m] in now;
    }
  }

  /** The smallest case: 32 keys held, and a report that again names 32, the new
      one in the first slot. Nothing has been released when it is pressed. */
  lemma FullKeyboardLosesAKey()
    ensures var f := Keyboard(seq(64, i requires 0 <= i < 64 => 0x7_0004 + i), 0, 63, 32);
      var was := seq(32, i => i);
      var now := seq(32, i => if i == 0 then 32 else i - 1);
      var ks := seq(32, i requires 0 <= i < 32 => 4 + i);
      Tracks(f, was, ks) && !Tracks(f, now, Turns(f, was, now, 32, ks))
  {
    var f := Keyboard(seq(64, i requires 0 <= i < 64 => 0x7_0004 + i), 0, 63, 32);
    var was := seq(32, i => i);
    var now := seq(32, i => if i == 0 then 32 else i - 1);
    var ks := seq(32, i requires 0 <= i < 32 => 4 + i);
    forall k ensures k in ks <==> k in Named(f, was) {
      if k in ks {
        assert was[k - 4] in was && Name(f, k - 4) == Some(k);
      }
      if k in Named(f, was) {
        var v :| v in was && Name(f, v) == Some(k);
        assert ks[v] == k;
      }
    }
    assert now[1] == was[0] == 0 && now[0] == 32;
    GoneStep(f, was, now, 0);
    assert Gone(f, was, now, 0) == {};
    NothingGone(ks);
    assert !Fits(f, was, now, 0, ks);
    LostStaysLost(f, was, now, 0, 32, ks);
    assert now[0] in now;
  }

  lemma FirstUnfit(f: L.Field, was: seq<int>, now: seq<int>, ks: seq<nat>) returns (m: nat)
    requires |was| == |now| && !AllFit(f, was, now, ks)
    ensures m < |was| && !Fits(f, was, now, m, ks) && forall i | 0 <= i < m :: Fits(f, was, now, i, ks)
  {
    m := 0;
    while Fits(f, was, now, m, ks)
      invariant m < |was| && forall i | 0 <= i < m :: Fits(f, was, now, i, ks)
      decreases |was| - m
    {
      m := m + 1;
    }
  }

  // ── Any field, any report ────────────────────────────────────────────

  /** Slot `n` releases `k`. */
  ghost predicate Frees(f: L.Field, was: seq<int>, now: seq<int>, n: nat, k: nat)
    requires n < |was| == |now|
  {
    was[n] !in now && Name(f, was[n]) == Some(k)
  }

  /** Slot `n` presses `k`. */
  ghost predicate Takes(f: L.Field, was: seq<int>, now: seq<int>, n: nat, k: nat)
    requires n < |was| == |now|
  {
    now[n] !in was && Name(f, now[n]) == Some(k)
  }

  /** A press of slot `n` finds room, whatever the field. */
  ghost predicate Room(f: L.Field, was: seq<int>, now: seq<int>, n: nat, ks: seq<nat>)
    requires n < |was| == |now|
  {
    var held := Turns(f, was, now, n, ks);
    var freed := if was[n] !in now then Applied(held, Name(f, was[n]), false) else held;
    forall k | Takes(f, was, now, n, k) :: k in freed || |freed| < 32
  }

  /** Slot `n` presses `k`, and there is room. */
  ghost predicate Lands(f: L.Field, was: seq<int>, now: seq<int>, n: nat, ks: seq<nat>, k: nat)
    requires n < |was| == |now|
  {
    Takes(f, was, now, n, k) && Room(f, was, now, n, ks)
  }

  /** Whether `k` is held after `n` slots: pressed and not released since, or held
      before and never released. */
  ghost predicate Stands(f: L.Field, was: seq<int>, now: seq<int>, n: nat, ks: seq<nat>, k: nat)
    requires n <= |was| == |now|
  {
    || (k in ks && forall i | 0 <= i < n :: !Frees(f, was, now, i, k))
    || exists m :: 0 <= m < n && Lands(f, was, now, m, ks, k) && forall i | m < i < n :: !Frees(f, was, now, i, k)
  }

  lemma StandsStep(f: L.Field, was: seq<int>, now: seq<int>, n: nat, ks: seq<nat>, k: nat)
    requires n < |was| == |now|
    ensures Stands(f, was, now, n + 1, ks, k)
            <==> Lands(f, was, now, n, ks, k) || (!Frees(f, was, now, n, k) && Stands(f, was, now, n, ks, k))
  {
    hide Lands, Frees;
  }

  lemma {:induction false} ReleaseIs(ks: seq<nat>, k: nat)
    requires NoRepeats(ks)
    ensures NoRepeats(Release(ks, k)) && forall x :: x in Release(ks, k) <==> x in ks && x != k
  {
    if ks != [] {
      ReleaseIs(ks[1..], k);
      assert ks == [ks[0]] + ks[1..] && ks[0] !in ks[1..];
      if ks[0] != k { NoRepeatsConcat([ks[0]], Release(ks[1..], k)); }
    }
  }

  /** One slot. */
  lemma TurnMembers(f: L.Field, was: seq<int>, now: seq<int>, n: nat, ks: seq<nat>)
    requires n < |was| == |now| && NoRepeats(Turns(f, was, now, n, ks))
    ensures var held, after := Turns(f, was, now, n, ks), Turns(f, was, now, n + 1, ks);
      && NoRepeats(after)
      && forall k :: k in after <==> Lands(f, was, now, n, ks, k) || (!Frees(f, was, now, n, k) && k in held)
  {
    hide Release, NoRepeats, Name;
    var held := Turns(f, was, now, n, ks);
    if was[n] !in now && Name(f, was[n]).Some? { ReleaseIs(held, Name(f, was[n]).value); }
    var freed := if was[n] !in now then Applied(held, Name(f, was[n]), false) else held;
    if now[n] !in was && Name(f, now[n]).Some? {
      var k := Name(f, now[n]).value;
      assert Takes(f, was, now, n, k);
      if k !in freed { SingleApart(freed, k); }
    }
  }

  lemma {:induction false} StandsIs(f: L.Field, was: seq<int>, now: seq<int>, n: nat, ks: seq<nat>)
    requires n <= |was| == |now| && NoRepeats(ks)
    ensures NoRepeats(Turns(f, was, now, n, ks))
    ensures forall k :: k in Turns(f, was, now, n, ks) <==> Stands(f, was, now, n, ks, k)
  {
    if n > 0 {
      hide Stands, NoRepeats, Lands, Frees;
      StandsIs(f, was, now, n - 1, ks);
      TurnMembers(f, was, now, n - 1, ks);
      forall k ensures k in Turns(f, was, now, n, ks) <==> Stands(f, was, now, n, ks, k) {
        StandsStep(f, was, now, n - 1, ks, k);
      }
    } else {
      forall k ensures k in ks <==> Stands(f, was, now, 0, ks, k) {}
    }
  }

  lemma SingleApart(ks: seq<nat>, k: nat)
    requires NoRepeats(ks) && k !in ks
    ensures NoRepeats(ks + [k])
  {
    NoRepeatsConcat(ks, [k]);
  }

  /** Nothing is held that the last report does not name. */
  ghost predicate NoneStuck(f: L.Field, report: seq<int>, ks: seq<nat>) {
    NoRepeats(ks) && forall k | k in ks :: k in Named(f, report)
  }

  /** No key is ever stuck, whatever the field, the report and the room. */
  lemma NeverStuck(f: L.Field, was: seq<int>, now: seq<int>, ks: seq<nat>)
    requires |was| == |now| && NoneStuck(f, was, ks)
    ensures NoneStuck(f, now, Turns(f, was, now, |was|, ks))
  {
    hide Stands, NoRepeats, Name;
    StandsIs(f, was, now, |was|, ks);
    forall k | k in Turns(f, was, now, |was|, ks) ensures k in Named(f, now) {
      if k !in Named(f, now) { GoneIfUnnamed(f, was, now, ks, k); }
    }
  }

  lemma GoneIfUnnamed(f: L.Field, was: seq<int>, now: seq<int>, ks: seq<nat>, k: nat)
    requires |was| == |now| && NoneStuck(f, was, ks) && k !in Named(f, now)
    ensures !Stands(f, was, now, |was|, ks, k)
  {
    forall m | 0 <= m < |was| ensures !Takes(f, was, now, m, k) { assert now[m] in now; }
    if k in ks {
      var v :| v in was && Name(f, v) == Some(k);
      var n :| 0 <= n < |was| && was[n] == v;
      assert Frees(f, was, now, n, k);
    }
  }

  /** A press of `k` with room comes with slot `n` or later. */
  ghost predicate LandsFrom(f: L.Field, was: seq<int>, now: seq<int>, n: nat, ks: seq<nat>, k: nat)
    requires |was| == |now|
  {
    exists m :: n <= m < |was| && Lands(f, was, now, m, ks, k)
  }

  /** Of the keys the report names, each that is not held is pressed with room, and
      each that a slot releases is, by that slot or a later one. */
  ghost predicate NoneMissed(f: L.Field, was: seq<int>, now: seq<int>, ks: seq<nat>)
    requires |was| == |now|
  {
    forall k | k in Named(f, now) ::
      && (k !in ks ==> LandsFrom(f, was, now, 0, ks, k))
      && forall n | 0 <= n < |was| && Frees(f, was, now, n, k) :: LandsFrom(f, was, now, n, ks, k)
  }

  /** Exactly when the keys are tracked: for any field and any report, from any
      state of a run, also one in which keys were lost. */
  lemma TracksIff(f: L.Field, was: seq<int>, now: seq<int>, ks: seq<nat>)
    requires |was| == |now| && NoneStuck(f, was, ks)
    ensures Tracks(f, now, Turns(f, was, now, |was|, ks)) <==> NoneMissed(f, was, now, ks)
  {
    hide Stands, NoRepeats, Lands, Frees, LandsFrom, Name;
    NeverStuck(f, was, now, ks);
    StandsIs(f, was, now, |was|, ks);
    forall k
      ensures Stands(f, was, now, |was|, ks, k) <==>
        && (k !in ks ==> LandsFrom(f, was, now, 0, ks, k))
        && forall n | 0 <= n < |was| && Frees(f, was, now, n, k) :: LandsFrom(f, was, now, n, ks, k)
    {
      StandsIff(f, was, now, ks, k);
    }
  }

  lemma StandsIff(f: L.Field, was: seq<int>, now: seq<int>, ks: seq<nat>, k: nat)
    requires |was| == |now|
    ensures Stands(f, was, now, |was|, ks, k) <==>
      && (k !in ks ==> LandsFrom(f, was, now, 0, ks, k))
      && forall n | 0 <= n < |was| && Frees(f, was, now, n, k) :: LandsFrom(f, was, now, n, ks, k)
  {
    hide Lands, Frees;
    if m :| 0 <= m < |was| && Lands(f, was, now, m, ks, k) {
      var last := LastLanding(f, was, now, ks, k, m);
    }
  }

  lemma LastLanding(f: L.Field, was: seq<int>, now: seq<int>, ks: seq<nat>, k: nat, first: nat) returns (m: nat)
    requires first < |was| == |now| && Lands(f, was, now, first, ks, k)
    ensures m < |was| && Lands(f, was, now, m, ks, k) && forall i | m < i < |was| :: !Lands(f, was, now, i, ks, k)
  {
    hide Lands;
    m := first;
    for i := first + 1 to |was|
      invariant m < i && Lands(f, was, now, m, ks, k) && forall j | m < j < i :: !Lands(f, was, now, j, ks, k)
    {
      if Lands(f, was, now, i, ks, k) { m := i; }
    }
  }

  /** Without two values for a key no slot releases one that the report names. */
  lemma DistinctNeverFrees(f: L.Field, was: seq<int>, now: seq<int>, n: nat, k: nat)
    requires DistinctUsages(f) && n < |was| == |now| && k in Named(f, now)
    ensures !Frees(f, was, now, n, k)
  {
    if Frees(f, was, now, n, k) {
      var w :| w in now && Name(f, w) == Some(k);
      NamesDiffer(f, was[n], w);
    }
  }

  /** So then only a press that finds no room, and is not repeated by a later slot
      that does, goes amiss. */
  lemma TracksIffLands(f: L.Field, was: seq<int>, now: seq<int>, ks: seq<nat>)
    requires DistinctUsages(f) && |was| == |now| && NoneStuck(f, was, ks)
    ensures Tracks(f, now, Turns(f, was, now, |was|, ks))
            <==> forall k | k in Named(f, now) && k !in ks :: LandsFrom(f, was, now, 0, ks, k)
  {
    hide Frees, LandsFrom, Named, Tracks;
    TracksIff(f, was, now, ks);
    forall n, k | 0 <= n < |was| && k in Named(f, now) ensures !Frees(f, was, now, n, k) {
      DistinctNeverFrees(f, was, now, n, k);
    }
  }

  /** With room at every press, on the other hand, only a release that comes too
      late does: by one value, of what another still names or an earlier slot
      pressed. */
  lemma TracksIffNoLateRelease(f: L.Field, was: seq<int>, now: seq<int>, ks: seq<nat>)
    requires |was| == |now| && Tracks(f, was, ks) && forall n | 0 <= n < |was| :: Room(f, was, now, n, ks)
    ensures Tracks(f, now, Turns(f, was, now, |was|, ks)) <==>
      forall n, k | 0 <= n < |was| && k in Named(f, now) && Frees(f, was, now, n, k) ::
        exists m :: n <= m < |was| && Takes(f, was, now, m, k)
  {
    hide Room, Frees, Takes, Name;
    TracksIff(f, was, now, ks);
    forall n: nat, k
      ensures LandsFrom(f, was, now, n, ks, k) <==> exists m :: n <= m < |was| && Takes(f, was, now, m, k)
    {
      if m :| n <= m < |was| && Takes(f, was, now, m, k) {
        assert Lands(f, was, now, m, ks, k);
      }
    }
    forall k | k in Named(f, now) && k !in ks ensures LandsFrom(f, was, now, 0, ks, k) {
      var m := TakenIfNew(f, was, now, ks, k);
      assert Lands(f, was, now, m, ks, k);
    }
  }

  lemma TakenIfNew(f: L.Field, was: seq<int>, now: seq<int>, ks: seq<nat>, k: nat) returns (m: nat)
    requires |was| == |now| && Tracks(f, was, ks) && k in Named(f, now) && k !in ks
    ensures m < |was| && Takes(f, was, now, m, k)
  {
    var v :| v in now && Name(f, v) == Some(k);
    m :| 0 <= m < |now| && now[m] == v;
    assert v in was ==> k in Named(f, was);
  }

  /** The smallest case: the key of both values moves from the second slot to the
      first under its other value, and is lost. */
  lemma TwoValuesLoseAKey()
    ensures var f := Keyboard([0x7_0004, 0x7_0004], 1, 2, 2);
      Tracks(f, [0, 1], [4]) && Turns(f, [0, 1], [2, 0], 2, [4]) == [] && 4 in Named(f, [2, 0])
  {
    var f := Keyboard([0x7_0004, 0x7_0004], 1, 2, 2);
    var was, now := [0, 1], [2, 0];
    assert Name(f, 1) == Name(f, 2) == Some(4) && Name(f, 0) == None;
    assert was[1] in was && now[0] in now;
    assert Turns(f, was, now, 1, [4]) == Turn(f, was, now, 0, [4]) == [4];
    assert Turns(f, was, now, 2, [4]) == Turn(f, was, now, 1, [4]) == [];
  }

  // ── Whole runs ───────────────────────────────────────────────────────

  predicate RollsOver(f: L.Field, report: seq<int>) { exists v :: v in report && IsRollOver(f, v) }

  ghost predicate Sized(first: seq<int>, reports: seq<seq<int>>) {
    forall i | 0 <= i < |reports| :: |reports[i]| == |first|
  }

  /** The last report that counts, after `n` of them. */
  ghost function Last(f: L.Field, first: seq<int>, reports: seq<seq<int>>, n: nat): (last: seq<int>)
    requires n <= |reports| && Sized(first, reports)
    ensures |last| == |first|
  {
    if n == 0 then first
    else if RollsOver(f, reports[n - 1]) then Last(f, first, reports, n - 1)
    else reports[n - 1]
  }

  /** What should be held after `n` reports: at each that counts what remains,
      in its order, and then what came, in slot order. */
  ghost function Held(f: L.Field, first: seq<int>, ks: seq<nat>, reports: seq<seq<int>>, n: nat): seq<nat>
    requires n <= |reports| && Sized(first, reports)
  {
    if n == 0 then ks
    else
      var was, now, before := Last(f, first, reports, n - 1), reports[n - 1], Held(f, first, ks, reports, n - 1);
      if RollsOver(f, now) then before
      else Without(before, Named(f, was) - Named(f, now)) + Pressed(f, was, now, |now|)
  }

  /** Every press of report `i` finds room, if it counts. */
  ghost predicate Roomy(f: L.Field, first: seq<int>, ks: seq<nat>, reports: seq<seq<int>>, i: nat)
    requires i < |reports| && Sized(first, reports)
  {
    !RollsOver(f, reports[i]) ==>
      AllFit(f, Last(f, first, reports, i), reports[i], Held(f, first, ks, reports, i))
  }

  /** What is held after `n` reports. */
  ghost function Fed(f: L.Field, first: seq<int>, ks: seq<nat>, reports: seq<seq<int>>, n: nat): seq<nat>
    requires n <= |reports| && Sized(first, reports)
  {
    if n == 0 then ks
    else
      var was, now, before := Last(f, first, reports, n - 1), reports[n - 1], Fed(f, first, ks, reports, n - 1);
      if RollsOver(f, now) then before else Turns(f, was, now, |was|, before)
  }

  /** With room for every press it is what should be, and those are the keys of the
      last report that was not a roll-over. */
  lemma {:induction false} FedIsHeld(f: L.Field, first: seq<int>, ks: seq<nat>, reports: seq<seq<int>>, n: nat)
    requires DistinctUsages(f) && Tracks(f, first, ks) && n <= |reports| && Sized(first, reports)
    requires forall i | 0 <= i < n :: Roomy(f, first, ks, reports, i)
    ensures Fed(f, first, ks, reports, n) == Held(f, first, ks, reports, n)
    ensures Tracks(f, Last(f, first, reports, n), Fed(f, first, ks, reports, n))
  {
    hide Tracks, Named, DistinctUsages, AllFit, Pressed, Without, RollsOver, Turns;
    if n > 0 {
      FedIsHeld(f, first, ks, reports, n - 1);
      assert Roomy(f, first, ks, reports, n - 1);
      var was, now := Last(f, first, reports, n - 1), reports[n - 1];
      if !RollsOver(f, now) {
        ReportTracks(f, was, now, Fed(f, first, ks, reports, n - 1));
      }
    }
  }

  /** In every run, whatever was lost in it, nothing is held that the last report
      that counts does not name. */
  lemma {:induction false} FedNeverStuck(f: L.Field, first: seq<int>, ks: seq<nat>, reports: seq<seq<int>>, n: nat)
    requires NoneStuck(f, first, ks) && n <= |reports| && Sized(first, reports)
    ensures NoneStuck(f, Last(f, first, reports, n), Fed(f, first, ks, reports, n))
  {
    hide NoneStuck, RollsOver, Turns;
    if n > 0 {
      FedNeverStuck(f, first, ks, reports, n - 1);
      var was, now := Last(f, first, reports, n - 1), reports[n - 1];
      if !RollsOver(f, now) {
        NeverStuck(f, was, now, Fed(f, first, ks, reports, n - 1));
      }
    }
  }

  /** And once all keys are up, none is held and tracking is right again. */
  lemma IdleRecovers(f: L.Field, first: seq<int>, ks: seq<nat>, reports: seq<seq<int>>, n: nat)
    requires NoneStuck(f, first, ks) && n <= |reports| && Sized(first, reports)
    requires Named(f, Last(f, first, reports, n)) == {}
    ensures Fed(f, first, ks, reports, n) == [] && Tracks(f, Last(f, first, reports, n), [])
  {
    var after := Fed(f, first, ks, reports, n);
    assert after != [] ==> after[0] in after;
    FedNeverStuck(f, first, ks, reports, n);
  }

  /** Whatever reports come, no key gets stuck; with room for every press the keys
      held are those of the last report that was not a roll-over, in the order
      they were pressed. A roll-over changes nothing. */
  method Feed(field: ArrayField, input: Input, reports: seq<seq<int>>)
    requires field.Valid() && input.Valid() && Sized(field.value, reports)
    modifies field, input.keys, input.keys.items
    ensures field.Valid() && input.Valid()
    ensures field.value == Last(field.shape, old(field.value), reports, |reports|)
    ensures input.keys.View() == Fed(field.shape, old(field.value), old(input.keys.View()), reports, |reports|)
    ensures NoneStuck(field.shape, old(field.value), old(input.keys.View())) ==>
      NoneStuck(field.shape, field.value, input.keys.View())
    ensures var f, first, ks := field.shape, old(field.value), old(input.keys.View());
      DistinctUsages(f) && Tracks(f, first, ks) && (forall i | 0 <= i < |reports| :: Roomy(f, first, ks, reports, i)) ==>
        input.keys.View() == Held(f, first, ks, reports, |reports|) && Tracks(f, field.value, input.keys.View())
  {
    hide Tracks, NoneStuck, DistinctUsages, Roomy, Held, RollsOver, Turns;
    ghost var f, first, ks := field.shape, field.value, input.keys.View();
    for i := 0 to |reports|
      invariant field.Valid() && input.Valid()
      invariant field.value == Last(f, first, reports, i) && input.keys.View() == Fed(f, first, ks, reports, i)
    {
      FeedOne(field, input, reports[i]);
    }
    if NoneStuck(f, first, ks) {
      FedNeverStuck(f, first, ks, reports, |reports|);
    }
    if DistinctUsages(f) && Tracks(f, first, ks) && forall i | 0 <= i < |reports| :: Roomy(f, first, ks, reports, i) {
      FedIsHeld(f, first, ks, reports, |reports|);
    }
  }

  /** `hid_input_fetch_field` and `hid_input_array_field` for one report. */
  method FeedOne(field: ArrayField, input: Input, report: seq<int>)
    requires field.Valid() && input.Valid() && |report| == |field.value|
    modifies field, input.keys, input.keys.items
    ensures field.Valid() && input.Valid()
    ensures field.value == if RollsOver(field.shape, report) then old(field.value) else report
    ensures input.keys.View() ==
      if RollsOver(field.shape, report) then old(input.keys.View())
      else Turns(field.shape, old(field.value), report, |report|, old(input.keys.View()))
  {
    hide Turns;
    field.Fetch(report);
    field.Report(input);
  }

  /** A series in which any two reports that follow one another name at most 32
      keys always finds room. */
  lemma {:induction false} UnionsRoomy(f: L.Field, first: seq<int>, ks: seq<nat>, reports: seq<seq<int>>, n: nat)
    requires DistinctUsages(f) && Tracks(f, first, ks) && n <= |reports| && Sized(first, reports)
    requires forall i | 0 <= i < n :: |Named(f, Last(f, first, reports, i)) + Named(f, reports[i])| <= 32
    ensures Tracks(f, Last(f, first, reports, n), Held(f, first, ks, reports, n))
    ensures forall i | 0 <= i < n :: Roomy(f, first, ks, reports, i)
  {
    hide Tracks, Named, DistinctUsages, AllFit, Pressed, Without, RollsOver;
    if n > 0 {
      UnionsRoomy(f, first, ks, reports, n - 1);
      var was, now, held := Last(f, first, reports, n - 1), reports[n - 1], Held(f, first, ks, reports, n - 1);
      UnionAllFit(f, was, now, held);
      if !RollsOver(f, now) {
        ReportTracks(f, was, now, held);
      }
    }
  }

  lemma UnionAllFit(f: L.Field, was: seq<int>, now: seq<int>, ks: seq<nat>)
    requires DistinctUsages(f) && |was| == |now| && Tracks(f, was, ks)
    requires |Named(f, was) + Named(f, now)| <= 32
    ensures AllFit(f, was, now, ks)
  {
    hide Tracks, Named, DistinctUsages, Fits;
    forall n | 0 <= n < |was| ensures Fits(f, was, now, n, ks) {
      UnionFits(f, was, now, ks, n);
    }
  }

  /** A new field stands for a report of zeros, so it starts out right exactly if
      the value 0 names no key. */
  lemma FreshFieldTracks(f: L.Field)
    ensures Tracks(f, seq(f.count, _ => 0), []) <==> f.count == 0 || Name(f, 0).None?
  {
    var zeros := seq(f.count, _ => 0);
    if f.count > 0 {
      assert zeros[0] in zeros;
      if Name(f, 0).Some? {
        assert Name(f, 0).value in Named(f, zeros);
      }
    }
  }
}
