/** From a descriptor and the bytes of its reports to the keys held: the parser,
    the codec and key tracking together (hid/src/lib.rs, hid/src/input.rs). */
module HidTrack {
  import opened Util
  import L = HidLayout
  import C = HidCodec
  import R = HidReport
  import K = HidKeys

  /** The values of a field in one report. */
  ghost function Values(f: L.Field, r: C.Report): seq<int> {
    seq(f.count, n requires 0 <= n < f.count => R.Fetched(r, f, n))
  }

  ghost function AllValues(f: L.Field, reports: seq<C.Report>): (all: seq<seq<int>>)
    ensures |all| == |reports| && forall i | 0 <= i < |reports| :: all[i] == Values(f, reports[i])
  {
    seq(|reports|, i requires 0 <= i < |reports| => Values(f, reports[i]))
  }

  /** `Device::input_report` for one array field, report after report. */
  method FeedBytes(field: K.ArrayField, input: K.Input, reports: seq<C.Report>)
    requires field.Valid() && input.Valid()
    modifies field, input.keys, input.keys.items
    ensures field.Valid() && input.Valid()
    ensures var f, first, all := field.shape, old(field.value), AllValues(field.shape, reports);
      && K.Sized(first, all) && field.value == K.Last(f, first, all, |all|)
      && input.keys.View() == K.Fed(f, first, old(input.keys.View()), all, |all|)
  {
    hide K.Turns, K.RollsOver, R.Fetched;
    ghost var f, first, ks := field.shape, field.value, input.keys.View();
    ghost var all := AllValues(f, reports);
    for i := 0 to |reports|
      invariant field.Valid() && input.Valid()
      invariant field.value == K.Last(f, first, all, i) && input.keys.View() == K.Fed(f, first, ks, all, i)
    {
      var values := R.FetchField(reports[i], field.shape);
      assert values == all[i];
      K.FeedOne(field, input, values);
    }
  }

  /** A field of an input report of a device that was parsed. */
  ghost predicate FieldOf(d: L.Device, id: nat, at: nat, f: L.Field) {
    var k := (L.InputReport, id);
    L.DeviceOk(d) && k in d && at < |d[k].fields| && d[k].fields[at] == f
  }

  /** For every descriptor, every array field it describes and all reports, from
      plugging in on: no key is ever stuck, and if no key has two values, 0 names
      none and each press finds room, the keys held are those of the last report
      that was not a roll-over, in the order they were pressed. */
  method Track(desc: seq<Byte>, id: nat, at: nat, reports: seq<C.Report>)
    returns (keys: seq<nat>, ghost d: L.Device, f: Option<L.Field>)
    ensures f.Some? ==>
      && FieldOf(d, id, at, f.value)
      && var none, all := seq(f.value.count, _ => 0), AllValues(f.value, reports);
        && K.Sized(none, all)
        && K.NoneStuck(f.value, K.Last(f.value, none, all, |all|), keys)
        && (K.DistinctUsages(f.value) && K.Name(f.value, 0).None?
            && (forall i | 0 <= i < |all| :: K.Roomy(f.value, none, [], all, i)) ==>
              && keys == K.Held(f.value, none, [], all, |all|)
              && K.Tracks(f.value, K.Last(f.value, none, all, |all|), keys))
  {
    hide K.Tracks, K.DistinctUsages, K.Roomy, K.Held, K.RollsOver, K.Turns, K.NoneStuck, R.Fetched, L.DeviceOk;
    keys, d, f := [], map[], None;
    var parsed := L.Parse(desc);
    if parsed.None? || (L.InputReport, id) !in parsed.value || at >= |parsed.value[(L.InputReport, id)].fields| {
      return;
    }
    d := parsed.value;
    var g := parsed.value[(L.InputReport, id)].fields[at];
    f := Some(g);
    var field := new K.ArrayField(g);
    var input := new K.Input();
    ghost var none, all := seq(g.count, _ => 0), AllValues(g, reports);
    assert field.value == none;
    FeedBytes(field, input, reports);
    keys := input.keys.items[..input.keys.len];
    NothingHeld(g, none);
    K.FedNeverStuck(g, none, [], all, |all|);
    if K.DistinctUsages(g) && K.Name(g, 0).None? && forall i | 0 <= i < |all| :: K.Roomy(g, none, [], all, i) {
      K.FreshFieldTracks(g);
      K.FedIsHeld(g, none, [], all, |all|);
    }
  }

  lemma NothingHeld(f: L.Field, report: seq<int>)
    ensures K.NoneStuck(f, report, [])
  {
  }
}
