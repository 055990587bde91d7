/** The accumulation rules of the history handlers. Two conventions occur in the
    code: the gateway, solar and wall-connector handlers start from `null` (and
    `null + x` is `x` in JavaScript), so a series without any value stays
    `null`; the battery handler starts from `0`. */
module History {
  import opened Wrappers
  import opened Catalog
  import opened Values
  import opened Device

  datatype Metric =
    | EnergyAdded | GridImported | GridExported | SolarGeneration | BatteryCharge | BatteryDischarge

  function Reading(e: HistoryEvent, m: Metric): Option<real> {
    match m
    case EnergyAdded => e.energy_added_wh
    case GridImported => e.grid_energy_imported
    case GridExported => e.total_grid_energy_exported
    case SolarGeneration => e.total_solar_generation
    case BatteryCharge => e.total_battery_charge
    case BatteryDischarge => e.total_battery_discharge
  }

  /** The readings of one metric along a series. */
  function Readings(series: seq<HistoryEvent>, m: Metric): seq<Option<real>> {
    if series == [] then []
    else Readings(series[..|series| - 1], m) + [Reading(series[|series| - 1], m)]
  }

  lemma {:induction false} ReadingsPointwise(series: seq<HistoryEvent>, m: Metric)
    ensures |Readings(series, m)| == |series|
    ensures forall i :: 0 <= i < |series| ==> Readings(series, m)[i] == Reading(series[i], m)
  {
    if series != [] {
      ReadingsPointwise(series[..|series| - 1], m);
    }
  }

  /** The values that are present, in order. */
  function Present(xs: seq<Option<real>>): seq<real> {
    if xs == [] then []
    else Present(xs[..|xs| - 1]) + (if xs[|xs| - 1].Some? then [xs[|xs| - 1].value] else [])
  }

  function Sum(xs: seq<real>): real {
    if xs == [] then 0.0 else Sum(xs[..|xs| - 1]) + xs[|xs| - 1]
  }

  /** One step of `if (x !== undefined && x !== null) acc += x` with `acc` starting at null. */
  function AddToNullable(acc: Option<real>, x: Option<real>): Option<real> {
    match x
    case None => acc
    case Some(v) => Some(acc.GetOr(0.0) + v)
  }

  function NullStartTotal(xs: seq<Option<real>>): Option<real> {
    if xs == [] then None else AddToNullable(NullStartTotal(xs[..|xs| - 1]), xs[|xs| - 1])
  }

  /** One step of the same loop with `acc` starting at 0. */
  function ZeroStartTotal(xs: seq<Option<real>>): real {
    if xs == [] then 0.0 else ZeroStartTotal(xs[..|xs| - 1]) + xs[|xs| - 1].GetOr(0.0)
  }

  lemma SumSnoc(xs: seq<real>, v: real)
    ensures Sum(xs + [v]) == Sum(xs) + v
  {
    assert (xs + [v])[..|xs|] == xs;
  }

  /** A null-start total is null exactly when no value is present, and is
      otherwise the sum of the values that are. */
  lemma {:induction false} NullStartIsSumOfPresent(xs: seq<Option<real>>)
    ensures NullStartTotal(xs) == if Present(xs) == [] then None else Some(Sum(Present(xs)))
  {
    if xs != [] {
      var init, last := xs[..|xs| - 1], xs[|xs| - 1];
      NullStartIsSumOfPresent(init);
      assert Present(xs) == Present(init) + (if last.Some? then [last.value] else []);
      assert NullStartTotal(xs) == AddToNullable(NullStartTotal(init), last);
      if last.Some? {
        SumSnoc(Present(init), last.value);
        assert Present(init) == [] ==> Present(init) + [last.value] == [last.value];
      } else {
        assert Present(init) + [] == Present(init);
      }
    }
  }

  /** A zero-start total is the sum of the values present, 0 when none is. */
  lemma {:induction false} ZeroStartIsSumOfPresent(xs: seq<Option<real>>)
    ensures ZeroStartTotal(xs) == Sum(Present(xs))
  {
    if xs != [] {
      var init, last := xs[..|xs| - 1], xs[|xs| - 1];
      ZeroStartIsSumOfPresent(init);
      assert Present(xs) == Present(init) + (if last.Some? then [last.value] else []);
      if last.Some? {
        SumSnoc(Present(init), last.value);
      } else {
        assert Present(init) + [] == Present(init);
      }
    }
  }

  lemma {:induction false} PresentEmptyIffNoneSome(xs: seq<Option<real>>)
    ensures Present(xs) == [] <==> forall i :: 0 <= i < |xs| ==> xs[i].None?
  {
    if xs != [] {
      var init := xs[..|xs| - 1];
      PresentEmptyIffNoneSome(init);
      assert forall i :: 0 <= i < |init| ==> init[i] == xs[i];
    }
  }

  /** The two conventions agree whenever some value is present, and differ only
      in what an all-missing series gives: null against 0. */
  lemma {:induction false} NullAndZeroStartAgree(xs: seq<Option<real>>)
    ensures NullStartTotal(xs).None? <==> forall i :: 0 <= i < |xs| ==> xs[i].None?
    ensures NullStartTotal(xs).Some? ==> NullStartTotal(xs).value == ZeroStartTotal(xs)
    ensures NullStartTotal(xs).None? ==> ZeroStartTotal(xs) == 0.0
  {
    NullStartIsSumOfPresent(xs);
    ZeroStartIsSumOfPresent(xs);
    PresentEmptyIffNoneSome(xs);
  }

  lemma ReadingsSnoc(series: seq<HistoryEvent>, i: nat, m: Metric)
    requires i < |series|
    ensures Readings(series[..i + 1], m) == Readings(series[..i], m) + [Reading(series[i], m)]
  {
    assert series[..i + 1][..i] == series[..i];
  }

  lemma NullStartSnoc(xs: seq<Option<real>>, x: Option<real>)
    ensures NullStartTotal(xs + [x]) == AddToNullable(NullStartTotal(xs), x)
  {
    assert (xs + [x])[..|xs|] == xs;
  }

  lemma ZeroStartSnoc(xs: seq<Option<real>>, x: Option<real>)
    ensures ZeroStartTotal(xs + [x]) == ZeroStartTotal(xs) + x.GetOr(0.0)
  {
    assert (xs + [x])[..|xs|] == xs;
  }

  /** One step of the null-start loop over a prefix of the series. */
  lemma NullStartStep(series: seq<HistoryEvent>, i: nat, m: Metric)
    requires i < |series|
    ensures NullStartTotal(Readings(series[..i + 1], m)) ==
            AddToNullable(NullStartTotal(Readings(series[..i], m)), Reading(series[i], m))
  {
    ReadingsSnoc(series, i, m);
    NullStartSnoc(Readings(series[..i], m), Reading(series[i], m));
  }

  /** One step of the null-start loop, over the events seen so far. */
  lemma NullStartEvent(seen: seq<HistoryEvent>, e: HistoryEvent, m: Metric)
    ensures NullStartTotal(Readings(seen + [e], m)) == AddToNullable(NullStartTotal(Readings(seen, m)), Reading(e, m))
  {
    assert (seen + [e])[..|seen|] == seen;
    NullStartSnoc(Readings(seen, m), Reading(e, m));
  }

  /** One step of the zero-start loop over a prefix of the series. */
  lemma ZeroStartStep(series: seq<HistoryEvent>, i: nat, m: Metric)
    requires i < |series|
    ensures ZeroStartTotal(Readings(series[..i + 1], m)) ==
            ZeroStartTotal(Readings(series[..i], m)) + Reading(series[i], m).GetOr(0.0)
  {
    ReadingsSnoc(series, i, m);
    ZeroStartSnoc(Readings(series[..i], m), Reading(series[i], m));
  }

  /** The independent reading of a history total: the sum of the readings of
      `m` that are present, or None when no event carries one. */
  function SumOfPresent(series: seq<HistoryEvent>, m: Metric): Option<real> {
    if forall i :: 0 <= i < |series| ==> Reading(series[i], m).None? then None
    else Some(Sum(Present(Readings(series, m))))
  }

  /** The null-start loop computes exactly that total. */
  lemma NullStartIsSumOfReadings(series: seq<HistoryEvent>, m: Metric)
    ensures NullStartTotal(Readings(series, m)) == SumOfPresent(series, m)
  {
    NullStartIsSumOfPresent(Readings(series, m));
    PresentEmptyIffNoneSome(Readings(series, m));
    ReadingsPointwise(series, m);
  }

  /** The zero-start loop computes that total, with 0 for an all-missing series. */
  lemma ZeroStartIsSumOfReadings(series: seq<HistoryEvent>, m: Metric)
    ensures ZeroStartTotal(Readings(series, m)) == SumOfPresent(series, m).GetOr(0.0)
  {
    ZeroStartIsSumOfPresent(Readings(series, m));
    PresentEmptyIffNoneSome(Readings(series, m));
    ReadingsPointwise(series, m);
  }

  /** A series whose every reading is 0 totals 0, and one with a reading present is not None. */
  lemma {:induction false} ZeroReadingsSumToZero(series: seq<HistoryEvent>, m: Metric)
    requires series != []
    requires forall i :: 0 <= i < |series| ==> Reading(series[i], m) == Some(0.0)
    ensures SumOfPresent(series, m) == Some(0.0)
  {
    var xs := Readings(series, m);
    ReadingsPointwise(series, m);
    assert Reading(series[0], m).Some?;
    AllZeroSum(xs);
  }

  lemma {:induction false} AllZeroSum(xs: seq<Option<real>>)
    requires forall i :: 0 <= i < |xs| ==> xs[i] == Some(0.0)
    ensures Sum(Present(xs)) == 0.0
  {
    if xs != [] {
      var init := xs[..|xs| - 1];
      assert forall i :: 0 <= i < |init| ==> init[i] == xs[i];
      AllZeroSum(init);
      SumSnoc(Present(init), 0.0);
    }
  }

  /** A one-event series totals that event's reading under both conventions. */
  lemma SingleEventTotals(e: HistoryEvent, m: Metric)
    ensures Readings([e], m) == [Reading(e, m)]
    ensures ZeroStartTotal(Readings([e], m)) == Reading(e, m).GetOr(0.0)
    ensures NullStartTotal(Readings([e], m)) == Reading(e, m)
  {
    assert [e][..0] == [];
    var rs := [Reading(e, m)];
    assert rs[..0] == [];
  }

  /** `if (total !== null) this.update(capability, total / 1000)`: a null-start
      total in Wh becomes one kWh meter update. */
  function KWhMeter(capability: string, total: Option<real>): seq<Update> {
    if total.Some? then [Update(capability, Literal(Num(total.value / 1000.0)))] else []
  }
}
