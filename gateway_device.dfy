/** The gateway device: grid power, load power and the two grid alarms from
    the live status, and the grid import and export meters from the energy
    history. */
module GatewayDevice {
  import opened Wrappers
  import opened Values
  import opened Catalog
  import opened Device
  import opened SiteValues
  import opened History

  /** The updates of the `liveStatus` handler; a missing response makes none. */
  function LiveStatusUpdates(response: Option<LiveStatus>): seq<Update> {
    if response.None? then []
    else
      var d := response.value;
      [ Update("measure_power", Literal(OfNum(d.grid_power))),
        Update("measure_power_load", Literal(OfNum(d.load_power))),
        Update("alarm_off_grid", Literal(GridStatusAlarm(d.grid_status))),
        Update("alarm_island_status", Literal(IslandStatusAlarm(d.island_status))) ]
  }

  /** After the `liveStatus` handler, grid power, load power and the two
      alarms hold the reported or mapped values, where the write is made;
      an absent reading or an unmapped status leaves the old value. */
  lemma LiveStatusEffect(values: map<string, Value>, caps: seq<string>, d: LiveStatus, rejected: set<string>)
    ensures var after := Store(values, caps, LiveStatusUpdates(Some(d)), rejected);
      && Applied(values, after, caps, rejected, "measure_power", OfNum(d.grid_power))
      && Applied(values, after, caps, rejected, "measure_power_load", OfNum(d.load_power))
      && Applied(values, after, caps, rejected, "alarm_off_grid", GridStatusAlarm(d.grid_status))
      && Applied(values, after, caps, rejected, "alarm_island_status", IslandStatusAlarm(d.island_status))
  {
    var us := LiveStatusUpdates(Some(d));
    StoreSoleUpdate(values, caps, us, rejected, 0);
    StoreSoleUpdate(values, caps, us, rejected, 1);
    StoreSoleUpdate(values, caps, us, rejected, 2);
    StoreSoleUpdate(values, caps, us, rejected, 3);
  }

  /** The updates of the `energyHistory` handler: a missing or empty series
      makes none; otherwise each meter is written in kWh from its null-start total. */
  function EnergyHistoryUpdates(series: Option<seq<HistoryEvent>>): seq<Update> {
    if series.None? || series.value == [] then []
    else
      KWhMeter("meter_power.imported", NullStartTotal(Readings(series.value, GridImported))) +
      KWhMeter("meter_power.exported", NullStartTotal(Readings(series.value, GridExported)))
  }

  /** The `energyHistory` handler. */
  method EnergyHistory(series: Option<seq<HistoryEvent>>) returns (us: seq<Update>)
    ensures us == EnergyHistoryUpdates(series)
  {
    if series.None? || |series.value| == 0 {
      return [];
    }
    var imported, exported := Totals(series.value);
    us := [];
    if imported.Some? {
      us := us + [Update("meter_power.imported", Literal(Num(imported.value / 1000.0)))];
    }
    if exported.Some? {
      us := us + [Update("meter_power.exported", Literal(Num(exported.value / 1000.0)))];
    }
  }

  /** One pass of the loop: each reading the event carries is added to its total. */
  method AddEvent(imported: Option<real>, exported: Option<real>, e: HistoryEvent)
    returns (imported': Option<real>, exported': Option<real>)
    ensures imported' == AddToNullable(imported, Reading(e, GridImported))
    ensures exported' == AddToNullable(exported, Reading(e, GridExported))
  {
    imported', exported' := imported, exported;
    if e.grid_energy_imported.Some? {
      imported' := Some(imported.GetOr(0.0) + e.grid_energy_imported.value);
    }
    if e.total_grid_energy_exported.Some? {
      exported' := Some(exported.GetOr(0.0) + e.total_grid_energy_exported.value);
    }
  }

  /** The loop over `time_series`, with both totals starting at null. */
  method Totals(ts: seq<HistoryEvent>) returns (imported: Option<real>, exported: Option<real>)
    ensures imported == NullStartTotal(Readings(ts, GridImported))
    ensures exported == NullStartTotal(Readings(ts, GridExported))
  {
    imported, exported := None, None;
    ghost var seen: seq<HistoryEvent> := [];
    var i := 0;
    while i < |ts|
      invariant 0 <= i <= |ts| && seen == ts[..i]
      invariant imported == NullStartTotal(Readings(seen, GridImported))
      invariant exported == NullStartTotal(Readings(seen, GridExported))
    {
      var e := ts[i];
      NullStartEvent(seen, e, GridImported);
      NullStartEvent(seen, e, GridExported);
      imported, exported := AddEvent(imported, exported, e);
      seen := seen + [e];
      i := i + 1;
      assert ts[..i] == ts[..i - 1] + [e];
    }
    assert ts[..i] == ts;
  }

  /** Each meter is written, independently of the other, exactly when some
      event carries its reading, with the sum of those readings in kWh. */
  lemma EnergyHistoryIsSumOfReadings(ts: seq<HistoryEvent>)
    requires ts != []
    ensures EnergyHistoryUpdates(Some(ts)) ==
      KWhMeter("meter_power.imported", SumOfPresent(ts, GridImported)) +
      KWhMeter("meter_power.exported", SumOfPresent(ts, GridExported))
  {
    NullStartIsSumOfReadings(ts, GridImported);
    NullStartIsSumOfReadings(ts, GridExported);
  }

  /** Readings that are present but total 0 are still written, as 0 kWh. */
  lemma ZeroImportIsWritten(ts: seq<HistoryEvent>)
    requires ts != []
    requires forall i :: 0 <= i < |ts| ==> ts[i].grid_energy_imported == Some(0.0)
    ensures EnergyHistoryUpdates(Some(ts))[0] == Update("meter_power.imported", Literal(Num(0.0)))
  {
    ZeroReadingsSumToZero(ts, GridImported);
    EnergyHistoryIsSumOfReadings(ts);
  }
}
