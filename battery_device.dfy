/** The battery device: charge level, battery power and storm alarm from the
    live status; reserve, mode and grid settings from the site information;
    the charge and discharge meters from the energy history; and the
    listeners that send settings back. */
module BatteryDevice {
  import opened Wrappers
  import opened Values
  import opened Catalog
  import opened Device
  import opened SiteValues
  import opened History
  import GatewayDevice

  /** The updates of the `liveStatus` handler; a missing response makes none. */
  function LiveStatusUpdates(response: Option<LiveStatus>): seq<Update> {
    if response.None? then []
    else
      var d := response.value;
      [ Update("measure_battery", Literal(OfNum(d.percentage_charged))),
        Update("measure_power", Literal(NegatedPower(d.battery_power))),
        Update("alarm_storm_watch_active", Literal(OfBool(d.storm_mode_active))) ]
  }

  /** After the `liveStatus` handler the battery power is the negated reported
      power where one is reported and the write is accepted, and is left as it
      was when none is reported. */
  lemma LiveStatusEffect(values: map<string, Value>, caps: seq<string>, d: LiveStatus, rejected: set<string>)
    ensures var after := Store(values, caps, LiveStatusUpdates(Some(d)), rejected);
      && Applied(values, after, caps, rejected, "measure_battery", OfNum(d.percentage_charged))
      && Applied(values, after, caps, rejected, "measure_power", NegatedPower(d.battery_power))
      && Applied(values, after, caps, rejected, "alarm_storm_watch_active", OfBool(d.storm_mode_active))
    ensures var after := Store(values, caps, LiveStatusUpdates(Some(d)), rejected);
      d.battery_power.Some? && "measure_power" in caps && "measure_power" !in rejected ==>
        "measure_power" in after && after["measure_power"] == Num(-d.battery_power.value)
  {
    var us := LiveStatusUpdates(Some(d));
    StoreSoleUpdate(values, caps, us, rejected, 0);
    StoreSoleUpdate(values, caps, us, rejected, 1);
    StoreSoleUpdate(values, caps, us, rejected, 2);
  }

  /** The updates of the `siteInfo` handler. Reading a field of missing
      `components` or `user_settings` throws, which ends the handler: without
      components only the reserve and the mode are written, and without user
      settings the storm-watch update is not made. */
  function SiteInfoUpdates(response: Option<SiteInfo>): seq<Update> {
    if response.None? then []
    else
      var d := response.value;
      [ Update("backup_reserve", Literal(ReserveFraction(d.backup_reserve_percent))),
        Update("operation_mode", Literal(OfStr(d.default_real_mode))) ] +
      if d.components.None? then []
      else
        [ Update("allow_export", Literal(ExportSetting(d.components.value))),
          Update("charge_from_grid", Literal(ChargeFromGrid(d.components.value))) ] +
        if d.user_settings.None? then []
        else [Update("storm_watch", Literal(OfBool(d.user_settings.value.storm_mode_enabled)))]
  }

  /** How far the `siteInfo` handler gets: 2 updates without components, 4
      without user settings, 5 otherwise; and always the reserve first, as a
      fraction of the reported percentage. */
  lemma SiteInfoStopsAtMissingField(d: SiteInfo)
    ensures |SiteInfoUpdates(Some(d))| == if d.components.None? then 2 else if d.user_settings.None? then 4 else 5
    ensures SiteInfoUpdates(Some(d))[0] == Update("backup_reserve", Literal(ReserveFraction(d.backup_reserve_percent)))
    ensures d.components.Some? ==>
      SiteInfoUpdates(Some(d))[2] == Update("allow_export", Literal(ExportSetting(d.components.value))) &&
      SiteInfoUpdates(Some(d))[3] == Update("charge_from_grid", Literal(ChargeFromGrid(d.components.value)))
  {
  }

  /** The updates of the `energyHistory` handler: a missing or empty series
      makes none; otherwise each total starts at 0 and is written, unscaled,
      only when it is not 0. */
  function EnergyHistoryUpdates(series: Option<seq<HistoryEvent>>): seq<Update> {
    if series.None? || series.value == [] then []
    else
      NonZeroMeter("meter_power.imported", ZeroStartTotal(Readings(series.value, BatteryCharge))) +
      NonZeroMeter("meter_power.exported", ZeroStartTotal(Readings(series.value, BatteryDischarge)))
  }

  /** `if (total) this.update(capability, total)` */
  function NonZeroMeter(capability: string, total: real): seq<Update> {
    if total != 0.0 then [Update(capability, Literal(Num(total)))] else []
  }

  /** The `energyHistory` handler. */
  method EnergyHistory(series: Option<seq<HistoryEvent>>) returns (us: seq<Update>)
    ensures us == EnergyHistoryUpdates(series)
  {
    if series.None? || |series.value| == 0 {
      return [];
    }
    var imported, exported := Totals(series.value);
    us := [];
    if imported != 0.0 {
      us := us + [Update("meter_power.imported", Literal(Num(imported)))];
    }
    if exported != 0.0 {
      us := us + [Update("meter_power.exported", Literal(Num(exported)))];
    }
  }

  /** The loop over `time_series`, with both totals starting at 0. */
  method Totals(ts: seq<HistoryEvent>) returns (imported: real, exported: real)
    ensures imported == ZeroStartTotal(Readings(ts, BatteryCharge))
    ensures exported == ZeroStartTotal(Readings(ts, BatteryDischarge))
  {
    imported, exported := 0.0, 0.0;
    var i := 0;
    while i < |ts|
      invariant 0 <= i <= |ts|
      invariant imported == ZeroStartTotal(Readings(ts[..i], BatteryCharge))
      invariant exported == ZeroStartTotal(Readings(ts[..i], BatteryDischarge))
    {
      ZeroStartStep(ts, i, BatteryCharge);
      ZeroStartStep(ts, i, BatteryDischarge);
      if ts[i].total_battery_charge.Some? {
        imported := imported + ts[i].total_battery_charge.value;
      }
      if ts[i].total_battery_discharge.Some? {
        exported := exported + ts[i].total_battery_discharge.value;
      }
      i := i + 1;
    }
    assert ts[..i] == ts;
  }

  /** Each meter carries the sum of the readings present, and is written only
      when that sum is not 0. */
  lemma EnergyHistoryIsSumOfReadings(ts: seq<HistoryEvent>)
    requires ts != []
    ensures EnergyHistoryUpdates(Some(ts)) ==
      NonZeroMeter("meter_power.imported", SumOfPresent(ts, BatteryCharge).GetOr(0.0)) +
      NonZeroMeter("meter_power.exported", SumOfPresent(ts, BatteryDischarge).GetOr(0.0))
  {
    ZeroStartIsSumOfReadings(ts, BatteryCharge);
    ZeroStartIsSumOfReadings(ts, BatteryDischarge);
  }

  /** Unlike the gateway's meters, a total of 0 is never written, even when
      every event reports a reading. */
  lemma ZeroTotalsAreSkipped(ts: seq<HistoryEvent>)
    requires ts != []
    requires forall i :: 0 <= i < |ts| ==> ts[i].total_battery_charge == Some(0.0)
    requires forall i :: 0 <= i < |ts| ==> ts[i].total_battery_discharge == Some(0.0)
    ensures EnergyHistoryUpdates(Some(ts)) == []
  {
    ZeroReadingsSumToZero(ts, BatteryCharge);
    ZeroReadingsSumToZero(ts, BatteryDischarge);
    EnergyHistoryIsSumOfReadings(ts);
  }

  /** The battery meters are written unscaled, in Wh, while the gateway divides
      the same kind of history total by 1000: one event whose charge and
      import readings are both `x` writes `x` on the battery's import meter
      and `x / 1000` on the gateway's. */
  lemma MetersScaleDiverge(e: HistoryEvent, x: real)
    requires x != 0.0
    requires e.total_battery_charge == Some(x) && e.total_battery_discharge.None?
    requires e.grid_energy_imported == Some(x) && e.total_grid_energy_exported.None?
    ensures EnergyHistoryUpdates(Some([e])) == [Update("meter_power.imported", Literal(Num(x)))]
    ensures GatewayDevice.EnergyHistoryUpdates(Some([e])) == [Update("meter_power.imported", Literal(Num(x / 1000.0)))]
  {
    SingleEventTotals(e, BatteryCharge);
    SingleEventTotals(e, BatteryDischarge);
    SingleEventTotals(e, GridImported);
    SingleEventTotals(e, GridExported);
  }
}
