/** The powerwall device. It extends the platform device directly, without the
    guarded `update`: each handler makes every `setCapabilityValue` call it
    lists, `undefined` values included, and a rejected call is caught and
    logged. A handler is modelled by the calls it makes, in order. */
module PowerwallDevice {
  import opened Wrappers
  import opened Values
  import opened Catalog
  import opened SiteValues

  /** The value the last of the calls `ws` to capability `c` sets, if any. */
  function LastWrite(ws: seq<(string, Value)>, c: string): Option<Value> {
    if ws == [] then None
    else if ws[|ws| - 1].0 == c then Some(ws[|ws| - 1].1)
    else LastWrite(ws[..|ws| - 1], c)
  }

  /** The exported grid power: the magnitude of a negative grid power, else 0. */
  function GridExported(g: real): (r: real)
    ensures r >= 0.0
    ensures g < 0.0 ==> r == -g
    ensures g >= 0.0 ==> r == 0.0
  {
    if g < 0.0 then -g else 0.0
  }

  /** `data.grid_status === "Active"` */
  function GridStatus(s: Option<string>): Value {
    Bool(s == Some("Active"))
  }

  /** `String(data.island_status)`; a missing field reads "undefined". */
  function IslandStatusText(s: Option<string>): string {
    if s.Some? then s.value else "undefined"
  }

  /** The calls of the `liveStatus` handler; a missing response makes none.
      The exported grid power is set only when the grid power is a number. */
  function LiveStatusWrites(response: Option<LiveStatus>): (ws: seq<(string, Value)>)
    ensures response.None? ==> ws == []
  {
    if response.None? then []
    else
      var d := response.value;
      [ ("measure_battery", OfNum(d.percentage_charged)),
        ("measure_energy_left", OfNum(d.energy_left)),
        ("measure_power", OfNum(d.battery_power)),
        ("measure_power_solar", OfNum(d.solar_power)),
        ("measure_load_power", OfNum(d.load_power)),
        ("measure_home_usage", OfNum(d.load_power)),
        ("measure_power_grid", OfNum(d.grid_power)),
        ("measure_grid_services_power", OfNum(d.grid_services_power)),
        ("measure_generator_exported", OfNum(d.generator_power)),
        ("measure_island_status", Str(IslandStatusText(d.island_status))),
        ("storm_watch_active", OfBool(d.storm_mode_active)),
        ("grid_status", GridStatus(d.grid_status)),
        ("grid_services_active", OfBool(d.grid_services_active)) ] +
      if d.grid_power.Some? then [("measure_grid_exported", Num(GridExported(d.grid_power.value)))] else []
  }

  /** What the `liveStatus` handler leaves set: the exported grid power only
      for a numeric grid power, never negative; the grid status true exactly
      for "Active"; and the load power under both of its capabilities. */
  lemma LiveStatusEffect(d: LiveStatus)
    ensures var ws := LiveStatusWrites(Some(d));
      && LastWrite(ws, "measure_grid_exported") ==
           (if d.grid_power.Some? then Some(Num(GridExported(d.grid_power.value))) else None)
      && LastWrite(ws, "grid_status") == Some(Bool(d.grid_status == Some("Active")))
      && LastWrite(ws, "measure_load_power") == Some(OfNum(d.load_power))
      && LastWrite(ws, "measure_home_usage") == Some(OfNum(d.load_power))
  {
    var ws := LiveStatusWrites(Some(d));
    if d.grid_power.Some? {
      LastWriteAt(ws, 13);
    } else {
      LastWriteAbsent(ws, "measure_grid_exported");
    }
    LastWriteAt(ws, 11);
    LastWriteAt(ws, 4);
    LastWriteAt(ws, 5);
  }

  /** The powerwall's grid status has the opposite polarity of the gateway's
      off-grid alarm on both statuses that alarm maps, and reads false where
      the alarm is left unset. */
  lemma GridStatusOppositeOfAlarm(s: Option<string>)
    ensures s == Some("Active") ==> GridStatus(s) == Bool(true) && GridStatusAlarm(s) == Bool(false)
    ensures s == Some("Inactive") ==> GridStatus(s) == Bool(false) && GridStatusAlarm(s) == Bool(true)
    ensures !GridStatusAlarm(s).Undefined? ==> GridStatus(s) == Not(GridStatusAlarm(s))
    ensures GridStatusAlarm(s).Undefined? ==> GridStatus(s) == Bool(false)
  {
  }

  /** The calls of the `siteInfo` handler; a missing response makes none. The
      two grid settings are set only with components, storm watch only with
      user settings. */
  function SiteInfoWrites(response: Option<SiteInfo>): (ws: seq<(string, Value)>)
    ensures response.None? ==> ws == []
  {
    if response.None? then []
    else
      var d := response.value;
      [ ("backup_reserve", OfNum(d.backup_reserve_percent)),
        ("measure_version", OfStr(d.version)),
        ("operation_mode", OfStr(d.default_real_mode)) ] +
      (if d.components.Some? then
        [ ("allow_export", d.components.value.customer_preferred_export_rule),
          ("allow_charging_from_grid", Not(d.components.value.disallow_charge_from_grid_with_solar_installed)) ]
       else []) +
      (if d.user_settings.Some? then [("storm_watch", OfBool(d.user_settings.value.storm_mode_enabled))] else []) +
      [ ("off_grid_reserve", OfNum(d.off_grid_vehicle_charging_reserve_percent)),
        ("backup_capable", OfBool(d.backup_capable)),
        ("grid_services_enabled", OfBool(d.grid_services_enabled)),
        ("measure_vpp_backup_reserve", OfNum(d.vpp_backup_reserve_percent)) ]
  }

  /** The nested settings are set exactly when their parent object is
      present; charging from the grid is allowed unless disallowed. */
  lemma SiteInfoEffect(d: SiteInfo)
    ensures var ws := SiteInfoWrites(Some(d));
      && LastWrite(ws, "backup_reserve") == Some(OfNum(d.backup_reserve_percent))
      && LastWrite(ws, "allow_export") ==
           (if d.components.Some? then Some(d.components.value.customer_preferred_export_rule) else None)
      && LastWrite(ws, "allow_charging_from_grid") ==
           (if d.components.Some? then Some(Bool(!Truthy(d.components.value.disallow_charge_from_grid_with_solar_installed))) else None)
      && LastWrite(ws, "storm_watch") ==
           (if d.user_settings.Some? then Some(OfBool(d.user_settings.value.storm_mode_enabled)) else None)
  {
    SiteInfoReserve(d);
    SiteInfoGridSettings(d);
    SiteInfoStormWatch(d);
  }

  lemma SiteInfoReserve(d: SiteInfo)
    ensures LastWrite(SiteInfoWrites(Some(d)), "backup_reserve") == Some(OfNum(d.backup_reserve_percent))
  {
    LastWriteAt(SiteInfoWrites(Some(d)), 0);
  }

  lemma SiteInfoGridSettings(d: SiteInfo)
    ensures var ws := SiteInfoWrites(Some(d));
      && LastWrite(ws, "allow_export") ==
           (if d.components.Some? then Some(d.components.value.customer_preferred_export_rule) else None)
      && LastWrite(ws, "allow_charging_from_grid") ==
           (if d.components.Some? then Some(Bool(!Truthy(d.components.value.disallow_charge_from_grid_with_solar_installed))) else None)
  {
    var ws := SiteInfoWrites(Some(d));
    if d.components.Some? {
      LastWriteAt(ws, 3);
      LastWriteAt(ws, 4);
    } else {
      LastWriteAbsent(ws, "allow_export");
      LastWriteAbsent(ws, "allow_charging_from_grid");
    }
  }

  lemma SiteInfoStormWatch(d: SiteInfo)
    ensures LastWrite(SiteInfoWrites(Some(d)), "storm_watch") ==
            (if d.user_settings.Some? then Some(OfBool(d.user_settings.value.storm_mode_enabled)) else None)
  {
    var ws := SiteInfoWrites(Some(d));
    if d.user_settings.Some? {
      LastWriteAt(ws, |ws| - 5);
    } else {
      LastWriteAbsent(ws, "storm_watch");
    }
  }

  /** The last call naming a capability decides the value it is left with. */
  lemma LastWriteAt(ws: seq<(string, Value)>, k: nat)
    requires k < |ws|
    requires forall i :: k < i < |ws| ==> ws[i].0 != ws[k].0
    ensures LastWrite(ws, ws[k].0) == Some(ws[k].1)
  {
    assert ws == ws[..k + 1] + ws[k + 1..];
    LastWriteSkip(ws[..k + 1], ws[k + 1..], ws[k].0);
  }

  /** A capability no call names is not set. */
  lemma {:induction false} LastWriteAbsent(ws: seq<(string, Value)>, c: string)
    requires forall i :: 0 <= i < |ws| ==> ws[i].0 != c
    ensures LastWrite(ws, c).None?
  {
    if ws != [] {
      LastWriteAbsent(ws[..|ws| - 1], c);
    }
  }

  /** Calls that do not name `c` leave its last value as the earlier calls set it. */
  lemma {:induction false} LastWriteSkip(pre: seq<(string, Value)>, post: seq<(string, Value)>, c: string)
    requires forall i :: 0 <= i < |post| ==> post[i].0 != c
    ensures LastWrite(pre + post, c) == LastWrite(pre, c)
  {
    if post == [] {
      assert pre + post == pre;
    } else {
      assert (pre + post)[..|pre + post| - 1] == pre + post[..|post| - 1];
      LastWriteSkip(pre, post[..|post| - 1], c);
    }
  }

  /** The capability listeners, by capability. The reserve is sent back as
      the raw percentage the handler wrote. */
  function ListenerCommand(capability: string, value: Value, values: map<string, Value>): Option<Command> {
    if capability == "backup_reserve" then Some(SetBackupReserve(value))
    else if capability == "off_grid_reserve" then Some(SetOffGridVehicleChargingReserve(value))
    else if capability == "allow_export" then
      Some(GridImportExport(value, Not(CapabilityValue(values, "allow_charging_from_grid"))))
    else if capability == "allow_charging_from_grid" then
      Some(GridImportExport(CapabilityValue(values, "allow_export"), Not(value)))
    else if capability == "operation_mode" then Some(SetOperationMode(value))
    else if capability == "storm_watch" then Some(SetStormMode(value))
    else None
  }

  /** Unlike the energy-site and battery listeners, both grid listeners send
      the disallow flag as the negation of the allow value: changing the
      export rule and re-sending the current charging setting send the same flag. */
  lemma GridListenersAgree(values: map<string, Value>, b: bool, rule: Value)
    requires CapabilityValue(values, "allow_charging_from_grid") == Bool(b)
    ensures ListenerCommand("allow_export", rule, values) == Some(GridImportExport(rule, Bool(!b)))
    ensures ListenerCommand("allow_charging_from_grid", Bool(b), values) ==
            Some(GridImportExport(CapabilityValue(values, "allow_export"), Bool(!b)))
  {
  }

  /** The disallow flag a site reports comes back unchanged from either grid
      listener, once the handler has set the charging capability from it. */
  lemma GridChargingRoundTrip(c: Components, values: map<string, Value>, rule: Value)
    requires CapabilityValue(values, "allow_charging_from_grid") == Not(c.disallow_charge_from_grid_with_solar_installed)
    ensures var flag := Bool(Truthy(c.disallow_charge_from_grid_with_solar_installed));
      && ListenerCommand("allow_export", rule, values).value.disallowChargeFromGrid == flag
      && ListenerCommand("allow_charging_from_grid", Not(c.disallow_charge_from_grid_with_solar_installed), values).value.disallowChargeFromGrid == flag
  {
  }
}
