/** The value derivations and grid-setting commands that the energy-site
    device defines and the battery and gateway devices repeat: the status
    lookup maps, the battery-power sign flip, the reserve scaling, the export
    rule, and the commands the capability listeners send. */
module SiteValues {
  import opened Wrappers
  import opened Values
  import opened Catalog

  /** `gridStatusMap.get(grid_status)`: the off-grid alarm. */
  function GridStatusAlarm(s: Option<string>): Value {
    if s == Some("Active") then Bool(false)
    else if s == Some("Inactive") then Bool(true)
    else Undefined
  }

  /** `islandStatusMap.get(island_status)`: the island alarm. */
  function IslandStatusAlarm(s: Option<string>): Value {
    if s == Some("off_grid_intentional") || s == Some("off_grid_unintentional") then Bool(true)
    else if s == Some("on_grid") then Bool(false)
    else Undefined
  }

  /** The off-grid alarm is raised for "Inactive", cleared for "Active", and
      left unset (so `update` skips it) for every other status. */
  lemma GridStatusAlarmCases(s: Option<string>)
    ensures GridStatusAlarm(s) == Bool(true) <==> s == Some("Inactive")
    ensures GridStatusAlarm(s) == Bool(false) <==> s == Some("Active")
    ensures GridStatusAlarm(s).Undefined? <==> s != Some("Active") && s != Some("Inactive")
  {
  }

  /** Both off-grid island states raise the alarm, "on_grid" clears it, and
      other values leave it unset. */
  lemma IslandStatusAlarmCases(s: Option<string>)
    ensures IslandStatusAlarm(s) == Bool(true) <==> s == Some("off_grid_intentional") || s == Some("off_grid_unintentional")
    ensures IslandStatusAlarm(s) == Bool(false) <==> s == Some("on_grid")
    ensures !IslandStatusAlarm(s).Undefined? ==> s.Some?
  {
  }

  /** `battery_power !== undefined ? battery_power * -1 : undefined` */
  function NegatedPower(o: Option<real>): (r: Value)
    ensures r.Undefined? <==> o.None?
    ensures r.Num? ==> r.n + o.value == 0.0
  {
    if o.Some? then Num(-o.value) else Undefined
  }

  /** A battery that charges (negative power) shows a positive battery power, and back. */
  lemma NegatedPowerFlipsSign(o: Option<real>)
    requires o.Some?
    ensures NegatedPower(o).Num? && (NegatedPower(o).n > 0.0 <==> o.value < 0.0)
    ensures NegatedPower(Some(NegatedPower(o).n)) == Num(o.value)
  {
  }

  /** `backup_reserve_percent !== undefined ? backup_reserve_percent / 100 : undefined` */
  function ReserveFraction(o: Option<real>): (r: Value)
    ensures r.Undefined? <==> o.None?
    ensures r.Num? ==> r.n * 100.0 == o.value
  {
    if o.Some? then Num(o.value / 100.0) else Undefined
  }

  /** `Math.round(x)`: the nearest integer, halves rounded up. */
  function Round(x: real): (r: int)
    ensures x - 0.5 < r as real <= x + 0.5
  {
    (x + 0.5).Floor
  }

  /** `allow_export`: "never" when the export rule, or failing that the
      non-export setting, is truthy, otherwise "battery_ok". */
  function ExportSetting(c: Components): Value {
    if Truthy(Coalesce(c.customer_preferred_export_rule, c.non_export_configured)) then Str("never")
    else Str("battery_ok")
  }

  /** `charge_from_grid = !disallow_charge_from_grid_with_solar_installed` */
  function ChargeFromGrid(c: Components): Value {
    Not(c.disallow_charge_from_grid_with_solar_installed)
  }

  /** The export rule wins over the non-export setting unless it is null or
      undefined; a falsy but present rule reads as "battery_ok". */
  lemma ExportSettingCases(c: Components)
    ensures !Nullish(c.customer_preferred_export_rule) ==>
      ExportSetting(c) == if Truthy(c.customer_preferred_export_rule) then Str("never") else Str("battery_ok")
    ensures Nullish(c.customer_preferred_export_rule) ==>
      ExportSetting(c) == if Truthy(c.non_export_configured) then Str("never") else Str("battery_ok")
    ensures ExportSetting(c) == Str("never") || ExportSetting(c) == Str("battery_ok")
  {
  }

  /** A missing disallow flag means charging from the grid is allowed. */
  lemma ChargeFromGridCases(c: Components)
    ensures ChargeFromGrid(c) == Bool(!Truthy(c.disallow_charge_from_grid_with_solar_installed))
    ensures Nullish(c.disallow_charge_from_grid_with_solar_installed) ==> ChargeFromGrid(c) == Bool(true)
  {
  }

  /** A command a capability listener sends to the site. */
  datatype Command =
    | SetBackupReserve(percent: Value)
    | GridImportExport(exportRule: Value, disallowChargeFromGrid: Value)
    | SetOperationMode(mode: Value)
    | SetStormMode(enabled: Value)
    | SetOffGridVehicleChargingReserve(percent: Value)

  /** `getCapabilityValue(c)`: a capability that holds no value reads as null. */
  function CapabilityValue(values: map<string, Value>, c: string): Value {
    if c in values then values[c] else Null
  }

  /** The `backup_reserve` listener: the fraction is sent back as a rounded percentage. */
  function BackupReserveCommand(value: real): Command {
    SetBackupReserve(Num(Round(value * 100.0) as real))
  }

  /** The reserve shown for a whole-number percentage is sent back as that percentage. */
  lemma BackupReserveRoundTrip(percent: int)
    ensures ReserveFraction(Some(percent as real)).Num?
    ensures BackupReserveCommand(ReserveFraction(Some(percent as real)).n) == SetBackupReserve(Num(percent as real))
  {
    var x := ReserveFraction(Some(percent as real)).n * 100.0;
    assert x == percent as real;
    assert Round(x) == percent;
  }

  /** The `allow_export` listener of the energy-site and battery devices: the
      new export rule with the current `charge_from_grid` value, uninverted. */
  function AllowExportCommand(value: Value, values: map<string, Value>): Command {
    GridImportExport(value, CapabilityValue(values, "charge_from_grid"))
  }

  /** The `charge_from_grid` listener of the energy-site and battery devices:
      the current export rule with the negated new value. */
  function ChargeFromGridCommand(value: Value, values: map<string, Value>): Command {
    GridImportExport(CapabilityValue(values, "allow_export"), Not(value))
  }

  /** The two grid listeners disagree on the meaning of the second argument.
      With charging from the grid allowed on the device, changing the export
      rule sends "disallow" as true, while switching charging on (to the
      value it already has) sends it as false. */
  lemma GridChargingSignDiverges(values: map<string, Value>, b: bool, rule: Value)
    requires CapabilityValue(values, "charge_from_grid") == Bool(b)
    ensures AllowExportCommand(rule, values).disallowChargeFromGrid == Bool(b)
    ensures ChargeFromGridCommand(Bool(b), values).disallowChargeFromGrid == Bool(!b)
    ensures AllowExportCommand(rule, values).disallowChargeFromGrid != ChargeFromGridCommand(Bool(b), values).disallowChargeFromGrid
  {
  }

  /** The disallow flag `charge_from_grid` derives from a site report is the
      one the `charge_from_grid` listener sends back, but the
      `allow_export` listener sends its negation. */
  lemma GridChargingRoundTrip(c: Components, values: map<string, Value>)
    requires CapabilityValue(values, "charge_from_grid") == ChargeFromGrid(c)
    ensures ChargeFromGridCommand(ChargeFromGrid(c), values).disallowChargeFromGrid ==
            Bool(Truthy(c.disallow_charge_from_grid_with_solar_installed))
    ensures AllowExportCommand(ExportSetting(c), values).disallowChargeFromGrid ==
            Bool(!Truthy(c.disallow_charge_from_grid_with_solar_installed))
  {
  }

  /** JavaScript's `Number(v)` where it is a finite number: null is 0, a
      boolean 0 or 1; `undefined` (NaN) and strings (parsed) are not modelled. */
  function ToNumber(v: Value): Option<real> {
    match v
    case Null => Some(0.0)
    case Bool(b) => Some(if b then 1.0 else 0.0)
    case Num(n) => Some(n)
    case _ => None
  }

  /** The commands the listeners of the energy-site and battery devices send,
      by capability; None for a capability without a listener. */
  function ListenerCommand(capability: string, value: Value, values: map<string, Value>): Option<Command> {
    if capability == "backup_reserve" then
      (if ToNumber(value).Some? then Some(BackupReserveCommand(ToNumber(value).value)) else None)
    else if capability == "allow_export" then Some(AllowExportCommand(value, values))
    else if capability == "operation_mode" then Some(SetOperationMode(value))
    else if capability == "charge_from_grid" then Some(ChargeFromGridCommand(value, values))
    else if capability == "storm_watch" then Some(SetStormMode(value))
    else None
  }

  /** The five listeners send the five commands: the reserve as a rounded
      percentage of its (numeric) value, the grid settings paired with the
      other grid capability's current value, the mode and storm watch as
      given; no other capability has a listener. */
  lemma ListenerDispatch(capability: string, value: Value, values: map<string, Value>)
    ensures ToNumber(value).Some? ==>
      ListenerCommand("backup_reserve", value, values) == Some(SetBackupReserve(Num(Round(ToNumber(value).value * 100.0) as real)))
    ensures ListenerCommand("allow_export", value, values) == Some(GridImportExport(value, CapabilityValue(values, "charge_from_grid")))
    ensures ListenerCommand("charge_from_grid", value, values) == Some(GridImportExport(CapabilityValue(values, "allow_export"), Not(value)))
    ensures ListenerCommand("operation_mode", value, values) == Some(SetOperationMode(value))
    ensures ListenerCommand("storm_watch", value, values) == Some(SetStormMode(value))
    ensures ListenerCommand(capability, value, values).Some? ==>
      capability in ["backup_reserve", "allow_export", "operation_mode", "charge_from_grid", "storm_watch"]
  {
  }

  /** What the two grid listeners send diverges: with the charging capability
      showing `b`, changing the export rule sends "disallow" as `b`, while
      re-sending `b` on the charging capability sends "disallow" as `!b`. */
  lemma GridListenersDiverge(values: map<string, Value>, b: bool, rule: Value)
    requires CapabilityValue(values, "charge_from_grid") == Bool(b)
    ensures ListenerCommand("allow_export", rule, values) == Some(GridImportExport(rule, Bool(b)))
    ensures ListenerCommand("charge_from_grid", Bool(b), values) ==
      Some(GridImportExport(CapabilityValue(values, "allow_export"), Bool(!b)))
  {
    GridChargingSignDiverges(values, b, rule);
  }

  /** The reserve a site reports as a whole-number percentage, once shown, is
      sent back by the `backup_reserve` listener as that percentage. */
  lemma ReserveListenerRoundTrip(percent: int, values: map<string, Value>)
    ensures ListenerCommand("backup_reserve", ReserveFraction(Some(percent as real)), values) ==
      Some(SetBackupReserve(Num(percent as real)))
  {
    BackupReserveRoundTrip(percent);
  }
}
