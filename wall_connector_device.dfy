/** The wall-connector device: the connector with the device's DIN in the
    site's live status gives the power, the charging state and the connected
    vehicle; the charge history gives the delivered-energy meter. */
module WallConnectorDevice {
  import opened Wrappers
  import opened Values
  import opened Catalog
  import opened Device
  import opened History

  /** `mapWallConnectorState(state)`; a missing state takes the default branch. */
  function MapWallConnectorState(state: Option<int>): string {
    if state == Some(1) then "plugged_in_charging"
    else if state == Some(2) then "plugged_out"
    else if state == Some(3) then "plugged_in"
    else if state == Some(4) then "plugged_in_paused"
    else "plugged_out"
  }

  /** The four known states map one to one onto the charging states, and
      every other state reads as unplugged. */
  lemma MapWallConnectorStateCases(state: Option<int>)
    ensures MapWallConnectorState(state) == "plugged_in_charging" <==> state == Some(1)
    ensures MapWallConnectorState(state) == "plugged_in" <==> state == Some(3)
    ensures MapWallConnectorState(state) == "plugged_in_paused" <==> state == Some(4)
    ensures MapWallConnectorState(state) == "plugged_out" <==> state != Some(1) && state != Some(3) && state != Some(4)
  {
  }

  /** `findVin(vin)`: "disconnected" without a VIN, else the name of the
      catalog vehicle with that VIN, else the VIN itself. */
  function FindVin(products: Option<Products>, vin: Option<string>): string {
    if vin.None? || vin.value == "" then "disconnected"
    else
      match VehicleOf(products, vin.value)
      case Some(v) => v.name
      case None => vin.value
  }

  lemma FindVinCases(products: Option<Products>, vin: Option<string>)
    ensures vin.None? || vin == Some("") ==> FindVin(products, vin) == "disconnected"
    ensures vin.Some? && vin.value != "" && VehicleOf(products, vin.value).Some? ==>
      FindVin(products, vin) == VehicleOf(products, vin.value).value.name
    ensures vin.Some? && vin.value != "" && VehicleOf(products, vin.value).None? ==>
      FindVin(products, vin) == vin.value
  {
  }

  /** `wall_connectors.find(({ din }) => this.din === din)` */
  function FindConnector(wcs: seq<WallConnectorStatus>, din: string): (r: Option<nat>)
    ensures r.Some? ==> r.value < |wcs| && wcs[r.value].din == din && forall j :: 0 <= j < r.value ==> wcs[j].din != din
    ensures r.None? ==> forall j :: 0 <= j < |wcs| ==> wcs[j].din != din
  {
    if wcs == [] then None
    else if wcs[0].din == din then Some(0)
    else
      match FindConnector(wcs[1..], din)
      case Some(k) => Some(k + 1)
      case None => None
  }

  /** The updates of the `liveStatus` handler for the device with DIN `din`:
      none without a response or without a connector of that DIN. */
  function LiveStatusUpdates(products: Option<Products>, din: string, response: Option<LiveStatus>): seq<Update> {
    if response.None? || response.value.wall_connectors.None? then []
    else
      var wcs := response.value.wall_connectors.value;
      match FindConnector(wcs, din)
      case None => []
      case Some(k) =>
        var data := wcs[k];
        [ Update("measure_power", Literal(OfNum(data.wall_connector_power))),
          Update("evcharger_charging_state", Literal(Str(MapWallConnectorState(data.wall_connector_state)))),
          Update("connected_vehicle", Literal(Str(FindVin(products, data.vin)))) ]
  }

  /** The handler reads the first connector with the device's DIN, and no
      other; with no such connector it makes no update. */
  lemma LiveStatusUsesFirstMatch(products: Option<Products>, din: string, d: LiveStatus, k: nat)
    requires d.wall_connectors.Some? && k < |d.wall_connectors.value|
    requires d.wall_connectors.value[k].din == din
    requires forall j :: 0 <= j < k ==> d.wall_connectors.value[j].din != din
    ensures var data := d.wall_connectors.value[k];
      LiveStatusUpdates(products, din, Some(d)) ==
        [ Update("measure_power", Literal(OfNum(data.wall_connector_power))),
          Update("evcharger_charging_state", Literal(Str(MapWallConnectorState(data.wall_connector_state)))),
          Update("connected_vehicle", Literal(Str(FindVin(products, data.vin)))) ]
  {
    assert FindConnector(d.wall_connectors.value, din) == Some(k);
  }

  lemma NoMatchNoUpdates(products: Option<Products>, din: string, d: LiveStatus)
    requires d.wall_connectors.Some?
    requires forall j :: 0 <= j < |d.wall_connectors.value| ==> d.wall_connectors.value[j].din != din
    ensures LiveStatusUpdates(products, din, Some(d)) == []
  {
    assert FindConnector(d.wall_connectors.value, din).None?;
  }

  /** The updates of the `chargeHistory` handler: none for a missing or empty
      series; otherwise the meter is written in kWh from the null-start total. */
  function ChargeHistoryUpdates(series: Option<seq<HistoryEvent>>): seq<Update> {
    if series.None? || series.value == [] then []
    else KWhMeter("meter_power", NullStartTotal(Readings(series.value, EnergyAdded)))
  }

  /** The `chargeHistory` handler. */
  method ChargeHistory(series: Option<seq<HistoryEvent>>) returns (us: seq<Update>)
    ensures us == ChargeHistoryUpdates(series)
  {
    if series.None? || |series.value| == 0 {
      return [];
    }
    var charged := Charged(series.value);
    us := [];
    if charged.Some? {
      us := [Update("meter_power", Literal(Num(charged.value / 1000.0)))];
    }
  }

  /** The loop over `time_series`, with `charged` starting at null. */
  method Charged(ts: seq<HistoryEvent>) returns (charged: Option<real>)
    ensures charged == NullStartTotal(Readings(ts, EnergyAdded))
  {
    charged := None;
    var i := 0;
    while i < |ts|
      invariant 0 <= i <= |ts|
      invariant charged == NullStartTotal(Readings(ts[..i], EnergyAdded))
    {
      NullStartStep(ts, i, EnergyAdded);
      if ts[i].energy_added_wh.Some? {
        charged := Some(charged.GetOr(0.0) + ts[i].energy_added_wh.value);
      }
      i := i + 1;
    }
    assert ts[..i] == ts;
  }

  /** The meter is written exactly when some event reports energy added,
      with the sum of the reported values in kWh. */
  lemma ChargeHistoryIsSumOfReadings(ts: seq<HistoryEvent>)
    requires ts != []
    ensures ChargeHistoryUpdates(Some(ts)) == KWhMeter("meter_power", SumOfPresent(ts, EnergyAdded))
  {
    NullStartIsSumOfReadings(ts, EnergyAdded);
  }
}
