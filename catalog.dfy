/** The shapes of what the vendor SDK hands the adapter: the product catalog
    (`createProducts`), and the site-info, live-status and history responses
    the energy-site API emits. Only the fields the core reads are kept. A field
    the code tests with `?.` or `!== undefined` is an Option. */
module Catalog {
  import opened Wrappers
  import opened Values

  datatype SiteMetadata = SiteMetadata(access: bool)
  datatype EnergySite = EnergySite(id: int, name: string, metadata: SiteMetadata)

  datatype VehicleMetadata = VehicleMetadata(fleet_telemetry: bool)
  datatype Vehicle = Vehicle(vin: string, name: string, metadata: VehicleMetadata)

  /** `products.vehicles` and `products.energySites` are records keyed by VIN and
      by site id; they are held here in `Object.values` order. */
  datatype Products = Products(vehicles: seq<Vehicle>, energySites: seq<EnergySite>)

  /** A keyed read of a catalog record, `record[k]`, over the record's values:
      the first one whose key is `k`. */
  function Find<T, K(==)>(xs: seq<T>, key: T -> K, k: K): (r: Option<T>)
    ensures r.Some? ==> r.value in xs && key(r.value) == k
    ensures r.None? ==> forall i :: 0 <= i < |xs| ==> key(xs[i]) != k
  {
    if xs == [] then None
    else if key(xs[0]) == k then Some(xs[0])
    else Find(xs[1..], key, k)
  }

  /** `products?.energySites?.[id]`: the site a device binds to in `onInit`;
      without it `onInit` returns before any polling or handler is set up. */
  function SiteOf(products: Option<Products>, id: int): (r: Option<EnergySite>)
    ensures r.Some? ==> products.Some? && r.value in products.value.energySites && r.value.id == id
    ensures r.None? <==> products.None? || forall i :: 0 <= i < |products.value.energySites| ==> products.value.energySites[i].id != id
  {
    if products.None? then None else Find(products.value.energySites, (s: EnergySite) => s.id, id)
  }

  /** `products?.vehicles?.[vin]`: the vehicle a vehicle device binds to. */
  function VehicleOf(products: Option<Products>, vin: string): (r: Option<Vehicle>)
    ensures r.Some? ==> products.Some? && r.value in products.value.vehicles && r.value.vin == vin
    ensures r.None? <==> products.None? || forall i :: 0 <= i < |products.value.vehicles| ==> products.value.vehicles[i].vin != vin
  {
    if products.None? then None else Find(products.value.vehicles, (v: Vehicle) => v.vin, vin)
  }

  datatype WallConnectorInfo = WallConnectorInfo(din: string, part_name: string)

  /** `siteInfo.components`. The product flags are read for truthiness only; the
      three loosely typed fields keep their JavaScript value. */
  datatype Components = Components(
    solar: bool,
    battery: bool,
    storm_mode_capable: bool,
    backup: bool,
    grid: bool,
    load_meter: bool,
    customer_preferred_export_rule: Value,
    non_export_configured: Value,
    disallow_charge_from_grid_with_solar_installed: Value,
    wall_connectors: Option<seq<WallConnectorInfo>>)

  datatype UserSettings = UserSettings(storm_mode_enabled: Option<bool>)

  /** `getSiteInfo().response` */
  datatype SiteInfo = SiteInfo(
    components: Option<Components>,
    user_settings: Option<UserSettings>,
    backup_reserve_percent: Option<real>,
    default_real_mode: Option<string>,
    version: Option<string>,
    off_grid_vehicle_charging_reserve_percent: Option<real>,
    backup_capable: Option<bool>,
    grid_services_enabled: Option<bool>,
    vpp_backup_reserve_percent: Option<real>)

  /** One awaited `site.api.getSiteInfo()` during pairing: it rejects, it
      resolves to a null result, or it resolves to a result whose `response`
      may be missing. */
  datatype SiteCall = Rejected | NullResult | Answered(response: Option<SiteInfo>)

  datatype WallConnectorStatus = WallConnectorStatus(
    din: string,
    wall_connector_power: Option<real>,
    wall_connector_state: Option<int>,
    vin: Option<string>)

  /** `liveStatus.response` */
  datatype LiveStatus = LiveStatus(
    percentage_charged: Option<real>,
    battery_power: Option<real>,
    solar_power: Option<real>,
    grid_power: Option<real>,
    load_power: Option<real>,
    grid_status: Option<string>,
    island_status: Option<string>,
    storm_mode_active: Option<bool>,
    energy_left: Option<real>,
    grid_services_power: Option<real>,
    generator_power: Option<real>,
    grid_services_active: Option<bool>,
    wall_connectors: Option<seq<WallConnectorStatus>>)

  /** One element of `time_series` in a history response; a field that is
      `undefined` or `null` is `None`. */
  datatype HistoryEvent = HistoryEvent(
    energy_added_wh: Option<real>,
    grid_energy_imported: Option<real>,
    total_grid_energy_exported: Option<real>,
    total_solar_generation: Option<real>,
    total_battery_charge: Option<real>,
    total_battery_discharge: Option<real>)
}
