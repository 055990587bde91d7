/** The energy-site driver's pairing list: one entry per accessible site,
    with a device class and capability groups chosen by the components its
    site information reports. The driver adds each group ARRAY, not its
    elements, to a set, so an entry's capabilities are the selected group
    tables themselves, in the order solar, battery, grid, load meter. */
module EnergySiteDriver {
  import opened Wrappers
  import opened Catalog
  import Capabilities
  import Pairing

  const BATTERY_CAPABILITIES: seq<string> := [
    "measure_battery", "backup_reserve", "measure_energy_left", "measure_vpp_backup_reserve",
    "storm_watch", "storm_watch_active", "charge_from_grid", "measure_power", "allow_export",
    "operation_mode"]
  const SOLAR_CAPABILITIES: seq<string> := [
    "measure_solar_generated", "measure_power_solar", "measure_generator_exported",
    "allow_export", "measure_power"]
  const GRID_CAPABILITIES: seq<string> := [
    "grid_status", "measure_grid_exported", "measure_power_grid",
    "measure_grid_services_power", "measure_island_status"]
  const LOAD_METER_CAPABILITIES: seq<string> := ["measure_home_usage", "measure_load_power"]

  const NOT_CONFIGURED := "App not configured - please set up your Teslemetry access token in app settings"
  const NO_PRODUCTS := "Failed to load energy sites - check your access token in app settings"

  /** One pairing entry. */
  datatype Entry = Entry(name: string, id: int, capabilities: seq<seq<string>>, deviceClass: string, homeBattery: bool)

  /** The groups a site's components select, in insertion order. */
  function Groups(c: Components): seq<seq<string>> {
    Capabilities.Opt(c.solar, SOLAR_CAPABILITIES) + Capabilities.Opt(c.battery, BATTERY_CAPABILITIES) +
    Capabilities.Opt(c.grid, GRID_CAPABILITIES) + Capabilities.Opt(c.load_meter, LOAD_METER_CAPABILITIES)
  }

  function DeviceClass(c: Components): string {
    if c.battery then "battery" else if c.solar then "solar" else "other"
  }

  /** The components read from `(await site.api.getSiteInfo()).response`; a
      null result, a missing response or missing components throw. */
  function ComponentsOf(call: SiteCall): Result<Components, Pairing.Failure> {
    match call
    case Answered(Some(info)) => if info.components.Some? then Ok(info.components.value) else Err(Pairing.SiteFailed)
    case _ => Err(Pairing.SiteFailed)
  }

  /** The entry mapped from one site. */
  function SiteEntry(site: EnergySite, call: SiteCall): Result<Entry, Pairing.Failure> {
    match ComponentsOf(call)
    case Err(e) => Err(e)
    case Ok(c) => Ok(Entry(site.name, site.id, Groups(c), DeviceClass(c), c.battery))
  }

  /** `Promise.all` over the mapped sites. */
  function Entries(sites: seq<EnergySite>, info: EnergySite -> SiteCall): Result<seq<Entry>, Pairing.Failure> {
    if sites == [] then Ok([])
    else
      var here, rest := SiteEntry(sites[0], info(sites[0])), Entries(sites[1..], info);
      if here.Err? then Err(here.error)
      else if rest.Err? then Err(rest.error)
      else Ok([here.value] + rest.value)
  }

  /** `onPairListDevices()`, given `isConfigured()`, the awaited
      `getProducts()` and each site's `getSiteInfo()` call. */
  function ListDevices(configured: bool, products: Option<Products>, info: EnergySite -> SiteCall)
    : Result<seq<Entry>, Pairing.Failure>
  {
    if !configured then Err(Pairing.Thrown(NOT_CONFIGURED))
    else if products.None? then Err(Pairing.Thrown(NO_PRODUCTS))
    else Entries(Pairing.Accessible(products.value.energySites), info)
  }

  /** `entries` has one entry per site, in order, named and identified by
      its site, with the groups, class and battery flag of its components. */
  predicate Describes(sites: seq<EnergySite>, info: EnergySite -> SiteCall, entries: seq<Entry>) {
    && |entries| == |sites|
    && forall i :: 0 <= i < |sites| ==>
         ComponentsOf(info(sites[i])).Ok? &&
         var c := ComponentsOf(info(sites[i])).value;
         entries[i] == Entry(sites[i].name, sites[i].id, Groups(c), DeviceClass(c), c.battery)
  }

  /** The listing fails exactly when one of the sites fails, and otherwise
      describes the sites. */
  lemma {:induction false} EntriesPointwise(sites: seq<EnergySite>, info: EnergySite -> SiteCall)
    ensures Entries(sites, info).Ok? <==> forall i :: 0 <= i < |sites| ==> ComponentsOf(info(sites[i])).Ok?
    ensures Entries(sites, info).Ok? ==> Describes(sites, info, Entries(sites, info).value)
  {
    if sites != [] {
      EntriesPointwise(sites[1..], info);
      assert forall i :: 0 < i < |sites| ==> sites[1..][i - 1] == sites[i];
      if Entries(sites, info).Ok? {
        forall i | 0 < i < |sites|
          ensures Entries(sites, info).value[i] == Entries(sites[1..], info).value[i - 1]
        {
        }
      }
    }
  }

  /** The two guards, with their messages. */
  lemma ListDevicesGuards(configured: bool, products: Option<Products>, info: EnergySite -> SiteCall)
    ensures !configured ==> ListDevices(configured, products, info) == Err(Pairing.Thrown(NOT_CONFIGURED))
    ensures configured && products.None? ==> ListDevices(configured, products, info) == Err(Pairing.Thrown(NO_PRODUCTS))
    ensures ListDevices(configured, products, info).Ok? ==> configured && products.Some?
  {
  }

  /** A listing is produced exactly when every accessible site reports its
      components, and it then describes the accessible sites. */
  lemma ListDevicesEntries(products: Products, info: EnergySite -> SiteCall)
    ensures ListDevices(true, Some(products), info).Ok? <==>
      forall s :: s in Pairing.Accessible(products.energySites) ==> ComponentsOf(info(s)).Ok?
    ensures ListDevices(true, Some(products), info).Ok? ==>
      Describes(Pairing.Accessible(products.energySites), info, ListDevices(true, Some(products), info).value)
  {
    var sites := Pairing.Accessible(products.energySites);
    assert ListDevices(true, Some(products), info) == Entries(sites, info);
    EntriesPointwise(sites, info);
    if forall s :: s in sites ==> ComponentsOf(info(s)).Ok? {
      assert forall i :: 0 <= i < |sites| ==> ComponentsOf(info(sites[i])).Ok?;
    }
  }

  /** Battery wins over solar, and a site with neither is "other". */
  lemma DeviceClassCases(c: Components)
    ensures DeviceClass(c) == "battery" <==> c.battery
    ensures DeviceClass(c) == "solar" <==> c.solar && !c.battery
    ensures DeviceClass(c) == "other" <==> !c.solar && !c.battery
  {
  }

  /** One group per set flag among solar, battery, grid and load meter, each
      one of the four tables. */
  lemma GroupsCount(c: Components)
    ensures |Groups(c)| == (if c.solar then 1 else 0) + (if c.battery then 1 else 0)
                          + (if c.grid then 1 else 0) + (if c.load_meter then 1 else 0)
    ensures forall g :: g in Groups(c) ==>
      g == SOLAR_CAPABILITIES || g == BATTERY_CAPABILITIES || g == GRID_CAPABILITIES || g == LOAD_METER_CAPABILITIES
    ensures c.solar ==> Groups(c)[0] == SOLAR_CAPABILITIES
  {
  }

  /** The pairing tables are not the tables the device reconciles against:
      each of the four groups differs, with names only one side knows. */
  lemma GroupTablesDiverge()
    ensures SOLAR_CAPABILITIES != Capabilities.SOLAR
    ensures BATTERY_CAPABILITIES != Capabilities.BATTERY
    ensures GRID_CAPABILITIES != Capabilities.GRID
    ensures LOAD_METER_CAPABILITIES != Capabilities.LOAD_METER
    ensures "measure_power_battery" in Capabilities.BATTERY && "measure_power_battery" !in BATTERY_CAPABILITIES
    ensures "grid_status" in GRID_CAPABILITIES && "grid_status" !in Capabilities.GRID
    ensures "alarm_off_grid" in Capabilities.GRID && "alarm_off_grid" !in GRID_CAPABILITIES
  {
    assert |SOLAR_CAPABILITIES| != |Capabilities.SOLAR|;
    assert |BATTERY_CAPABILITIES| != |Capabilities.BATTERY|;
    assert |GRID_CAPABILITIES| != |Capabilities.GRID|;
    assert |LOAD_METER_CAPABILITIES| != |Capabilities.LOAD_METER|;
    assert Capabilities.BATTERY[1] == "measure_power_battery";
    assert GRID_CAPABILITIES[0] == "grid_status";
    assert Capabilities.GRID[0] == "alarm_off_grid";
  }

  /** A name only the pairing tables hold is never desired by the device, so
      its reconciliation removes it. */
  lemma PairingOnlyNamesNotDesired(c: Components)
    ensures "grid_status" !in Capabilities.Desired(c)
    ensures "measure_home_usage" !in Capabilities.Desired(c)
  {
    NotExposable("grid_status");
    NotExposable("measure_home_usage");
    Capabilities.DesiredMembers(c, "grid_status");
    Capabilities.DesiredMembers(c, "measure_home_usage");
  }

  lemma NotExposable(x: string)
    requires x == "grid_status" || x == "measure_home_usage"
    ensures !Capabilities.Exposable(x)
  {
    assert |x| == 11 || |x| == 18;
  }
}
