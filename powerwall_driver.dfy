/** The powerwall driver's pairing list: one entry per accessible site, with
    no site information requested. */
module PowerwallDriver {
  import opened Wrappers
  import opened Catalog
  import Pairing

  const NOT_CONFIGURED := "App not configured - please set up your Teslemetry access token in app settings"
  const NO_PRODUCTS := "Failed to load energy sites - check your access token in app settings"

  /** One pairing entry: its name, data `{ id }` and `energy.batteries`. */
  datatype Entry = Entry(name: string, id: int, batteries: seq<string>)

  function Entries(sites: seq<EnergySite>): (r: seq<Entry>)
    ensures |r| == |sites|
  {
    if sites == [] then [] else [Entry(sites[0].name, sites[0].id, [])] + Entries(sites[1..])
  }

  /** `onPairListDevices()`, given `isConfigured()` and the awaited `getProducts()`. */
  function ListDevices(configured: bool, products: Option<Products>): Result<seq<Entry>, Pairing.Failure> {
    if !configured then Err(Pairing.Thrown(NOT_CONFIGURED))
    else if products.None? then Err(Pairing.Thrown(NO_PRODUCTS))
    else Ok(Entries(Pairing.Accessible(products.value.energySites)))
  }

  lemma {:induction false} EntriesPointwise(sites: seq<EnergySite>)
    ensures forall i :: 0 <= i < |sites| ==> Entries(sites)[i] == Entry(sites[i].name, sites[i].id, [])
  {
    if sites != [] {
      EntriesPointwise(sites[1..]);
      assert forall i :: 0 < i < |sites| ==> Entries(sites)[i] == Entries(sites[1..])[i - 1];
    }
  }

  /** Not configured, or configured without products, throws with the
      message for that case; otherwise the accessible sites are listed in
      catalog order, each with its name and id and no batteries. */
  lemma ListDevicesEntries(configured: bool, products: Option<Products>)
    ensures !configured ==> ListDevices(configured, products) == Err(Pairing.Thrown(NOT_CONFIGURED))
    ensures configured && products.None? ==> ListDevices(configured, products) == Err(Pairing.Thrown(NO_PRODUCTS))
    ensures configured && products.Some? ==>
      var sites := Pairing.Accessible(products.value.energySites);
      && ListDevices(configured, products).Ok?
      && |ListDevices(configured, products).value| == |sites|
      && forall i :: 0 <= i < |sites| ==>
           ListDevices(configured, products).value[i] == Entry(sites[i].name, sites[i].id, [])
  {
    if configured && products.Some? {
      EntriesPointwise(Pairing.Accessible(products.value.energySites));
    }
  }
}
