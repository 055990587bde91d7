/** The battery driver's pairing list: every site whose site information
    reports the battery component, named "<site> Powerwall", of class "battery". */
module BatteryDriver {
  import opened Wrappers
  import opened Catalog
  import Pairing
  import SiteListing

  const SUFFIX := " Powerwall"
  const CLASS := "battery"

  /** `onPairListDevices()`, given the awaited `getProducts()` and each
      site's `getSiteInfo()` call. */
  function ListDevices(products: Option<Products>, info: EnergySite -> SiteCall)
    : Result<seq<SiteListing.Entry>, Pairing.Failure>
  {
    SiteListing.ListDevices(SiteListing.BatteryComponent, SUFFIX, CLASS, products, info)
  }

  /** Missing products throw the fixed message. A listing is produced exactly
      when every site's call resolves, to a null result or to a response with
      components; it then lists exactly the sites, accessible or not, whose
      components have the battery flag set. */
  lemma ListDevicesEntries(products: Option<Products>, info: EnergySite -> SiteCall, e: SiteListing.Entry)
    ensures products.None? ==> ListDevices(products, info) == Err(Pairing.Thrown(SiteListing.NO_PRODUCTS))
    ensures products.Some? ==>
      (ListDevices(products, info).Ok? <==>
        forall s :: s in products.value.energySites ==>
          info(s).NullResult? || (info(s).Answered? && info(s).response.Some? && info(s).response.value.components.Some?))
    ensures products.Some? && ListDevices(products, info).Ok? ==>
      (e in ListDevices(products, info).value <==>
        exists s :: s in products.value.energySites && info(s).Answered? && info(s).response.Some? &&
          info(s).response.value.components.Some? && info(s).response.value.components.value.battery &&
          e == SiteListing.Entry(s.name + SUFFIX, s.id, CLASS))
  {
    SiteListing.ListDevicesCases(SiteListing.BatteryComponent, SUFFIX, CLASS, products, info, e);
    if products.Some? {
      var sites := products.value.energySites;
      SiteListing.EntriesMembers(SiteListing.BatteryComponent, SUFFIX, CLASS, sites, info, e);
      if forall s :: s in sites ==>
           info(s).NullResult? || (info(s).Answered? && info(s).response.Some? && info(s).response.value.components.Some?)
      {
        assert forall i :: 0 <= i < |sites| ==> SiteListing.Keep(SiteListing.BatteryComponent, info(sites[i])).Ok?;
      }
    }
  }
}
