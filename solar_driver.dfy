/** The solar driver's pairing list: every site whose site information
    reports the solar component, named "<site> Solar", of class "solarpanel". */
module SolarDriver {
  import opened Wrappers
  import opened Catalog
  import Pairing
  import SiteListing

  const SUFFIX := " Solar"
  const CLASS := "solarpanel"

  /** `onPairListDevices()`, given the awaited `getProducts()` and each
      site's `getSiteInfo()` call. */
  function ListDevices(products: Option<Products>, info: EnergySite -> SiteCall)
    : Result<seq<SiteListing.Entry>, Pairing.Failure>
  {
    SiteListing.ListDevices(SiteListing.SolarComponent, SUFFIX, CLASS, products, info)
  }

  /** Missing products throw the fixed message. A listing is produced exactly
      when every site's call resolves, to a null result or to a response with
      components; it then lists exactly the sites, accessible or not, whose
      components have the solar flag set. */
  lemma ListDevicesEntries(products: Option<Products>, info: EnergySite -> SiteCall, e: SiteListing.Entry)
    ensures products.None? ==> ListDevices(products, info) == Err(Pairing.Thrown(SiteListing.NO_PRODUCTS))
    ensures products.Some? ==>
      (ListDevices(products, info).Ok? <==>
        forall s :: s in products.value.energySites ==>
          info(s).NullResult? || (info(s).Answered? && info(s).response.Some? && info(s).response.value.components.Some?))
    ensures products.Some? && ListDevices(products, info).Ok? ==>
      (e in ListDevices(products, info).value <==>
        exists s :: s in products.value.energySites && info(s).Answered? && info(s).response.Some? &&
          info(s).response.value.components.Some? && info(s).response.value.components.value.solar &&
          e == SiteListing.Entry(s.name + SUFFIX, s.id, CLASS))
  {
    SiteListing.ListDevicesCases(SiteListing.SolarComponent, SUFFIX, CLASS, products, info, e);
    if products.Some? {
      var sites := products.value.energySites;
      SiteListing.EntriesMembers(SiteListing.SolarComponent, SUFFIX, CLASS, sites, info, e);
      if forall s :: s in sites ==>
           info(s).NullResult? || (info(s).Answered? && info(s).response.Some? && info(s).response.value.components.Some?)
      {
        assert forall i :: 0 <= i < |sites| ==> SiteListing.Keep(SiteListing.SolarComponent, info(sites[i])).Ok?;
      }
    }
  }
}
