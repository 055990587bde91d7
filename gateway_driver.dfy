/** The gateway driver's pairing list: every site whose `getSiteInfo()`
    result is not null, named "<site> Gateway", of class "sensor". */
module GatewayDriver {
  import opened Wrappers
  import opened Catalog
  import Pairing
  import SiteListing

  const SUFFIX := " Gateway"
  const CLASS := "sensor"

  /** `onPairListDevices()`, given the awaited `getProducts()` and each
      site's `getSiteInfo()` call. */
  function ListDevices(products: Option<Products>, info: EnergySite -> SiteCall)
    : Result<seq<SiteListing.Entry>, Pairing.Failure>
  {
    SiteListing.ListDevices(SiteListing.AnyResult, SUFFIX, CLASS, products, info)
  }

  /** Missing products throw the fixed message. A listing is produced exactly
      when no call rejects; it then lists exactly the sites, with no
      component or access check, whose result is not null. */
  lemma ListDevicesEntries(products: Option<Products>, info: EnergySite -> SiteCall, e: SiteListing.Entry)
    ensures products.None? ==> ListDevices(products, info) == Err(Pairing.Thrown(SiteListing.NO_PRODUCTS))
    ensures products.Some? ==>
      (ListDevices(products, info).Ok? <==> forall s :: s in products.value.energySites ==> !info(s).Rejected?)
    ensures products.Some? && ListDevices(products, info).Ok? ==>
      (e in ListDevices(products, info).value <==>
        exists s :: s in products.value.energySites && info(s).Answered? &&
          e == SiteListing.Entry(s.name + SUFFIX, s.id, CLASS))
  {
    SiteListing.ListDevicesCases(SiteListing.AnyResult, SUFFIX, CLASS, products, info, e);
    if products.Some? {
      var sites := products.value.energySites;
      SiteListing.EntriesMembers(SiteListing.AnyResult, SUFFIX, CLASS, sites, info, e);
      if forall s :: s in sites ==> !info(s).Rejected? {
        assert forall i :: 0 <= i < |sites| ==> SiteListing.Keep(SiteListing.AnyResult, info(sites[i])).Ok?;
      }
    }
  }
}
