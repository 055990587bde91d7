/** The pairing list the battery, solar and gateway drivers build in the
    same way: every site's `getSiteInfo()` is awaited with `Promise.all`, a
    site is mapped to an entry or to null by a per-driver test, and the nulls
    are filtered out. No access filter is applied. */
module SiteListing {
  import opened Wrappers
  import opened Catalog
  import Pairing

  const NO_PRODUCTS := "Failed to load products. Please restart the pairing process"

  /** The per-driver test on a site's call. */
  datatype Test =
    | BatteryComponent  // `if (!siteInfo?.response.components.battery) return null`
    | SolarComponent    // `if (!siteInfo?.response.components.solar) return null`
    | AnyResult         // `if (!siteInfo) return null`

  /** One pairing entry: its name, data `{ id }` and device class. */
  datatype Entry = Entry(name: string, id: int, deviceClass: string)

  /** Whether a site is listed. A null result is skipped by the optional
      chain, but a missing `response` or `components` behind it is read and
      throws, as does a rejected call. */
  function Keep(t: Test, call: SiteCall): Result<bool, Pairing.Failure> {
    match call
    case Rejected => Err(Pairing.SiteFailed)
    case NullResult => Ok(false)
    case Answered(r) =>
      if t == AnyResult then Ok(true)
      else if r.None? || r.value.components.None? then Err(Pairing.SiteFailed)
      else Ok(if t == BatteryComponent then r.value.components.value.battery else r.value.components.value.solar)
  }

  /** The entries of the kept sites, named with `suffix` and of class `cls`. */
  function Entries(t: Test, suffix: string, cls: string, sites: seq<EnergySite>, info: EnergySite -> SiteCall)
    : Result<seq<Entry>, Pairing.Failure>
  {
    if sites == [] then Ok([])
    else
      var here, rest := Keep(t, info(sites[0])), Entries(t, suffix, cls, sites[1..], info);
      if here.Err? then Err(here.error)
      else if rest.Err? then Err(rest.error)
      else Ok((if here.value then [Entry(sites[0].name + suffix, sites[0].id, cls)] else []) + rest.value)
  }

  /** `onPairListDevices()`, given the awaited `getProducts()` and each
      site's `getSiteInfo()` call. */
  function ListDevices(t: Test, suffix: string, cls: string, products: Option<Products>, info: EnergySite -> SiteCall)
    : Result<seq<Entry>, Pairing.Failure>
  {
    if products.None? then Err(Pairing.Thrown(NO_PRODUCTS))
    else Entries(t, suffix, cls, products.value.energySites, info)
  }

  /** The listing fails exactly when one site's test throws; otherwise an
      entry occurs exactly when it is that of a kept site. */
  lemma {:induction false} EntriesMembers(t: Test, suffix: string, cls: string,
                                          sites: seq<EnergySite>, info: EnergySite -> SiteCall, e: Entry)
    ensures Entries(t, suffix, cls, sites, info).Ok? <==> forall i :: 0 <= i < |sites| ==> Keep(t, info(sites[i])).Ok?
    ensures Entries(t, suffix, cls, sites, info).Ok? ==>
      (e in Entries(t, suffix, cls, sites, info).value <==>
        exists i :: 0 <= i < |sites| && Keep(t, info(sites[i])) == Ok(true) &&
          e == Entry(sites[i].name + suffix, sites[i].id, cls))
  {
    if sites != [] {
      EntriesMembers(t, suffix, cls, sites[1..], info, e);
      if Entries(t, suffix, cls, sites, info).Ok? {
        if e in Entries(t, suffix, cls, sites[1..], info).value {
          var i :| 0 <= i < |sites[1..]| && Keep(t, info(sites[1..][i])) == Ok(true) &&
            e == Entry(sites[1..][i].name + suffix, sites[1..][i].id, cls);
          assert sites[1..][i] == sites[i + 1];
        }
        if exists i :: 0 <= i < |sites| && Keep(t, info(sites[i])) == Ok(true) &&
             e == Entry(sites[i].name + suffix, sites[i].id, cls)
        {
          var i :| 0 <= i < |sites| && Keep(t, info(sites[i])) == Ok(true) &&
            e == Entry(sites[i].name + suffix, sites[i].id, cls);
          if i > 0 {
            assert sites[1..][i - 1] == sites[i];
          }
        }
      }
    }
  }

  /** Site order is kept: the entries of two runs of sites are those of the
      first followed by those of the second. */
  lemma {:induction false} EntriesAppend(t: Test, suffix: string, cls: string,
                                         a: seq<EnergySite>, b: seq<EnergySite>, info: EnergySite -> SiteCall)
    requires Entries(t, suffix, cls, a, info).Ok? && Entries(t, suffix, cls, b, info).Ok?
    ensures Entries(t, suffix, cls, a + b, info) ==
            Ok(Entries(t, suffix, cls, a, info).value + Entries(t, suffix, cls, b, info).value)
  {
    if a == [] {
      assert a + b == b;
      assert Entries(t, suffix, cls, a, info).value + Entries(t, suffix, cls, b, info).value ==
             Entries(t, suffix, cls, b, info).value;
    } else {
      var head: seq<Entry> := if Keep(t, info(a[0])).value then [Entry(a[0].name + suffix, a[0].id, cls)] else [];
      assert (a + b)[0] == a[0] && (a + b)[1..] == a[1..] + b;
      EntriesAppend(t, suffix, cls, a[1..], b, info);
      assert Entries(t, suffix, cls, a + b, info) ==
             Ok(head + Entries(t, suffix, cls, a[1..] + b, info).value);
      assert Entries(t, suffix, cls, a, info) == Ok(head + Entries(t, suffix, cls, a[1..], info).value);
      assert head + (Entries(t, suffix, cls, a[1..], info).value + Entries(t, suffix, cls, b, info).value) ==
             (head + Entries(t, suffix, cls, a[1..], info).value) + Entries(t, suffix, cls, b, info).value;
    }
  }

  /** Missing products throw; otherwise every site of the catalog is
      tested, accessible or not. */
  lemma ListDevicesCases(t: Test, suffix: string, cls: string, products: Option<Products>,
                         info: EnergySite -> SiteCall, e: Entry)
    ensures products.None? ==> ListDevices(t, suffix, cls, products, info) == Err(Pairing.Thrown(NO_PRODUCTS))
    ensures products.Some? && ListDevices(t, suffix, cls, products, info).Ok? ==>
      (e in ListDevices(t, suffix, cls, products, info).value <==>
        exists s :: s in products.value.energySites && Keep(t, info(s)) == Ok(true) &&
          e == Entry(s.name + suffix, s.id, cls))
  {
    if products.Some? {
      var sites := products.value.energySites;
      EntriesMembers(t, suffix, cls, sites, info, e);
      if exists s :: s in sites && Keep(t, info(s)) == Ok(true) && e == Entry(s.name + suffix, s.id, cls) {
        var s :| s in sites && Keep(t, info(s)) == Ok(true) && e == Entry(s.name + suffix, s.id, cls);
        var i :| 0 <= i < |sites| && sites[i] == s;
      }
    }
  }
}
