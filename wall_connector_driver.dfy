/** The wall-connector driver's pairing list: per accessible site, one entry
    per wall connector its site information lists, flattened in site order. */
module WallConnectorDriver {
  import opened Wrappers
  import opened Catalog
  import Pairing

  const NO_PRODUCTS := "Failed to load wall connectors from Teslemetry. Please check your connection and try again."

  /** One pairing entry: its name and its data `{ site, din }`. */
  datatype Entry = Entry(name: string, site: int, din: string)

  /** `siteInfo.response?.components?.wall_connectors ?? []`; a rejected call,
      or reading `response` of a null result, throws. */
  function Connectors(call: SiteCall): Result<seq<WallConnectorInfo>, Pairing.Failure> {
    match call
    case Rejected => Err(Pairing.SiteFailed)
    case NullResult => Err(Pairing.SiteFailed)
    case Answered(r) =>
      if r.Some? && r.value.components.Some? && r.value.components.value.wall_connectors.Some?
      then Ok(r.value.components.value.wall_connectors.value)
      else Ok([])
  }

  /** The entry of one connector of a site. */
  function EntryOf(site: EnergySite, wc: WallConnectorInfo): Entry {
    Entry(site.name + " " + wc.part_name, site.id, wc.din)
  }

  function ConnectorEntries(site: EnergySite, wcs: seq<WallConnectorInfo>): seq<Entry> {
    if wcs == [] then [] else [EntryOf(site, wcs[0])] + ConnectorEntries(site, wcs[1..])
  }

  /** The connector lists the sites' calls give. */
  function ConnectorsOf(info: EnergySite -> SiteCall): EnergySite -> Result<seq<WallConnectorInfo>, Pairing.Failure> {
    site => Connectors(info(site))
  }

  /** The entries of the sites, flattened: `Promise.all`, then `.flat()`. */
  function Entries(sites: seq<EnergySite>, lists: EnergySite -> Result<seq<WallConnectorInfo>, Pairing.Failure>)
    : Result<seq<Entry>, Pairing.Failure>
  {
    if sites == [] then Ok([])
    else
      var here, rest := lists(sites[0]), Entries(sites[1..], lists);
      if here.Err? then Err(here.error)
      else if rest.Err? then Err(rest.error)
      else Ok(ConnectorEntries(sites[0], here.value) + rest.value)
  }

  /** `onPairListDevices()`, given the awaited `getProducts()` and each
      site's `getSiteInfo()` call. */
  function ListDevices(products: Option<Products>, info: EnergySite -> SiteCall): Result<seq<Entry>, Pairing.Failure> {
    if products.None? then Err(Pairing.Thrown(NO_PRODUCTS))
    else Entries(Pairing.Accessible(products.value.energySites), ConnectorsOf(info))
  }

  /** Each connector of the list gives the entry named by the site and its
      part name, with the site's id and its own din, in connector order. */
  lemma {:induction false} ConnectorEntriesPointwise(site: EnergySite, wcs: seq<WallConnectorInfo>)
    ensures |ConnectorEntries(site, wcs)| == |wcs|
    ensures forall i :: 0 <= i < |wcs| ==>
      |ConnectorEntries(site, wcs)| == |wcs| && ConnectorEntries(site, wcs)[i] == EntryOf(site, wcs[i])
  {
    if wcs != [] {
      ConnectorEntriesPointwise(site, wcs[1..]);
      assert forall i :: 0 < i < |wcs| ==> ConnectorEntries(site, wcs)[i] == ConnectorEntries(site, wcs[1..])[i - 1];
    }
  }

  /** The listing fails exactly when a call fails. */
  lemma {:induction false} EntriesOk(sites: seq<EnergySite>, lists: EnergySite -> Result<seq<WallConnectorInfo>, Pairing.Failure>)
    ensures Entries(sites, lists).Ok? <==> forall i :: 0 <= i < |sites| ==> lists(sites[i]).Ok?
  {
    if sites != [] {
      EntriesOk(sites[1..], lists);
      assert forall i :: 0 < i < |sites| ==> sites[1..][i - 1] == sites[i];
    }
  }

  /** A listing holds exactly the entries that describe a connector of one
      of the sites. */
  lemma {:induction false} EntriesMembers(sites: seq<EnergySite>, lists: EnergySite -> Result<seq<WallConnectorInfo>, Pairing.Failure>, e: Entry)
    requires Entries(sites, lists).Ok?
    ensures forall i :: 0 <= i < |sites| ==> lists(sites[i]).Ok?
    ensures e in Entries(sites, lists).value <==>
        exists i, j :: 0 <= i < |sites| && 0 <= j < |lists(sites[i]).value| &&
          e == EntryOf(sites[i], lists(sites[i]).value[j])
  {
    EntriesOk(sites, lists);
    if sites != [] {
      EntriesMembers(sites[1..], lists, e);
      var wcs := lists(sites[0]).value;
      var rest := Entries(sites[1..], lists).value;
      assert Entries(sites, lists).value == ConnectorEntries(sites[0], wcs) + rest;
      ConnectorEntriesPointwise(sites[0], wcs);
      if e in ConnectorEntries(sites[0], wcs) {
        var j :| 0 <= j < |wcs| && ConnectorEntries(sites[0], wcs)[j] == e;
        assert lists(sites[0]).value[j] == wcs[j];
      }
      if e in rest {
        var i, j :| 0 <= i < |sites[1..]| && 0 <= j < |lists(sites[1..][i]).value| &&
          e == EntryOf(sites[1..][i], lists(sites[1..][i]).value[j]);
        assert sites[1..][i] == sites[i + 1];
      }
      if exists i, j :: 0 <= i < |sites| && 0 <= j < |lists(sites[i]).value| &&
           e == EntryOf(sites[i], lists(sites[i]).value[j])
      {
        var i, j :| 0 <= i < |sites| && 0 <= j < |lists(sites[i]).value| &&
          e == EntryOf(sites[i], lists(sites[i]).value[j]);
        if i == 0 {
          assert e == ConnectorEntries(sites[0], wcs)[j];
        } else {
          assert sites[1..][i - 1] == sites[i];
        }
      }
    }
  }

  /** The listing keeps site order: the entries of two runs of sites are
      the entries of the first followed by those of the second. */
  lemma {:induction false} EntriesAppend(a: seq<EnergySite>, b: seq<EnergySite>, lists: EnergySite -> Result<seq<WallConnectorInfo>, Pairing.Failure>)
    requires Entries(a, lists).Ok? && Entries(b, lists).Ok?
    ensures Entries(a + b, lists) == Ok(Entries(a, lists).value + Entries(b, lists).value)
  {
    if a == [] {
      assert a + b == b;
      assert Entries(a, lists).value + Entries(b, lists).value == Entries(b, lists).value;
    } else {
      var ab := a + b;
      assert ab[0] == a[0] && ab[1..] == a[1..] + b;
      EntriesCons(a, lists);
      EntriesAppend(a[1..], b, lists);
      EntriesCons(ab, lists);
      var head := ConnectorEntries(a[0], lists(a[0]).value);
      var ra, rb := Entries(a[1..], lists).value, Entries(b, lists).value;
      assert Entries(ab, lists).value == head + (ra + rb);
      assert Entries(a, lists).value == head + ra;
      assert head + (ra + rb) == (head + ra) + rb;
    }
  }

  /** A listing of sites is that of the first site followed by the rest. */
  lemma EntriesCons(sites: seq<EnergySite>, lists: EnergySite -> Result<seq<WallConnectorInfo>, Pairing.Failure>)
    requires sites != []
    ensures Entries(sites, lists).Ok? <==> lists(sites[0]).Ok? && Entries(sites[1..], lists).Ok?
    ensures Entries(sites, lists).Ok? ==>
      Entries(sites, lists).value == ConnectorEntries(sites[0], lists(sites[0]).value) + Entries(sites[1..], lists).value
  {
  }

  /** A site whose response, components or connector list is missing adds
      no entry. */
  lemma NoConnectorsNoEntries(site: EnergySite, info: EnergySite -> SiteCall, r: Option<SiteInfo>)
    requires info(site) == Answered(r)
    requires r.None? || r.value.components.None? || r.value.components.value.wall_connectors.None?
    ensures Entries([site], ConnectorsOf(info)) == Ok([])
  {
    assert [site][0] == site && [site][1..] == [];
    assert ConnectorsOf(info)(site) == Ok([]);
    assert ConnectorEntries(site, []) + [] == [];
  }

  /** Every accessible site's call succeeds exactly when every call of the
      filtered list does. */
  lemma AccessibleCallsOk(all: seq<EnergySite>, info: EnergySite -> SiteCall)
    ensures var sites := Pairing.Accessible(all);
      (forall i :: 0 <= i < |sites| ==> ConnectorsOf(info)(sites[i]).Ok?) <==>
      (forall s :: s in all && s.metadata.access ==> Connectors(info(s)).Ok?)
  {
    var sites := Pairing.Accessible(all);
    if forall i :: 0 <= i < |sites| ==> ConnectorsOf(info)(sites[i]).Ok? {
      forall s | s in all && s.metadata.access
        ensures Connectors(info(s)).Ok?
      {
        Pairing.AccessibleMembers(all, s);
        var i :| 0 <= i < |sites| && sites[i] == s;
        assert ConnectorsOf(info)(sites[i]).Ok?;
      }
    }
    if forall s :: s in all && s.metadata.access ==> Connectors(info(s)).Ok? {
      forall i | 0 <= i < |sites|
        ensures ConnectorsOf(info)(sites[i]).Ok?
      {
        Pairing.AccessibleMembers(all, sites[i]);
      }
    }
  }

  /** Missing products throw. Otherwise the listing succeeds exactly when
      every accessible site's call does, and then it holds exactly the
      entries of the connectors of the accessible sites. */
  lemma ListDevicesCases(products: Option<Products>, info: EnergySite -> SiteCall, e: Entry)
    ensures products.None? ==> ListDevices(products, info) == Err(Pairing.Thrown(NO_PRODUCTS))
    ensures products.Some? ==>
      (ListDevices(products, info).Ok? <==>
        forall s :: s in products.value.energySites && s.metadata.access ==> Connectors(info(s)).Ok?)
    ensures products.Some? && ListDevices(products, info).Ok? ==>
      (e in ListDevices(products, info).value <==>
        exists s, wc :: s in products.value.energySites && s.metadata.access &&
          Connectors(info(s)).Ok? && wc in Connectors(info(s)).value && e == Entry(s.name + " " + wc.part_name, s.id, wc.din))
  {
    if products.Some? {
      var all := products.value.energySites;
      var sites := Pairing.Accessible(all);
      var lists := ConnectorsOf(info);
      EntriesOk(sites, lists);
      AccessibleCallsOk(all, info);
      if ListDevices(products, info).Ok? {
        EntriesMembers(sites, lists, e);
        if e in ListDevices(products, info).value {
          var i, j :| 0 <= i < |sites| && 0 <= j < |lists(sites[i]).value| &&
            e == EntryOf(sites[i], lists(sites[i]).value[j]);
          assert lists(sites[i]) == Connectors(info(sites[i]));
          Pairing.AccessibleMembers(all, sites[i]);
          assert Connectors(info(sites[i])).value[j] in Connectors(info(sites[i])).value;
        }
        if exists s, wc :: s in all && s.metadata.access &&
             Connectors(info(s)).Ok? && wc in Connectors(info(s)).value && e == Entry(s.name + " " + wc.part_name, s.id, wc.din)
        {
          var s, wc :| s in all && s.metadata.access &&
            Connectors(info(s)).Ok? && wc in Connectors(info(s)).value && e == Entry(s.name + " " + wc.part_name, s.id, wc.din);
          Pairing.AccessibleMembers(all, s);
          var i :| 0 <= i < |sites| && sites[i] == s;
          var j :| 0 <= j < |lists(sites[i]).value| && lists(sites[i]).value[j] == wc;
          assert e == EntryOf(sites[i], lists(sites[i]).value[j]);
        }
      }
    }
  }
}
