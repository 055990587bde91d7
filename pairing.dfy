/** What the pairing-list drivers share: how a listing fails, and the access
    filter over the catalog's energy sites. */
module Pairing {
  import opened Wrappers
  import opened Catalog

  /** Why a pairing list is not produced: an error a driver throws with its
      own message, or a failure while handling one site's `getSiteInfo()`
      call (the call rejects, or a field of a missing value is read), which
      `Promise.all` passes on. */
  datatype Failure = Thrown(message: string) | SiteFailed

  /** `.filter(({ metadata }) => metadata.access)`, read for truthiness. */
  function Accessible(sites: seq<EnergySite>): seq<EnergySite> {
    if sites == [] then []
    else (if sites[0].metadata.access then [sites[0]] else []) + Accessible(sites[1..])
  }

  /** The filter keeps exactly the accessible sites. */
  lemma {:induction false} AccessibleMembers(sites: seq<EnergySite>, s: EnergySite)
    ensures s in Accessible(sites) <==> s in sites && s.metadata.access
  {
    if sites != [] {
      AccessibleMembers(sites[1..], s);
      assert sites == [sites[0]] + sites[1..];
    }
  }

  /** The filter keeps the catalog order. */
  lemma {:induction false} AccessibleAppend(a: seq<EnergySite>, b: seq<EnergySite>)
    ensures Accessible(a + b) == Accessible(a) + Accessible(b)
  {
    if a == [] {
      assert a + b == b;
    } else {
      var head := if a[0].metadata.access then [a[0]] else [];
      assert (a + b)[0] == a[0] && (a + b)[1..] == a[1..] + b;
      assert Accessible(a + b) == head + Accessible(a[1..] + b);
      AccessibleAppend(a[1..], b);
      assert head + (Accessible(a[1..]) + Accessible(b)) == (head + Accessible(a[1..])) + Accessible(b);
    }
  }

  /** With every site accessible nothing is dropped. */
  lemma {:induction false} AccessibleAll(sites: seq<EnergySite>)
    requires forall i :: 0 <= i < |sites| ==> sites[i].metadata.access
    ensures Accessible(sites) == sites
  {
    if sites != [] {
      AccessibleAll(sites[1..]);
    }
  }
}
