/** The connection lifecycle of the app: the shared SDK client, its product
    catalog, and the reinitialization slot. The SDK is an outcome: whether its
    constructor throws, and what `createProducts()` resolves to (None when it
    rejects). `initializeTeslemetry` awaits `createProducts()`, so it is split
    at that await into BeginInitialize and CompleteInitialize, with `loading`
    true in between; InitializeTeslemetry runs both. */
module App {
  import opened Wrappers
  import opened Catalog
  import OAuth

  /** An SDK client, by identity: the n-th one the app constructed. */
  datatype Client = Client(id: nat)

  /** What the SDK does during one initialization. */
  datatype SdkOutcome = ConstructorThrows | CatalogRejects | CatalogLoads(products: Products)

  class TeslemetryApp {
    const oauth: OAuth.TokenManager
    /** `this.teslemetry` */
    var teslemetry: Option<Client>
    /** `this.products` */
    var products: Option<Products>
    /** A `createProducts()` call is awaited. */
    var loading: bool
    /** `this.initializationPromise` is set. */
    var initializing: bool
    /** The clients whose event stream was closed, in order. */
    var closed: seq<Client>
    /** How many clients were constructed. */
    var built: nat

    /** A catalog is held only with its client; a client is held without a
        catalog only while that catalog is being fetched. */
    predicate Valid()
      reads this
    {
      && (products.Some? ==> teslemetry.Some? && !loading)
      && (loading ==> teslemetry.Some?)
      && (teslemetry.Some? && !loading ==> products.Some?)
      && (teslemetry.Some? ==> teslemetry.value.id < built)
    }

    constructor (oauth: OAuth.TokenManager)
      ensures this.oauth == oauth && Valid()
      ensures teslemetry.None? && products.None? && !loading && !initializing
      ensures closed == [] && built == 0
    {
      this.oauth := oauth;
      teslemetry := None;
      products := None;
      loading := false;
      initializing := false;
      closed := [];
      built := 0;
    }

    /** `isConfigured()` */
    predicate IsConfigured(now: int)
      reads this, oauth
    {
      oauth.HasValidToken(now) && teslemetry.Some? && products.Some?
    }

    /** `initializeTeslemetry()` up to its await: without a valid token, or with
        a client already held, nothing happens; otherwise a client is
        constructed and its catalog requested. */
    method BeginInitialize(now: int, constructorThrows: bool) returns (started: bool)
      requires Valid()
      modifies this
      ensures Valid()
      ensures started <==> oauth.HasValidToken(now) && old(teslemetry).None? && !constructorThrows
      ensures !oauth.HasValidToken(now) || old(teslemetry).Some? ==> unchanged(this)
      ensures oauth.HasValidToken(now) && old(teslemetry).None? && constructorThrows ==>
        teslemetry.None? && products.None? && !loading && built == old(built)
      ensures started ==> teslemetry == Some(Client(old(built))) && products.None? && loading && built == old(built) + 1
      ensures initializing == old(initializing) && closed == old(closed)
    {
      started := false;
      if !oauth.HasValidToken(now) {
        return;
      }
      if teslemetry.Some? {
        return;
      }
      if constructorThrows {
        teslemetry := None;
        products := None;
        return;
      }
      teslemetry := Some(Client(built));
      built := built + 1;
      loading := true;
      started := true;
    }

    /** The awaited `createProducts()` settles: its catalog is kept, or its
        failure clears both fields. */
    method CompleteInitialize(catalog: Option<Products>)
      requires Valid() && loading
      modifies this
      ensures Valid() && !loading
      ensures catalog.Some? ==> teslemetry == old(teslemetry) && products == catalog
      ensures catalog.None? ==> teslemetry.None? && products.None?
      ensures initializing == old(initializing) && closed == old(closed) && built == old(built)
    {
      loading := false;
      if catalog.Some? {
        products := catalog;
      } else {
        teslemetry := None;
        products := None;
      }
    }

    /** `initializeTeslemetry()`, awaited to the end. */
    method InitializeTeslemetry(now: int, outcome: SdkOutcome)
      requires Valid()
      modifies this
      ensures Valid()
      ensures !oauth.HasValidToken(now) || old(teslemetry).Some? ==> unchanged(this)
      ensures oauth.HasValidToken(now) && old(teslemetry).None? ==>
        && !loading
        && (outcome.CatalogLoads? ==>
              teslemetry == Some(Client(old(built))) && products == Some(outcome.products) && built == old(built) + 1)
        && (!outcome.CatalogLoads? ==> teslemetry.None? && products.None?)
      ensures initializing == old(initializing) && closed == old(closed)
    {
      var started := BeginInitialize(now, outcome.ConstructorThrows?);
      if started {
        CompleteInitialize(if outcome.CatalogLoads? then Some(outcome.products) else None);
      }
    }

    /** `reinitialize()` up to its await, when no reinitialization is in
        flight: the slot is taken, a held client has its stream closed and both
        fields are cleared, then initialization begins. */
    method BeginReinitialize(now: int, constructorThrows: bool) returns (started: bool)
      requires Valid() && !initializing
      modifies this
      ensures Valid() && initializing
      ensures closed == old(closed) + (if old(teslemetry).Some? then [old(teslemetry).value] else [])
      ensures started <==> oauth.HasValidToken(now) && !constructorThrows
      ensures started ==> teslemetry == Some(Client(old(built))) && products.None? && loading && built == old(built) + 1
      ensures !started ==> teslemetry.None? && products.None? && !loading && built == old(built)
    {
      initializing := true;
      if teslemetry.Some? {
        closed := closed + [teslemetry.value];
        teslemetry := None;
        products := None;
        loading := false;
      }
      started := BeginInitialize(now, constructorThrows);
    }

    /** The reinitialization in flight completes: its catalog fetch, if one
        was started, settles with `catalog`, and the slot is emptied. */
    method FinishReinitialize(catalog: Option<Products>)
      requires Valid() && initializing
      modifies this
      ensures Valid() && !initializing && !loading
      ensures old(loading) && catalog.Some? ==> teslemetry == old(teslemetry) && products == catalog
      ensures old(loading) && catalog.None? ==> teslemetry.None? && products.None?
      ensures !old(loading) ==> teslemetry == old(teslemetry) && products == old(products)
      ensures closed == old(closed) && built == old(built)
    {
      if loading {
        CompleteInitialize(catalog);
      }
      initializing := false;
    }

    /** `reinitialize()`, awaited to the end. A reinitialization already in
        flight is awaited first; its catalog fetch settles with `inFlight`. */
    method Reinitialize(now: int, inFlight: Option<Products>, outcome: SdkOutcome)
      requires Valid()
      modifies this
      ensures Valid() && !initializing && !loading
      ensures oauth.HasValidToken(now) && outcome.CatalogLoads? ==>
        products == Some(outcome.products) && teslemetry.Some? && teslemetry.value.id == built - 1
      ensures !oauth.HasValidToken(now) || !outcome.CatalogLoads? ==> teslemetry.None? && products.None?
      ensures !old(initializing) ==>
        closed == old(closed) + (if old(teslemetry).Some? then [old(teslemetry).value] else [])
      ensures forall c :: c in old(closed) ==> c in closed
      ensures |closed| <= |old(closed)| + 2
      ensures old(built) <= built <= old(built) + 2
      ensures oauth.HasValidToken(now) && outcome.CatalogLoads? ==> old(built) < built
    {
      if initializing {
        FinishReinitialize(inFlight);
      }
      var started := BeginReinitialize(now, outcome.ConstructorThrows?);
      FinishReinitialize(if outcome.CatalogLoads? then Some(outcome.products) else None);
    }

    /** `getTeslemetry()`: initialize only when no client is held. */
    method GetTeslemetry(now: int, outcome: SdkOutcome) returns (r: Option<Client>)
      requires Valid()
      modifies this
      ensures Valid() && r == teslemetry
      ensures old(teslemetry).Some? ==> unchanged(this) && r == old(teslemetry)
      ensures old(teslemetry).None? && oauth.HasValidToken(now) && outcome.CatalogLoads? ==> r == Some(Client(old(built)))
      ensures old(teslemetry).None? && !(oauth.HasValidToken(now) && outcome.CatalogLoads?) ==> r.None?
    {
      if teslemetry.None? {
        InitializeTeslemetry(now, outcome);
      }
      r := teslemetry;
    }

    /** `getProducts()`: initialize only when no catalog is held. While the
        catalog of a held client is still being fetched, that returns at once
        and the result is None. */
    method GetProducts(now: int, outcome: SdkOutcome) returns (r: Option<Products>)
      requires Valid()
      modifies this
      ensures Valid() && r == products
      ensures old(products).Some? ==> unchanged(this) && r == old(products)
      ensures old(products).None? && old(teslemetry).Some? ==> unchanged(this) && r.None?
      ensures old(teslemetry).None? && oauth.HasValidToken(now) && outcome.CatalogLoads? ==> r == Some(outcome.products)
      ensures old(teslemetry).None? && !(oauth.HasValidToken(now) && outcome.CatalogLoads?) ==> r.None?
    {
      if products.None? {
        InitializeTeslemetry(now, outcome);
      }
      r := products;
    }
  }

  /** After a successful initialization the app is configured exactly as long
      as its token stays valid; after a failed one it is not configured. */
  method InitializeThenConfigured(app: TeslemetryApp, now: int, later: int, outcome: SdkOutcome)
    requires app.Valid() && app.teslemetry.None? && app.oauth.HasValidToken(now)
    modifies app
    ensures app.IsConfigured(later) <==> outcome.CatalogLoads? && app.oauth.HasValidToken(later)
  {
    app.InitializeTeslemetry(now, outcome);
  }

  /** A reinitialization while a client is held closes that client's stream and
      ends with a different client. */
  method ReinitializeReplacesClient(app: TeslemetryApp, now: int, p: Products)
    requires app.Valid() && !app.initializing && app.teslemetry.Some? && app.oauth.HasValidToken(now)
    modifies app
    ensures app.closed == old(app.closed) + [old(app.teslemetry).value]
    ensures app.teslemetry.Some? && app.teslemetry != old(app.teslemetry)
    ensures app.IsConfigured(now)
  {
    app.Reinitialize(now, None, CatalogLoads(p));
  }

  /** While the first catalog fetch is awaited, `getProducts()` starts no second
      client and yields nothing. */
  method ProductsDuringFetch(app: TeslemetryApp, now: int, later: int, outcome: SdkOutcome) returns (r: Option<Products>)
    requires app.Valid() && app.teslemetry.None? && app.oauth.HasValidToken(now)
    modifies app
    ensures r.None? && app.loading
    ensures app.built == old(app.built) + 1
  {
    var started := app.BeginInitialize(now, false);
    r := app.GetProducts(later, outcome);
  }
}
