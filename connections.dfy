/** The connection store: which ad platforms a shop has connected, and the
    credentials saved for each connection. The database tables become maps held by
    one object; ids are handed out from counters, as the database's
    auto-increment keys are. */
module Connections {
  import opened Wrappers
  import opened Metrics
  import opened DateUtils

  /** A JavaScript argument value as the store functions see it. */
  datatype Value = Undefined | Null | Text(s: string)

  /** `!v` is false: a non-empty string. */
  predicate Truthy(v: Value) {
    v.Text? && v.s != ""
  }

  /** `String(v)`, which is what encryption is applied to. */
  function JsString(v: Value): (r: string)
    ensures v.Text? ==> r == v.s
  {
    match v
    case Undefined => "undefined"
    case Null => "null"
    case Text(s) => s
  }

  /** A column written on create: `undefined` leaves the column at its null default. */
  function Column(v: Value): (r: Option<string>)
    ensures r.Some? <==> v.Text?
    ensures v.Text? ==> r.value == v.s
  {
    if v.Text? then Some(v.s) else None
  }

  /** A column written on update: `undefined` leaves the stored value alone, `null` clears it. */
  function Merge(prev: Option<string>, v: Value): (r: Option<string>)
    ensures v.Undefined? ==> r == prev
    ensures v.Null? ==> r.None?
    ensures v.Text? ==> r == Some(v.s)
  {
    match v
    case Undefined => prev
    case Null => None
    case Text(s) => Some(s)
  }

  /** An `adPlatformConnection` row; the key (shop id, platform) is the map key.
      A row created without a status holds the schema's default, None here. */
  datatype Connection = Connection(id: nat, status: Option<string>)

  /** What an upsert leaves in one nullable column that held `before`: a string is
      stored, `null` clears the column and `undefined` keeps what it held. */
  predicate Stored(before: Option<string>, v: Value, after: Option<string>) {
    match v
    case Undefined => after == before
    case Null => after.None?
    case Text(s) => after == Some(s)
  }

  datatype GoogleAuth = GoogleAuth(
    refreshTokenEnc: string, email: Option<string>, managerId: Option<string>,
    managerName: Option<string>, selectedExternalId: Option<string>,
    selectedName: Option<string>, currencyCode: Option<string>)

  datatype MetaAuth = MetaAuth(
    longLivedTokenEnc: string, metaAccountId: Option<string>, metaAdId: Option<string>,
    metaAdName: Option<string>)

  /** The object saveGoogleAuth destructures. */
  datatype GoogleArgs = GoogleArgs(
    shopDomain: Value, refreshToken: Value, email: Value, managerId: Value,
    managerName: Value, selectedExternalId: Value, selectedName: Value, currencyCode: Value)

  /** The object saveMetaAuth destructures. */
  datatype MetaArgs = MetaArgs(
    shopDomain: Value, longLivedToken: Value, metaAccountId: Value, metaAdId: Value,
    metaAdName: Value)

  /** The Google credential row after the upsert: created from the arguments, or the
      previous row updated field by field. The token is always re-encrypted. */
  function GoogleRecord(prev: Option<GoogleAuth>, a: GoogleArgs, encrypt: string -> string): (r: GoogleAuth)
    ensures r.refreshTokenEnc == encrypt(JsString(a.refreshToken))
    // a created row starts from the schema's null defaults
    ensures var b := if prev.Some? then prev.value else GoogleAuth("", None, None, None, None, None, None);
      Stored(b.email, a.email, r.email) && Stored(b.managerId, a.managerId, r.managerId)
      && Stored(b.managerName, a.managerName, r.managerName)
      && Stored(b.selectedExternalId, a.selectedExternalId, r.selectedExternalId)
      && Stored(b.selectedName, a.selectedName, r.selectedName)
      && Stored(b.currencyCode, a.currencyCode, r.currencyCode)
  {
    var token := encrypt(JsString(a.refreshToken));
    match prev
    case None =>
      GoogleAuth(token, Column(a.email), Column(a.managerId), Column(a.managerName),
        Column(a.selectedExternalId), Column(a.selectedName), Column(a.currencyCode))
    case Some(p) =>
      GoogleAuth(token, Merge(p.email, a.email), Merge(p.managerId, a.managerId),
        Merge(p.managerName, a.managerName), Merge(p.selectedExternalId, a.selectedExternalId),
        Merge(p.selectedName, a.selectedName), Merge(p.currencyCode, a.currencyCode))
  }

  /** The Meta credential row after the upsert. */
  function MetaRecord(prev: Option<MetaAuth>, a: MetaArgs, encrypt: string -> string): (r: MetaAuth)
    ensures r.longLivedTokenEnc == encrypt(JsString(a.longLivedToken))
    ensures var b := if prev.Some? then prev.value else MetaAuth("", None, None, None);
      Stored(b.metaAccountId, a.metaAccountId, r.metaAccountId) && Stored(b.metaAdId, a.metaAdId, r.metaAdId)
      && Stored(b.metaAdName, a.metaAdName, r.metaAdName)
  {
    var token := encrypt(JsString(a.longLivedToken));
    match prev
    case None =>
      MetaAuth(token, Column(a.metaAccountId), Column(a.metaAdId), Column(a.metaAdName))
    case Some(p) =>
      MetaAuth(token, Merge(p.metaAccountId, a.metaAccountId), Merge(p.metaAdId, a.metaAdId),
        Merge(p.metaAdName, a.metaAdName))
  }

  /** The connection row of a platform for a shop domain, if both exist. */
  function RowOf(shops: map<string, nat>, connections: map<(nat, string), Connection>,
                 platform: string, shopDomain: string): Option<Connection>
  {
    if shopDomain in shops && (shops[shopDomain], platform) in connections
    then Some(connections[(shops[shopDomain], platform)])
    else None
  }

  /** After a shop lookup-or-create and a write to the row (shop id, platform), every
      other (platform, domain) row is the one that was there before. */
  lemma OtherRowUnchanged(shops0: map<string, nat>, shops1: map<string, nat>,
                          conns0: map<(nat, string), Connection>, conns1: map<(nat, string), Connection>,
                          shopDomain: string, shopId: nat, platform: string, p: string, d: string)
    requires shopDomain in shops1 && shops1[shopDomain] == shopId
    requires shopDomain in shops0 ==> shops1 == shops0
    requires shopDomain !in shops0 ==>
      shops1 == shops0[shopDomain := shopId] && (forall e | e in shops0 :: shops0[e] != shopId)
      && forall k | k in conns0 :: k.0 != shopId
    requires forall e1, e2 | e1 in shops1 && e2 in shops1 && e1 != e2 :: shops1[e1] != shops1[e2]
    requires forall k | k != (shopId, platform) :: (k in conns1 <==> k in conns0)
    requires forall k | k != (shopId, platform) && k in conns1 :: conns1[k] == conns0[k]
    requires p != platform || d != shopDomain
    ensures RowOf(shops1, conns1, p, d) == RowOf(shops0, conns0, p, d)
  {
    if d == shopDomain {
      assert (shopId, p) != (shopId, platform);
    } else if d in shops0 {
      assert d in shops1 && shops1[d] == shops0[d] && shops1[d] != shopId;
    } else {
      assert d !in shops1;
    }
  }

  const GooglePlatform := "google"
  const MetaPlatform := "meta"
  const ConnectedStatus := "connected"
  const DisconnectedStatus := "disconnected"

  class ConnectionStore {
    /** shop domain to shop id */
    var shops: map<string, nat>
    var nextShopId: nat
    /** (shop id, platform) to connection row */
    var connections: map<(nat, string), Connection>
    var nextConnectionId: nat
    /** connection id to credential row */
    var google: map<nat, GoogleAuth>
    var meta: map<nat, MetaAuth>

    /** Ids are unique and every id in use was handed out by a counter. */
    ghost predicate Valid()
      reads this
    {
      (forall d | d in shops :: shops[d] < nextShopId)
      && (forall d1, d2 | d1 in shops && d2 in shops && d1 != d2 :: shops[d1] != shops[d2])
      && (forall k | k in connections :: k.0 < nextShopId && connections[k].id < nextConnectionId)
      && (forall k1, k2 | k1 in connections && k2 in connections && k1 != k2 ::
            connections[k1].id != connections[k2].id)
      && (forall id | id in google :: id < nextConnectionId)
      && (forall id | id in meta :: id < nextConnectionId)
    }

    constructor()
      ensures Valid()
      ensures shops == map[] && connections == map[] && google == map[] && meta == map[]
    {
      shops := map[];
      nextShopId := 0;
      connections := map[];
      nextConnectionId := 0;
      google := map[];
      meta := map[];
    }

    /** The connection row of a platform for a shop domain, if both exist. */
    function ConnectionOf(platform: string, shopDomain: string): Option<Connection>
      reads this
    {
      RowOf(shops, connections, platform, shopDomain)
    }

    /** What isConnected reports. */
    predicate Connected(platform: string, shopDomain: string)
      reads this
    {
      shopDomain != "" && ConnectionOf(platform, shopDomain).Some?
      && ConnectionOf(platform, shopDomain).value.status == Some(ConnectedStatus)
    }

    function GoogleAuthOf(shopDomain: string): Option<GoogleAuth>
      reads this
    {
      var c := ConnectionOf(GooglePlatform, shopDomain);
      if c.Some? && c.value.id in google then Some(google[c.value.id]) else None
    }

    function MetaAuthOf(shopDomain: string): Option<MetaAuth>
      reads this
    {
      var c := ConnectionOf(MetaPlatform, shopDomain);
      if c.Some? && c.value.id in meta then Some(meta[c.value.id]) else None
    }

    /** isConnected: false for an empty domain, an unknown shop or no row; otherwise
        whether the row's status is "connected". */
    method IsConnected(platform: string, shopDomain: string) returns (b: bool)
      ensures b <==> Connected(platform, shopDomain)
      ensures b ==> shopDomain != "" && shopDomain in shops
    {
      if shopDomain == "" {
        return false;
      }
      if shopDomain !in shops {
        return false;
      }
      var shopId := shops[shopDomain];
      if (shopId, platform) !in connections {
        return false;
      }
      var conn := connections[(shopId, platform)];
      b := conn.status == Some(ConnectedStatus);
    }

    /** `shop.findUnique`, then `shop.create` when there is none. */
    method FindOrCreateShop(shopDomain: string) returns (shopId: nat)
      requires Valid()
      modifies this
      ensures Valid()
      ensures shopDomain in shops && shopId == shops[shopDomain]
      ensures shopDomain in old(shops) ==> shops == old(shops) && nextShopId == old(nextShopId)
      ensures shopDomain !in old(shops) ==>
        shops == old(shops)[shopDomain := old(nextShopId)] && nextShopId == old(nextShopId) + 1
      ensures connections == old(connections) && nextConnectionId == old(nextConnectionId)
      ensures google == old(google) && meta == old(meta)
    {
      if shopDomain in shops {
        shopId := shops[shopDomain];
      } else {
        shopId := nextShopId;
        shops := shops[shopDomain := shopId];
        nextShopId := nextShopId + 1;
      }
    }

    /** `adPlatformConnection.upsert` keyed by (shop id, platform); `status` is the
        status written on both create and update, None when neither writes one. */
    method UpsertConnection(shopId: nat, platform: string, status: Option<string>) returns (id: nat)
      requires Valid() && shopId < nextShopId
      modifies this
      ensures Valid()
      ensures (shopId, platform) in connections && connections[(shopId, platform)].id == id
      ensures (shopId, platform) in old(connections) ==>
        id == old(connections[(shopId, platform)].id) && nextConnectionId == old(nextConnectionId)
        && connections == old(connections)[(shopId, platform) :=
             if status.Some? then Connection(id, status) else old(connections[(shopId, platform)])]
      ensures (shopId, platform) !in old(connections) ==>
        id == old(nextConnectionId) && nextConnectionId == old(nextConnectionId) + 1
        && connections == old(connections)[(shopId, platform) := Connection(id, status)]
      ensures shops == old(shops) && nextShopId == old(nextShopId)
      ensures google == old(google) && meta == old(meta)
    {
      var key := (shopId, platform);
      if key in connections {
        id := connections[key].id;
        if status.Some? {
          connections := connections[key := Connection(id, status)];
        }
      } else {
        id := nextConnectionId;
        connections := connections[key := Connection(id, status)];
        nextConnectionId := nextConnectionId + 1;
      }
    }

    /** setConnected: with a non-empty domain, the shop is created if missing and the
        (shop, platform) row is upserted with status "connected" or "disconnected". */
    method SetConnected(platform: string, connected: bool, shopDomain: string)
      requires Valid()
      modifies this
      ensures Valid()
      ensures shopDomain == "" ==> unchanged(this)
      ensures shopDomain != "" ==>
        shopDomain in shops
        && ConnectionOf(platform, shopDomain).Some?
        && ConnectionOf(platform, shopDomain).value.status
             == Some(if connected then ConnectedStatus else DisconnectedStatus)
        && (Connected(platform, shopDomain) <==> connected)
      ensures shopDomain != "" && old(ConnectionOf(platform, shopDomain)).Some? ==>
        ConnectionOf(platform, shopDomain).value.id == old(ConnectionOf(platform, shopDomain)).value.id
      ensures shopDomain != "" && old(ConnectionOf(platform, shopDomain)).None? ==>
        ConnectionOf(platform, shopDomain).value.id !in google
        && ConnectionOf(platform, shopDomain).value.id !in meta
      ensures google == old(google) && meta == old(meta)
      ensures forall p, d | p != platform || d != shopDomain ::
        ConnectionOf(p, d) == old(ConnectionOf(p, d))
    {
      if shopDomain == "" {
        return;
      }
      var shopId := FindOrCreateShop(shopDomain);
      var status := if connected then ConnectedStatus else DisconnectedStatus;
      var _ := UpsertConnection(shopId, platform, Some(status));
      forall p, d | p != platform || d != shopDomain
        ensures ConnectionOf(p, d) == old(ConnectionOf(p, d))
      {
        if d == shopDomain {
          assert (shopId, p) != (shopId, platform);
          assert (shopId, p) in connections <==> (shopId, p) in old(connections);
        } else if d in old(shops) {
          assert d in shops && shops[d] == old(shops)[d] && shops[d] != shopId;
        } else {
          assert d !in shops;
        }
      }
    }

    /** The first two steps of saveGoogleAuth and saveMetaAuth: find or create the shop,
        then upsert its (shop, platform) row writing nothing on update. */
    method OpenRow(shopDomain: string, platform: string) returns (shopId: nat, connId: nat)
      requires Valid()
      modifies this
      ensures Valid()
      ensures shopDomain in shops && shops[shopDomain] == shopId
      ensures (shopId, platform) in connections && connections[(shopId, platform)].id == connId
      ensures old(ConnectionOf(platform, shopDomain)).Some? ==>
        ConnectionOf(platform, shopDomain) == old(ConnectionOf(platform, shopDomain))
      ensures old(ConnectionOf(platform, shopDomain)).None? ==> connId !in google && connId !in meta
      ensures forall p, d | p != platform || d != shopDomain ::
        ConnectionOf(p, d) == old(ConnectionOf(p, d))
      ensures google == old(google) && meta == old(meta)
    {
      shopId := FindOrCreateShop(shopDomain);
      connId := UpsertConnection(shopId, platform, None);
      forall p, d | p != platform || d != shopDomain
        ensures ConnectionOf(p, d) == old(ConnectionOf(p, d))
      {
        OtherRowUnchanged(old(shops), shops, old(connections), connections, shopDomain, shopId, platform, p, d);
      }
    }

    /** `adPlatformConnection.update` of the row's status to "connected"; the update is
        keyed by the row's id, which only this (shop, platform) key holds. */
    method MarkConnected(shopDomain: string, platform: string)
      requires Valid() && ConnectionOf(platform, shopDomain).Some?
      modifies this
      ensures Valid()
      ensures ConnectionOf(platform, shopDomain)
        == Some(old(ConnectionOf(platform, shopDomain)).value.(status := Some(ConnectedStatus)))
      ensures forall p, d | p != platform || d != shopDomain ::
        ConnectionOf(p, d) == old(ConnectionOf(p, d))
      ensures shops == old(shops) && google == old(google) && meta == old(meta)
    {
      var key := (shops[shopDomain], platform);
      connections := connections[key := connections[key].(status := Some(ConnectedStatus))];
      forall p, d | p != platform || d != shopDomain
        ensures ConnectionOf(p, d) == old(ConnectionOf(p, d))
      {
        OtherRowUnchanged(old(shops), shops, old(connections), connections, shopDomain, key.0, platform, p, d);
      }
    }

    /** Another shop's row for the platform never holds the given row's id. */
    lemma OtherIdDiffers(d: string, shopDomain: string, platform: string, connId: nat)
      requires Valid() && d != shopDomain
      requires ConnectionOf(platform, shopDomain).Some? && ConnectionOf(platform, shopDomain).value.id == connId
      ensures ConnectionOf(platform, d).Some? ==> ConnectionOf(platform, d).value.id != connId
    {
      if ConnectionOf(platform, d).Some? {
        assert (shops[d], platform) != (shops[shopDomain], platform);
      }
    }

    /** `googleConnection.upsert` keyed by the connection id. */
    method PutGoogle(connId: nat, record: GoogleAuth)
      requires Valid() && connId < nextConnectionId
      modifies this
      ensures Valid()
      ensures google == old(google)[connId := record]
      ensures shops == old(shops) && connections == old(connections) && meta == old(meta)
    {
      google := google[connId := record];
    }

    /** `metaConnection.upsert` keyed by the connection id. */
    method PutMeta(connId: nat, record: MetaAuth)
      requires Valid() && connId < nextConnectionId
      modifies this
      ensures Valid()
      ensures meta == old(meta)[connId := record]
      ensures shops == old(shops) && connections == old(connections) && google == old(google)
    {
      meta := meta[connId := record];
    }

    /** The first three steps of saveGoogleAuth: open the row, then upsert its
        credential row with the new record. */
    method WriteGoogle(shopDomain: string, a: GoogleArgs, encrypt: string -> string) returns (connId: nat)
      requires Valid()
      modifies this
      ensures Valid()
      ensures shopDomain in shops
      ensures ConnectionOf(GooglePlatform, shopDomain).Some?
      ensures ConnectionOf(GooglePlatform, shopDomain).value.id == connId
      ensures google == old(google)[connId := GoogleRecord(old(GoogleAuthOf(shopDomain)), a, encrypt)]
      ensures forall p, d | p != GooglePlatform || d != shopDomain ::
        ConnectionOf(p, d) == old(ConnectionOf(p, d))
      ensures meta == old(meta)
    {
      var shopId;
      shopId, connId := OpenRow(shopDomain, GooglePlatform);
      var prev := if connId in google then Some(google[connId]) else None;
      assert prev == old(GoogleAuthOf(shopDomain));
      PutGoogle(connId, GoogleRecord(prev, a, encrypt));
    }

    /** saveGoogleAuth: with a non-empty domain, the shop and its Google row are created
        if missing, the credential row is upserted with the encrypted token and the
        given metadata, and the row's status becomes "connected". */
    method SaveGoogleAuth(a: GoogleArgs, encrypt: string -> string)
      requires Valid()
      modifies this
      ensures Valid()
      ensures !Truthy(a.shopDomain) ==> unchanged(this)
      ensures Truthy(a.shopDomain) ==>
        a.shopDomain.s in shops
        && Connected(GooglePlatform, a.shopDomain.s)
        && GoogleAuthOf(a.shopDomain.s) == Some(GoogleRecord(old(GoogleAuthOf(a.shopDomain.s)), a, encrypt))
      ensures Truthy(a.shopDomain) ==> forall p, d | p != GooglePlatform || d != a.shopDomain.s ::
        ConnectionOf(p, d) == old(ConnectionOf(p, d))
      ensures Truthy(a.shopDomain) ==> forall d | d != a.shopDomain.s ::
        GoogleAuthOf(d) == old(GoogleAuthOf(d))
      ensures meta == old(meta)
    {
      if !Truthy(a.shopDomain) {
        return;
      }
      var shopDomain := a.shopDomain.s;
      var connId := WriteGoogle(shopDomain, a, encrypt);
      MarkConnected(shopDomain, GooglePlatform);
      assert ConnectionOf(GooglePlatform, shopDomain).value.id == connId;
      forall d | d != shopDomain
        ensures GoogleAuthOf(d) == old(GoogleAuthOf(d))
      {
        OtherIdDiffers(d, shopDomain, GooglePlatform, connId);
      }
    }

    /** The first three steps of saveMetaAuth: open the row, then upsert its
        credential row with the new record. */
    method WriteMeta(shopDomain: string, a: MetaArgs, encrypt: string -> string) returns (connId: nat)
      requires Valid()
      modifies this
      ensures Valid()
      ensures shopDomain in shops
      ensures ConnectionOf(MetaPlatform, shopDomain).Some?
      ensures ConnectionOf(MetaPlatform, shopDomain).value.id == connId
      ensures meta == old(meta)[connId := MetaRecord(old(MetaAuthOf(shopDomain)), a, encrypt)]
      ensures forall p, d | p != MetaPlatform || d != shopDomain ::
        ConnectionOf(p, d) == old(ConnectionOf(p, d))
      ensures google == old(google)
    {
      var shopId;
      shopId, connId := OpenRow(shopDomain, MetaPlatform);
      var prev := if connId in meta then Some(meta[connId]) else None;
      assert prev == old(MetaAuthOf(shopDomain));
      PutMeta(connId, MetaRecord(prev, a, encrypt));
    }

    /** saveMetaAuth: the same steps for the Meta row and its credential row. */
    method SaveMetaAuth(a: MetaArgs, encrypt: string -> string)
      requires Valid()
      modifies this
      ensures Valid()
      ensures !Truthy(a.shopDomain) ==> unchanged(this)
      ensures Truthy(a.shopDomain) ==>
        a.shopDomain.s in shops
        && Connected(MetaPlatform, a.shopDomain.s)
        && MetaAuthOf(a.shopDomain.s) == Some(MetaRecord(old(MetaAuthOf(a.shopDomain.s)), a, encrypt))
      ensures Truthy(a.shopDomain) ==> forall p, d | p != MetaPlatform || d != a.shopDomain.s ::
        ConnectionOf(p, d) == old(ConnectionOf(p, d))
      ensures Truthy(a.shopDomain) ==> forall d | d != a.shopDomain.s ::
        MetaAuthOf(d) == old(MetaAuthOf(d))
      ensures google == old(google)
    {
      if !Truthy(a.shopDomain) {
        return;
      }
      var shopDomain := a.shopDomain.s;
      var connId := WriteMeta(shopDomain, a, encrypt);
      MarkConnected(shopDomain, MetaPlatform);
      assert ConnectionOf(MetaPlatform, shopDomain).value.id == connId;
      forall d | d != shopDomain
        ensures MetaAuthOf(d) == old(MetaAuthOf(d))
      {
        OtherIdDiffers(d, shopDomain, MetaPlatform, connId);
      }
    }
  }

  /** The argument object saveGoogleAuth sees when handed a plain string: destructuring
      a string finds none of the properties, so every one is undefined. */
  function PositionalGoogleArgs(shop: string): (a: GoogleArgs)
    ensures !Truthy(a.shopDomain)
  {
    GoogleArgs(Undefined, Undefined, Undefined, Undefined, Undefined, Undefined, Undefined, Undefined)
  }

  /** The Google OAuth callback as written: the shop is passed positionally, so
      saveGoogleAuth returns at once and stores no token, yet setConnected then marks
      Google connected. A shop connecting for the first time ends up connected with
      no refresh token saved. */
  method GoogleCallbackAsWritten(store: ConnectionStore, shop: string, refreshToken: string, encrypt: string -> string)
    requires store.Valid()
    modifies store
    ensures store.Valid()
    ensures shop != "" ==> store.Connected(GooglePlatform, shop)
    ensures old(store.GoogleAuthOf(shop)).None? ==> store.GoogleAuthOf(shop).None?
  {
    store.SaveGoogleAuth(PositionalGoogleArgs(shop), encrypt);
    store.SetConnected(GooglePlatform, true, shop);
  }

  /** The callback with the shop passed inside the argument object, as saveGoogleAuth
      expects: the encrypted refresh token is stored before the shop is marked connected. */
  method GoogleCallback(store: ConnectionStore, shop: string, refreshToken: string, encrypt: string -> string)
    requires store.Valid()
    modifies store
    ensures store.Valid()
    ensures shop != "" ==>
      store.Connected(GooglePlatform, shop)
      && store.GoogleAuthOf(shop).Some?
      && store.GoogleAuthOf(shop).value.refreshTokenEnc == encrypt(refreshToken)
  {
    var args := GoogleArgs(Text(shop), Text(refreshToken), Undefined, Null, Null, Null, Null, Null);
    store.SaveGoogleAuth(args, encrypt);
    store.SetConnected(GooglePlatform, true, shop);
  }

  /** The placeholder metrics payload: key metrics and campaign rows. */
  datatype MetricsPayload = MetricsPayload(keyMetrics: seq<KeyMetric>, campaigns: seq<seq<string>>)

  const PlaceholderMetricNames := ["clicks", "impressions", "cost", "conversions"]

  /** fetchMetrics placeholder: four fixed key metrics and two five-column rows (no
      status column), whatever the platform and date range. */
  function FetchMetrics(platform: string, dateRange: DateRange): (r: MetricsPayload)
    ensures InOrder(r.keyMetrics, PlaceholderMetricNames)
    ensures |r.campaigns| == 2 && forall i | 0 <= i < |r.campaigns| :: |r.campaigns[i]| == 5
  {
    MetricsPayload(
      [ KeyMetric("clicks", "19.29k", 12.34),
        KeyMetric("impressions", "750.85k", 8.12),
        KeyMetric("cost", "123.37k", -5.4),
        KeyMetric("conversions", "2.99k", -2.1) ],
      [ ["Campaign 1", "$320.00", "$0.70", "$1,312.00", "4.10"],
        ["Campaign 2", "$210.00", "$0.68", "$861.00", "4.10"] ])
  }
}
