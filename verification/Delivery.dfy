/** The stock events as one client sees them: the requests' broadcasts through the hub. */
module Delivery {
  import opened Ledger
  import opened Inventory
  import Hub

  /** A client connected to the hub while no broadcast was in flight, and since then it neither
      left nor failed a send. Whatever other clients did, folding the events it received over
      the stocks at that moment gives the current stocks. */
  lemma ClientFollowsStocks(s: Site, cs: seq<Call>, h: Hub.HubState, es: seq<Hub.Event>, ws: Hub.Socket)
    requires Inv(s.db) && Coherent(s.db, s.cache) && s.sent == [] && Serves(s, cs)
    requires Hub.Consistent(h) && h.casts == map[] && ws in h.connections
    requires Hub.Goes(h, es) && Hub.OneByOne(h, es) && Hub.End(h, es).casts == map[]
    requires ws !in Hub.End(h, es).left && ws !in Hub.End(h, es).failed
    requires Hub.Announced(es) == ServeAll(s, cs).sent
    ensures var old_, now := Hub.Inbox(h, ws), Hub.Inbox(Hub.End(h, es), ws);
            && old_ <= now && Fold(Stocks(s.db.books), now[|old_|..]) == Stocks(ServeAll(s, cs).db.books)
  {
    Hub.HealthyReceiveAll(h, es, ws);
    var old_ := Hub.Inbox(h, ws);
    assert (old_ + Hub.Announced(es))[|old_|..] == Hub.Announced(es);
    CacheAndEventsAgree(s, cs);
  }
}
