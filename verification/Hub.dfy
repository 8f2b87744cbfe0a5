/** The websocket hub: connects, disconnects and any number of broadcasts interleaved. A
    broadcast copies the connection set under the lock, sends without it, and takes the
    lock again to drop the sockets whose send failed. */
module Hub {
  import opened Domain

  type Socket = nat
  type CastId = nat

  /** A broadcast in flight: its message, the sockets it copied, in the order it sends to
      them, how many sends are over, and the sockets whose send failed. */
  datatype Cast = Cast(message: StockEvent, snapshot: seq<Socket>, next: nat, stale: set<Socket>)

  /** The last five fields are history: the sockets that ever connected, disconnected, had a
      send fail, or were dropped by a broadcast, and what each socket has received. */
  datatype HubState = HubState(connections: set<Socket>, casts: map<CastId, Cast>,
                               joined: set<Socket>, left: set<Socket>, failed: set<Socket>, pruned: set<Socket>,
                               received: map<Socket, seq<StockEvent>>)

  datatype Event = Connect(ws: Socket) | Disconnect(ws: Socket)
                 | Start(id: CastId, message: StockEvent, order: seq<Socket>)
                 | Send(id: CastId, ok: bool) | Prune(id: CastId)

  function Inbox(h: HubState, ws: Socket): seq<StockEvent> { if ws in h.received then h.received[ws] else [] }

  // An order of a set without repetition.
  ghost predicate Lists(order: seq<Socket>, s: set<Socket>) {
    Distinct(order) && forall x :: x in order <==> x in s
  }

  // Each socket connects once, and disconnects only after it connected.
  ghost predicate Possible(h: HubState, e: Event) {
    match e
    case Connect(ws) => ws !in h.joined
    case Disconnect(ws) => ws in h.joined
    case Start(id, _, order) => id !in h.casts && Lists(order, h.connections)
    case Send(id, _) => id in h.casts && h.casts[id].next < |h.casts[id].snapshot|
    case Prune(id) => id in h.casts && h.casts[id].next >= |h.casts[id].snapshot|
  }

  ghost function After(h: HubState, e: Event): HubState
    requires Possible(h, e)
  {
    match e
    case Connect(ws) => h.(connections := h.connections + {ws}, joined := h.joined + {ws})
    case Disconnect(ws) => h.(connections := h.connections - {ws}, left := h.left + {ws})
    case Start(id, message, order) => h.(casts := h.casts[id := Cast(message, order, 0, {})])
    case Send(id, ok) =>
      var c := h.casts[id];
      var ws := c.snapshot[c.next];
      if ok then h.(casts := h.casts[id := c.(next := c.next + 1)], received := h.received[ws := Inbox(h, ws) + [c.message]])
      else h.(casts := h.casts[id := c.(next := c.next + 1, stale := c.stale + {ws})], failed := h.failed + {ws})
    case Prune(id) =>
      var gone := h.casts[id].stale;
      h.(connections := h.connections - gone, casts := h.casts - {id}, pruned := h.pruned + gone)
  }

  /** The connections are exactly the sockets that connected and neither disconnected nor were
      dropped, and only sockets with a failed send are dropped. */
  predicate Consistent(h: HubState) {
    && h.connections == h.joined - h.left - h.pruned
    && h.pruned <= h.failed <= h.joined && h.left <= h.joined
    && (forall id :: id in h.casts ==> h.casts[id].stale <= h.failed)
    && (forall ws :: ws in h.failed ==> ws in h.pruned || exists id :: id in h.casts && ws in h.casts[id].stale)
    && (forall id, ws :: id in h.casts && ws in h.casts[id].snapshot ==> ws in h.joined)
  }

  ghost predicate Goes(h: HubState, es: seq<Event>)
    decreases |es|, 0
  {
    es == [] || (Goes(h, es[..|es| - 1]) && Possible(End(h, es[..|es| - 1]), es[|es| - 1]))
  }

  ghost function End(h: HubState, es: seq<Event>): HubState
    requires Goes(h, es)
    decreases |es|, 1
  {
    if es == [] then h else After(End(h, es[..|es| - 1]), es[|es| - 1])
  }

  lemma ConsistentStep(h: HubState, e: Event)
    requires Consistent(h) && Possible(h, e)
    ensures Consistent(After(h, e))
  {
    var h' := After(h, e);
    forall ws | ws in h'.failed
      ensures ws in h'.pruned || exists id :: id in h'.casts && ws in h'.casts[id].stale
    {
      if ws in h.failed && ws !in h.pruned {
        var id :| id in h.casts && ws in h.casts[id].stale;
        if id in h'.casts { assert ws in h'.casts[id].stale; }
      } else if ws !in h.failed {
        assert ws in h'.casts[e.id].stale;
      }
    }
  }

  lemma {:induction false} AlwaysConsistent(h: HubState, es: seq<Event>)
    requires Consistent(h) && Goes(h, es)
    ensures Consistent(End(h, es))
  {
    if es != [] {
      AlwaysConsistent(h, es[..|es| - 1]);
      ConsistentStep(End(h, es[..|es| - 1]), es[|es| - 1]);
    }
  }

  /** However broadcasts interleave with connects and disconnects: a client that connected,
      has not disconnected and never failed a send is connected; a client that disconnected
      or was dropped is not, and no broadcast can bring it back. */
  lemma {:induction false} HealthyStayGoneStayGone(h: HubState, es: seq<Event>, ws: Socket)
    requires Consistent(h) && Goes(h, es)
    ensures var end := End(h, es);
            && (ws in end.joined && ws !in end.left && ws !in end.failed ==> ws in end.connections)
            && (ws in h.joined && ws !in h.connections ==> ws !in end.connections)
  {
    AlwaysConsistent(h, es);
    HistoryGrows(h, es);
  }

  /** Once no broadcast is in flight, the sockets dropped are exactly those a send to which
      failed, and the connections are who connected minus who left minus who failed a send. */
  lemma FailedAreDropped(h: HubState, es: seq<Event>)
    requires Consistent(h) && Goes(h, es) && End(h, es).casts == map[]
    ensures var end := End(h, es);
            end.pruned == end.failed && end.connections == end.joined - end.left - end.failed
  {
    AlwaysConsistent(h, es);
  }

  lemma {:induction false} HistoryGrows(h: HubState, es: seq<Event>)
    requires Goes(h, es)
    ensures var end := End(h, es);
            h.joined <= end.joined && h.left <= end.left && h.failed <= end.failed && h.pruned <= end.pruned
  {
    if es != [] { HistoryGrows(h, es[..|es| - 1]); }
  }

  /** The history is that of the events: who joined has connected, and who left has disconnected. */
  lemma {:induction false} HistoryIs(h: HubState, es: seq<Event>, ws: Socket)
    requires Goes(h, es)
    ensures ws in End(h, es).joined <==> ws in h.joined || exists k :: 0 <= k < |es| && es[k] == Connect(ws)
    ensures ws in End(h, es).left <==> ws in h.left || exists k :: 0 <= k < |es| && es[k] == Disconnect(ws)
  {
    if es != [] {
      var before := es[..|es| - 1];
      HistoryIs(h, before, ws);
      assert forall k :: 0 <= k < |before| ==> before[k] == es[k];
      assert es[|es| - 1] in es;
    }
  }

  /** A client that connects is connected at once; one that disconnects is gone at once and for
      good. */
  lemma ConnectsAndDisconnects(h: HubState, ws: Socket, es: seq<Event>)
    requires Consistent(h)
    ensures ws !in h.joined ==> ws in After(h, Connect(ws)).connections
    ensures ws in h.joined && Goes(After(h, Disconnect(ws)), es) ==> ws !in End(After(h, Disconnect(ws)), es).connections
  {
    if ws in h.joined && Goes(After(h, Disconnect(ws)), es) {
      ConsistentStep(h, Disconnect(ws));
      HealthyStayGoneStayGone(After(h, Disconnect(ws)), es, ws);
    }
  }

  // ----- a broadcast can always run

  // The run of one broadcast with no other event in between, up to its first n sends.
  function Lone(id: CastId, message: StockEvent, order: seq<Socket>, ok: seq<bool>, n: nat): seq<Event>
    requires n <= |ok|
  {
    if n == 0 then [Start(id, message, order)] else Lone(id, message, order, ok, n - 1) + [Send(id, ok[n - 1])]
  }

  lemma Extend(h: HubState, es: seq<Event>, e: Event)
    requires Goes(h, es) && Possible(End(h, es), e)
    ensures Goes(h, es + [e]) && End(h, es + [e]) == After(End(h, es), e)
  {
    assert (es + [e])[..|es|] == es;
  }

  // Where the broadcast stands after n sends.
  predicate LoneAt(h: HubState, m: HubState, id: CastId, message: StockEvent, order: seq<Socket>, ok: seq<bool>, n: nat)
    requires |ok| == |order| && n <= |ok|
  {
    && m.connections == h.connections
    && m.casts == h.casts[id := Cast(message, order, n, Failures(order[..n], ok[..n]))]
  }

  lemma LoneSend(h: HubState, m: HubState, id: CastId, message: StockEvent, order: seq<Socket>, ok: seq<bool>, n: nat)
    requires |ok| == |order| && n < |ok| && LoneAt(h, m, id, message, order, ok, n)
    ensures Possible(m, Send(id, ok[n])) && LoneAt(h, After(m, Send(id, ok[n])), id, message, order, ok, n + 1)
  {
    FailuresStep(order, ok, n);
    var stale := Failures(order[..n + 1], ok[..n + 1]);
    assert After(m, Send(id, ok[n])).casts[id] == Cast(message, order, n + 1, stale);
    assert m.casts[id := Cast(message, order, n + 1, stale)] == h.casts[id := Cast(message, order, n + 1, stale)];
  }

  lemma {:induction false} LoneSends(h: HubState, id: CastId, message: StockEvent, order: seq<Socket>, ok: seq<bool>, n: nat)
    requires id !in h.casts && Lists(order, h.connections) && |ok| == |order| && n <= |ok|
    ensures Goes(h, Lone(id, message, order, ok, n))
    ensures LoneAt(h, End(h, Lone(id, message, order, ok, n)), id, message, order, ok, n)
  {
    if n == 0 {
      assert [] + [Start(id, message, order)] == [Start(id, message, order)];
      Extend(h, [], Start(id, message, order));
      assert Failures(order[..0], ok[..0]) == {};
    } else {
      LoneSends(h, id, message, order, ok, n - 1);
      LoneSend(h, End(h, Lone(id, message, order, ok, n - 1)), id, message, order, ok, n - 1);
      Extend(h, Lone(id, message, order, ok, n - 1), Send(id, ok[n - 1]));
    }
  }

  /** A broadcast can start at any time, and when it runs alone, whatever sends fail, it drops
      exactly the sockets whose send failed. */
  lemma LoneBroadcast(h: HubState, id: CastId, message: StockEvent, order: seq<Socket>, ok: seq<bool>)
    requires id !in h.casts && Lists(order, h.connections) && |ok| == |order|
    ensures var es := Lone(id, message, order, ok, |ok|) + [Prune(id)];
            && Goes(h, es) && End(h, es).casts == h.casts
            && End(h, es).connections == h.connections - Failures(order, ok)
  {
    LoneSends(h, id, message, order, ok, |ok|);
    assert order[..|ok|] == order && ok[..|ok|] == ok;
    Extend(h, Lone(id, message, order, ok, |ok|), Prune(id));
  }

  // ----- what a client receives

  // Broadcasts one at a time, as whole requests one at a time make them.
  ghost predicate OneByOne(h: HubState, es: seq<Event>)
    requires Goes(h, es)
  {
    es == [] || (
      && OneByOne(h, es[..|es| - 1])
      && (es[|es| - 1].Start? ==> End(h, es[..|es| - 1]).casts == map[]))
  }

  function Announced(es: seq<Event>): seq<StockEvent> {
    if es == [] then []
    else Announced(es[..|es| - 1]) + if es[|es| - 1].Start? then [es[|es| - 1].message] else []
  }

  // The only broadcast in flight has ws at place p.
  ghost predicate Sending(h: HubState, id: CastId, p: nat, ws: Socket) {
    && h.casts.Keys == {id} && Distinct(h.casts[id].snapshot)
    && p < |h.casts[id].snapshot| && h.casts[id].snapshot[p] == ws
  }

  // ws has received what was announced, but for a broadcast that has not come to it yet.
  ghost predicate UpToDate(h: HubState, ws: Socket, before: seq<StockEvent>, told: seq<StockEvent>) {
    if h.casts == map[] then Inbox(h, ws) == before + told
    else
      exists id, p: nat :: Sending(h, id, p, ws)
        && told != [] && h.casts[id].message == told[|told| - 1]
        && Inbox(h, ws) == before + if p < h.casts[id].next then told else told[..|told| - 1]
  }

  lemma StartUpToDate(h: HubState, e: Event, ws: Socket, before: seq<StockEvent>, told: seq<StockEvent>)
    requires Possible(h, e) && e.Start? && h.casts == map[] && ws in h.connections && UpToDate(h, ws, before, told)
    ensures UpToDate(After(h, e), ws, before, told + [e.message])
  {
    var p :| 0 <= p < |e.order| && e.order[p] == ws;
    assert Sending(After(h, e), e.id, p, ws);
    assert (told + [e.message])[..|told|] == told;
  }

  lemma SendUpToDate(h: HubState, e: Event, ws: Socket, before: seq<StockEvent>, told: seq<StockEvent>)
    requires Possible(h, e) && e.Send? && UpToDate(h, ws, before, told) && ws !in After(h, e).failed
    ensures UpToDate(After(h, e), ws, before, told)
  {
    var id, p: nat :| Sending(h, id, p, ws)
      && told != [] && h.casts[id].message == told[|told| - 1]
      && Inbox(h, ws) == before + if p < h.casts[id].next then told else told[..|told| - 1];
    var h' := After(h, e);
    assert Sending(h', id, p, ws);
    if h.casts[id].next == p {
      assert Inbox(h', ws) == before + told[..|told| - 1] + [told[|told| - 1]];
      assert told == told[..|told| - 1] + [told[|told| - 1]];
    }
  }

  lemma PruneUpToDate(h: HubState, e: Event, ws: Socket, before: seq<StockEvent>, told: seq<StockEvent>)
    requires Possible(h, e) && e.Prune? && UpToDate(h, ws, before, told)
    ensures UpToDate(After(h, e), ws, before, told)
  {
    var id, p: nat :| Sending(h, id, p, ws)
      && Inbox(h, ws) == before + if p < h.casts[id].next then told else told[..|told| - 1];
    assert After(h, e).casts == map[];
  }

  lemma StillUpToDate(h: HubState, h': HubState, ws: Socket, before: seq<StockEvent>, told: seq<StockEvent>)
    requires h'.casts == h.casts && h'.received == h.received && UpToDate(h, ws, before, told)
    ensures UpToDate(h', ws, before, told)
  {
    if h.casts != map[] {
      var id, p: nat :| Sending(h, id, p, ws)
        && told != [] && h.casts[id].message == told[|told| - 1]
        && Inbox(h, ws) == before + if p < h.casts[id].next then told else told[..|told| - 1];
      assert Sending(h', id, p, ws);
    }
  }

  /** A client that stays connected and fails no send has received, once no broadcast is in
      flight, exactly what was announced since, in order. */
  lemma {:induction false} HealthyReceiveAll(h: HubState, es: seq<Event>, ws: Socket)
    requires Consistent(h) && h.casts == map[] && Goes(h, es) && OneByOne(h, es)
    requires ws in h.connections && ws !in End(h, es).left && ws !in End(h, es).failed
    ensures UpToDate(End(h, es), ws, Inbox(h, ws), Announced(es))
  {
    if es != [] {
      var mid, e := End(h, es[..|es| - 1]), es[|es| - 1];
      var before, told := Inbox(h, ws), Announced(es[..|es| - 1]);
      HealthyReceiveAll(h, es[..|es| - 1], ws);
      HealthyStayGoneStayGone(h, es[..|es| - 1], ws);
      HistoryGrows(h, es[..|es| - 1]);
      assert told + [] == told;
      if e.Start? { StartUpToDate(mid, e, ws, before, told); }
      else if e.Send? { SendUpToDate(mid, e, ws, before, told); }
      else if e.Prune? { PruneUpToDate(mid, e, ws, before, told); }
      else { StillUpToDate(mid, After(mid, e), ws, before, told); }
    }
  }

  // ----- one broadcast, with what others do between its sends

  // Another broadcast drops a socket when its send failed there.
  datatype Other = Joins(ws: Socket) | Leaves(ws: Socket) | Dropped(ws: Socket)

  function Changed(s: set<Socket>, os: seq<Other>): set<Socket> {
    if os == [] then s
    else
      var before := Changed(s, os[..|os| - 1]);
      match os[|os| - 1]
      case Joins(ws) => before + {ws}
      case Leaves(ws) => before - {ws}
      case Dropped(ws) => before - {ws}
  }

  function Joined(os: seq<Other>): set<Socket> { set i | 0 <= i < |os| && os[i].Joins? :: os[i].ws }
  function Gone(os: seq<Other>): set<Socket> { set i | 0 <= i < |os| && !os[i].Joins? :: os[i].ws }

  // A socket that is gone, or was there at the start, does not connect again.
  predicate JoinOnce(s: set<Socket>, os: seq<Other>) {
    forall j :: 0 <= j < |os| && os[j].Joins? ==>
      os[j].ws !in s && forall i :: 0 <= i < j ==> os[i].ws != os[j].ws
  }

  lemma JoinedLast(os: seq<Other>)
    requires os != []
    ensures var o := os[|os| - 1]; var before := os[..|os| - 1];
            && Joined(os) == Joined(before) + (if o.Joins? then {o.ws} else {})
            && Gone(os) == Gone(before) + (if o.Joins? then {} else {o.ws})
  {
  }

  /** When every socket connects once, connects, disconnects and drops add up as sets. */
  lemma {:induction false} ChangedIsSetDifference(s: set<Socket>, os: seq<Other>)
    requires JoinOnce(s, os)
    ensures Changed(s, os) == s + Joined(os) - Gone(os)
  {
    if os != [] {
      var n := |os| - 1;
      forall j | 0 <= j < n && os[..n][j].Joins?
        ensures os[..n][j].ws !in s && forall i :: 0 <= i < j ==> os[..n][i].ws != os[..n][j].ws
      {
        assert os[j].Joins?;
      }
      ChangedIsSetDifference(s, os[..n]);
      JoinedLast(os);
      if os[n].Joins? {
        forall i | 0 <= i < n ensures os[..n][i].ws != os[n].ws { }
        assert os[n].ws !in Gone(os[..n]);
      }
    }
  }

  // Sockets of the snapshot whose send failed.
  function Failures(order: seq<Socket>, ok: seq<bool>): set<Socket>
    requires |ok| == |order|
  {
    set k | 0 <= k < |order| && !ok[k] :: order[k]
  }

  lemma FailuresStep(order: seq<Socket>, ok: seq<bool>, k: nat)
    requires |ok| == |order| && k < |order|
    ensures Failures(order[..k + 1], ok[..k + 1]) ==
            Failures(order[..k], ok[..k]) + (if ok[k] then {} else {order[k]})
  {
  }

  function Flat(slots: seq<seq<Other>>): seq<Other> {
    if slots == [] then [] else Flat(slots[..|slots| - 1]) + slots[|slots| - 1]
  }

  lemma {:induction false} ChangedConcat(s: set<Socket>, xs: seq<Other>, ys: seq<Other>)
    ensures Changed(s, xs + ys) == Changed(Changed(s, xs), ys)
  {
    if ys == [] {
      assert xs + ys == xs;
    } else {
      assert (xs + ys)[..|xs + ys| - 1] == xs + ys[..|ys| - 1];
      ChangedConcat(s, xs, ys[..|ys| - 1]);
    }
  }

  class WebSocketHub {
    var connections: set<Socket>

    constructor ()
      ensures connections == {}
    {
      connections := {};
    }

    method Connect(ws: Socket)
      modifies this
      ensures connections == old(connections) + {ws}
    {
      connections := connections + {ws};
    }

    method Disconnect(ws: Socket)
      modifies this
      ensures connections == old(connections) - {ws}
    {
      connections := connections - {ws};
    }

    // Other tasks run while a send is awaited.
    method Others(os: seq<Other>)
      modifies this
      ensures connections == Changed(old(connections), os)
    {
      for i := 0 to |os|
        invariant connections == Changed(old(connections), os[..i])
      {
        assert os[..i + 1][..i] == os[..i];
        match os[i]
        case Joins(ws) => Connect(ws);
        case Leaves(ws) => Disconnect(ws);
        case Dropped(ws) => connections := connections - {ws};
      }
      assert os[..|os|] == os;
    }

    /** `order` is the copy of the connections, `ok` tells which sends go through, and
        `between` what other tasks do before each send and before the final lock. */
    method Broadcast(order: seq<Socket>, ok: seq<bool>, between: seq<seq<Other>>) returns (sends: seq<Socket>)
      requires Lists(order, connections) && |ok| == |order| && |between| == |order| + 1
      requires JoinOnce(connections, Flat(between))
      modifies this
      ensures sends == order
      ensures connections == old(connections) + Joined(Flat(between)) - Gone(Flat(between)) - Failures(order, ok)
    {
      ghost var start := connections;
      var stale: seq<Socket> := [];
      sends := [];
      for k := 0 to |order|
        invariant sends == order[..k]
        invariant connections == Changed(start, Flat(between[..k]))
        invariant (set x | x in stale) == Failures(order[..k], ok[..k])
      {
        FailuresStep(order, ok, k);
        ChangedConcat(start, Flat(between[..k]), between[k]);
        assert between[..k + 1][..k] == between[..k];
        Others(between[k]);
        sends := sends + [order[k]];
        if !ok[k] { stale := stale + [order[k]]; }
      }
      ChangedConcat(start, Flat(between[..|order|]), between[|order|]);
      assert between[..|order| + 1] == between && order[..|order|] == order && ok[..|ok|] == ok;
      Others(between[|order|]);
      ChangedIsSetDifference(start, Flat(between));
      ghost var before := connections;
      for k := 0 to |stale|
        invariant connections == before - set x | x in stale[..k]
      {
        assert stale[..k + 1] == stale[..k] + [stale[k]];
        connections := connections - {stale[k]};
      }
      assert stale[..|stale|] == stale;
    }
  }
}
