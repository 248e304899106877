/** One client of the hub: the table of what was sent, the one-slot channel, and the pushes into it. */
module Hub {
  import opened Entities
  import opened Contents
  import opened Geography
  import opened Polls
  import opened Queries
  import opened Deltas
  import opened Reading
  import opened SpatialIndex
  import Wire
  import Store

  datatype ClientState = ClientState(viewport: Viewport, seen: Seen, ch: seq<string>, lastPush: Option<int>)

  const NOWHERE := Viewport(0.0, 0.0, 0.0, 0.0, 0)
  const NEW_CLIENT := ClientState(NOWHERE, map[], [], None)

  predicate Eligible(c: ClientState, now: int, minPushInterval: int) {
    c.lastPush.Some? ==> now - c.lastPush.value >= minPushInterval
  }

  datatype Outcome = Skipped | Queued | Dropped

  /** The outcome of pushing a listing to a client. The table is updated in every case; a full
      channel loses the delta. */
  ghost predicate Pushes(c: ClientState, visible: seq<Entity>, clusters: map<string, Cluster>, n: nat, now: int,
                         d: Delta, c': ClientState, outcome: Outcome) {
    && IsDelta(c.seen, visible, clusters, n, d)
    && c'.viewport == c.viewport && c'.seen == SeenAfter(c.seen, visible)
    && outcome == (if IsEmpty(d) then Skipped else if |c.ch| < 1 then Queued else Dropped)
    && (outcome == Queued ==> |c'.ch| == |c.ch| + 1 && c'.ch[..|c.ch|] == c.ch && IsText(d, c'.ch[|c.ch|]) && c'.lastPush == Some(now))
    && (outcome != Queued ==> c'.ch == c.ch && c'.lastPush == c.lastPush)
  }

  lemma NothingListed(seen: Seen)
    ensures SeenWith(seen, []) == seen && AddedBy(seen, []) == [] && UpdatedBy(seen, []) == [] && Ids([]) == {}
  {
  }

  lemma ListStep(seen: Seen, visible: seq<Entity>, i: nat)
    requires i < |visible|
    ensures var front, e := visible[..i], visible[i]; var s := SeenWith(seen, front);
      && Ids(visible[..i + 1]) == Ids(front) + {e.id}
      && SeenWith(seen, visible[..i + 1]) == (if e.id !in s || s[e.id] < e.version then s[e.id := e.version] else s)
      && AddedBy(seen, visible[..i + 1]) == AddedBy(seen, front) + (if e.id !in s then [e] else [])
      && UpdatedBy(seen, visible[..i + 1]) == UpdatedBy(seen, front) + (if e.id in s && s[e.id] < e.version then [e] else [])
  {
    assert visible[..i + 1][..i] == visible[..i];
    IdsStep(visible, i);
  }

  lemma AppendedOnce(removed: seq<string>, id: string)
    requires NoDuplicates(removed) && id !in Elements(removed)
    ensures NoDuplicates(removed + [id]) && Elements(removed + [id]) == Elements(removed) + {id}
  {
  }

  /** Ranges over a map in some order. */
  method RangeOver(clusters: map<string, Cluster>) returns (order: seq<string>)
    ensures Wire.IsOrder(order, clusters) && forall k :: k in order ==> k in clusters
  {
    order := [];
    var todo := clusters.Keys;
    while todo != {}
      invariant todo <= clusters.Keys && NoDuplicates(order) && Elements(order) == clusters.Keys - todo
      decreases todo
    {
      var k :| k in todo;
      AppendedOnce(order, k);
      order := order + [k];
      todo := todo - {k};
    }
    assert forall k :: k in order ==> k in Elements(order);
  }

  /** A cluster map, shared by reference between a query buffer and the deltas that were made from it. */
  class ClusterMap {
    var entries: map<string, Cluster>

    constructor ()
      ensures entries == map[]
    {
      entries := map[];
    }
  }

  /** A pool of recycled objects, as far as their cluster maps matter. A recycled delta still refers to
      the map of the query it was last used for. */
  class Pool {
    var items: set<ClusterMap>

    constructor ()
      ensures items == {}
    {
      items := {};
    }

    /** The map of any recycled object, or of a new one. Another recycled object may refer to the same map. */
    method Get() returns (m: ClusterMap)
      modifies this
      ensures items <= old(items) && (m in old(items) || fresh(m))
    {
      if items == {} {
        m := new ClusterMap();
      } else if * {
        m := new ClusterMap();
      } else {
        m :| m in items;
        if * {
          items := items - {m};
        }
      }
    }

    method Put(m: ClusterMap)
      modifies this
      ensures items == old(items) + {m}
    {
      items := items + {m};
    }
  }

  class Client {
    var ch: seq<string>
    var open: bool
    var viewport: Viewport
    var seen: Seen
    var lastPush: Option<int>
    const minPushInterval: int

    ghost function State(): ClientState
      reads this
    {
      ClientState(viewport, seen, ch, lastPush)
    }

    constructor (minPushInterval: int)
      ensures this.minPushInterval == minPushInterval && open && State() == NEW_CLIENT
      ensures seen == map[] && ch == [] && lastPush == None && viewport == Viewport(0.0, 0.0, 0.0, 0.0, 0)
    {
      this.minPushInterval := minPushInterval;
      ch, open, seen, lastPush, viewport := [], true, map[], None, NOWHERE;
    }

    method SetViewport(vp: Viewport)
      modifies `viewport
      ensures State() == old(State()).(viewport := vp)
    {
      viewport := vp;
    }

    method IsEligible(now: int) returns (r: bool)
      ensures r == Eligible(State(), now, minPushInterval)
      ensures r <==> lastPush == None || now >= lastPush.value + minPushInterval
    {
      r := lastPush.None? || now - lastPush.value >= minPushInterval;
    }

    method DropUnlisted(visibleSet: set<string>) returns (removed: seq<string>)
      modifies `seen
      ensures NoDuplicates(removed) && Elements(removed) == old(seen).Keys - visibleSet
      ensures seen == map id | id in old(seen) && id in visibleSet :: old(seen)[id]
    {
      removed := [];
      var todo := seen.Keys;
      while todo != {}
        invariant todo <= old(seen).Keys
        invariant NoDuplicates(removed) && Elements(removed) == (old(seen).Keys - visibleSet) - todo
        invariant seen == old(seen) - Elements(removed)
        decreases todo
      {
        var id :| id in todo;
        if id !in visibleSet {
          AppendedOnce(removed, id);
          removed := removed + [id];
          seen := seen - {id};
        }
        todo := todo - {id};
      }
    }

    /** Sorts the listing into added and updated entities and finds the removed ids. */
    method ComputeDelta(visible: seq<Entity>, clusters: map<string, Cluster>, n: nat) returns (d: Delta)
      modifies `seen
      ensures IsDelta(old(seen), visible, clusters, n, d) && d.clusters == clusters
      ensures seen == SeenAfter(old(seen), visible)
    {
      hide Ids;
      var added, updated, visibleSet: set<string> := [], [], {};
      NothingListed(seen);
      assert visible[..0] == [];
      for i := 0 to |visible|
        invariant seen == SeenWith(old(seen), visible[..i]) && visibleSet == Ids(visible[..i])
        invariant added == AddedBy(old(seen), visible[..i]) && updated == UpdatedBy(old(seen), visible[..i])
      {
        var e := visible[i];
        ListStep(old(seen), visible, i);
        visibleSet := visibleSet + {e.id};
        if e.id !in seen {
          added := added + [e];
          seen := seen[e.id := e.version];
        } else if seen[e.id] < e.version {
          updated := updated + [e];
          seen := seen[e.id := e.version];
        }
      }
      assert visible[..|visible|] == visible;
      var removed := DropUnlisted(visibleSet);
      d := Delta(n, added, updated, removed, clusters);
    }

    /** Prints the delta and offers it to the channel. */
    method Send(d: Delta, now: int) returns (sent: bool)
      requires open
      modifies `ch, `lastPush
      ensures sent <==> !IsEmpty(d) && |old(ch)| < 1
      ensures sent <==> (d.added != [] || d.updated != [] || d.removed != [] || d.clusters != map[]) && old(ch) == []
      ensures sent ==> |ch| == |old(ch)| + 1 && ch[..|old(ch)|] == old(ch) && IsText(d, ch[|old(ch)|]) && lastPush == Some(now)
      ensures !sent ==> ch == old(ch) && lastPush == old(lastPush)
    {
      if IsEmpty(d) {
        return false;
      }
      var order := RangeOver(d.clusters);
      var text := Wire.MarshalFast(d, order);
      if |ch| < 1 {
        ch := ch + [text];
        lastPush := Some(now);
        return true;
      }
      return false;
    }

    /** A broadcast push. The recycled delta clears the map it still refers to; if that is the map of
        this very query, the clusters are gone before they are sent. */
    method ComputeAndSend(deltas: Pool, eventSeq: nat, visible: seq<Entity>, clusters: ClusterMap, now: int)
      returns (sent: bool, ghost d: Delta, ghost outcome: Outcome, ghost recycled: ClusterMap)
      requires open
      modifies `seen, `ch, `lastPush, deltas, deltas.items
      ensures recycled in old(deltas.items) || fresh(recycled)
      ensures d.clusters == clusters.entries == if recycled == clusters then map[] else old(clusters.entries)
      ensures Pushes(old(State()), visible, d.clusters, eventSeq, now, d, State(), outcome)
      ensures sent <==> outcome == Queued
      ensures clusters in deltas.items && deltas.items <= old(deltas.items) + {clusters}
    {
      hide IsText;
      hide IsDelta;
      hide SeenAfter;
      var old_ := deltas.Get();
      recycled := old_;
      old_.entries := map[];
      var delta := ComputeDelta(visible, clusters.entries, eventSeq);
      sent := Send(delta, now);
      deltas.Put(clusters);
      d := delta;
      outcome := if IsEmpty(delta) then Skipped else if sent then Queued else Dropped;
    }

    /** A viewport update: set, query into a recycled buffer, and push at once, whatever was pushed
        before. The entities are complete; the clusters are, unless the recycled delta refers to the buffer. */
    method HandleViewportUpdate(vp: Viewport, store: Store.Store, deltas: Pool, buffer: ClusterMap, now: int)
      returns (ghost visible: seq<Entity>, ghost clusters: map<string, Cluster>, ghost d: Delta, ghost outcome: Outcome,
               ghost recycled: ClusterMap)
      requires store.Valid() && open
      modifies `viewport, `seen, `ch, `lastPush, deltas, deltas.items, buffer
      ensures SelectionOf(store.index.geo, vp).Err? ==> State() == old(State()).(viewport := vp)
      ensures SelectionOf(store.index.geo, vp).Ok? ==>
        && Replies(store.SourceFor(vp.zoom), vp, visible, clusters)
        && (recycled in old(deltas.items) || fresh(recycled))
        && d.clusters == (if recycled == buffer then map[] else clusters)
        && Pushes(old(State()).(viewport := vp), visible, d.clusters, store.seqNo, now, d, State(), outcome)
    {
      hide *;
      visible, clusters, d, outcome, recycled := [], map[], Delta(0, [], [], [], map[]), Skipped, buffer;
      SetViewport(vp);
      buffer.entries := map[];
      var answer := store.Query(vp);
      if answer.Err? {
        return;
      }
      visible, clusters := answer.value.0, answer.value.1;
      buffer.entries := answer.value.1;
      var sent;
      sent, d, outcome, recycled := ComputeAndSend(deltas, store.seqNo, answer.value.0, buffer, now);
    }
  }

  /** What one store event means for one client: an eligible client is pushed what a query replies for
      its own viewport, with all of the clusters or none; any other stays as it is. */
  ghost predicate Served(src: Source, c: ClientState, minPushInterval: int, n: nat, now: int, c': ClientState) {
    if Eligible(c, now, minPushInterval) && SelectionOf(src.geo, c.viewport).Ok? then
      exists visible, clusters, d: Delta, outcome ::
        && Replies(src, c.viewport, visible, clusters)
        && (d.clusters == clusters || d.clusters == map[])
        && Pushes(c, visible, d.clusters, n, now, d, c', outcome)
    else c' == c
  }

  lemma ServedBy(src: Source, c: ClientState, minPushInterval: int, n: nat, now: int, c': ClientState,
                 visible: seq<Entity>, clusters: map<string, Cluster>, d: Delta, outcome: Outcome)
    requires Eligible(c, now, minPushInterval) && Replies(src, c.viewport, visible, clusters)
    requires (d.clusters == clusters || d.clusters == map[]) && Pushes(c, visible, d.clusters, n, now, d, c', outcome)
    ensures Served(src, c, minPushInterval, n, now, c')
  {
    hide Pushes;
    hide Answers;
  }

  lemma NoElements<T>(s: seq<T>)
    ensures Elements(s) == {} <==> s == []
  {
    if s != [] {
      assert s[0] in Elements(s);
    }
  }

  lemma NotServed(src: Source, c: ClientState, minPushInterval: int, n: nat, now: int)
    requires !Eligible(c, now, minPushInterval) || SelectionOf(src.geo, c.viewport).Err?
    ensures Served(src, c, minPushInterval, n, now, c)
  {
  }

  /** Every client that was never pushed to, or not for its interval, makes the push step: afterwards its
      table is that of a reply for its viewport, and what changed is queued, or lost if the channel was full.
      Every other client stays as it was. */
  ghost predicate Reached(src: Source, c: ClientState, minPushInterval: int, n: nat, now: int, c': ClientState) {
    if (c.lastPush == None || now >= c.lastPush.value + minPushInterval) && SelectionOf(src.geo, c.viewport).Ok? then
      exists visible, clusters, d: Delta ::
        && Replies(src, c.viewport, visible, clusters) && (d.clusters == clusters || d.clusters == map[])
        && IsDelta(c.seen, visible, d.clusters, n, d)
        && Told(c, visible, d, now, c')
    else c' == c
  }

  ghost predicate Told(c: ClientState, visible: seq<Entity>, d: Delta, now: int, c': ClientState) {
    var news := d.added != [] || d.updated != [] || d.removed != [] || d.clusters != map[];
    && c'.viewport == c.viewport && c'.seen == SeenAfter(c.seen, visible)
    && if news && c.ch == [] then |c'.ch| == 1 && IsText(d, c'.ch[0]) && c'.lastPush == Some(now)
       else c'.ch == c.ch && c'.lastPush == c.lastPush
  }

  lemma PushesTell(c: ClientState, visible: seq<Entity>, clusters: map<string, Cluster>, n: nat, now: int,
                   d: Delta, c': ClientState, outcome: Outcome)
    requires Pushes(c, visible, clusters, n, now, d, c', outcome)
    ensures Told(c, visible, d, now, c')
  {
    assert |d.clusters| == 0 <==> d.clusters == map[];
    hide SeenAfter;
    hide IsText;
    hide IsDelta;
  }

  lemma ServedIsReached(src: Source, c: ClientState, minPushInterval: int, n: nat, now: int, c': ClientState)
    requires Served(src, c, minPushInterval, n, now, c')
    ensures Reached(src, c, minPushInterval, n, now, c')
  {
    hide Replies;
    hide SelectionOf;
    hide Told;
    if Eligible(c, now, minPushInterval) && SelectionOf(src.geo, c.viewport).Ok? {
      var visible, clusters, d: Delta, outcome :|
        && Replies(src, c.viewport, visible, clusters)
        && (d.clusters == clusters || d.clusters == map[])
        && Pushes(c, visible, d.clusters, n, now, d, c', outcome);
      PushesTell(c, visible, d.clusters, n, now, d, c', outcome);
    }
  }

  /** What clearing costs below zoom 5: a client that has nothing is told about the clusters only if
      they are still there. */
  lemma ClearedClusters(c: ClientState, clusters: map<string, Cluster>, n: nat, now: int, d: Delta, c': ClientState, outcome: Outcome)
    requires c.seen == map[] && c.ch == [] && Pushes(c, [], clusters, n, now, d, c', outcome)
    ensures outcome == Queued <==> clusters != map[]
    ensures outcome == Skipped <==> clusters == map[]
  {
    assert |clusters| == 0 <==> clusters == map[];
    assert SeenWith(c.seen, []) == map[];
    assert Elements(d.removed) == {};
    NoElements(d.removed);
  }

  lemma StoreGeo(store: Store.Store, zoom: int)
    ensures store.SourceFor(zoom).geo == store.index.geo
  {
  }

  class Hub {
    const store: Store.Store
    const deltas: Pool
    const buffers: Pool
    var clients: set<Client>

    /** The cluster maps that recycled deltas and idle buffers refer to. */
    ghost function Maps(): set<ClusterMap>
      reads deltas, buffers
    {
      deltas.items + buffers.items
    }

    /** The pools are two, and every registered client has an open channel. */
    ghost predicate Valid()
      reads this, clients
    {
      deltas != buffers && forall c :: c in clients ==> c.open
    }

    constructor (store: Store.Store)
      ensures this.store == store && clients == {} && Valid() && fresh(deltas) && fresh(buffers)
    {
      this.store := store;
      deltas := new Pool();
      buffers := new Pool();
      clients := {};
    }

    method Register(c: Client)
      requires Valid() && c.open
      modifies `clients
      ensures Valid() && clients == old(clients) + {c}
    {
      clients := clients + {c};
    }

    /** The client leaves and its channel is closed; the channels of the others stay open. */
    method Unregister(c: Client)
      requires Valid() && c.open
      modifies `clients, c`open
      ensures Valid() && clients == old(clients) - {c} && !c.open
    {
      clients := clients - {c};
      c.open := false;
    }

    /** Groups the clients by viewport. */
    method GroupByViewport() returns (groups: map<Viewport, set<Client>>)
      ensures forall c :: c in clients ==> c.State().viewport in groups && c in groups[c.State().viewport]
      ensures forall vp, c :: vp in groups && c in groups[vp] ==> c in clients && c.State().viewport == vp
    {
      groups := map[];
      var todo := clients;
      while todo != {}
        invariant todo <= clients
        invariant forall c :: c in clients - todo ==> c.viewport in groups && c in groups[c.viewport]
        invariant forall vp, c :: vp in groups && c in groups[vp] ==> c in clients && c.viewport == vp
        decreases todo
      {
        var c :| c in todo;
        var vp := c.viewport;
        groups := groups[vp := (if vp in groups then groups[vp] else {}) + {c}];
        todo := todo - {c};
      }
    }

    method PickEligible(group: set<Client>, now: int) returns (eligible: set<Client>)
      ensures forall c :: c in eligible <==> c in group && Eligible(c.State(), now, c.minPushInterval)
      ensures forall c :: c in eligible <==> c in group && (c.lastPush == None || now >= c.lastPush.value + c.minPushInterval)
    {
      eligible := {};
      var todo := group;
      while todo != {}
        invariant todo <= group
        invariant forall c :: c in eligible <==> c in group - todo && Eligible(c.State(), now, c.minPushInterval)
        decreases todo
      {
        var c :| c in todo;
        var ok := c.IsEligible(now);
        if ok {
          eligible := eligible + {c};
        }
        todo := todo - {c};
      }
    }

    /** One listing pushed to every client of a group. */
    method PushAll(vp: Viewport, group: set<Client>, visible: seq<Entity>, found: map<string, Cluster>, buffer: ClusterMap,
                   eventSeq: nat, now: int)
      requires store.Valid() && buffer.entries == found && Replies(store.SourceFor(vp.zoom), vp, visible, found)
      requires forall c :: c in group ==> c.open && c.State().viewport == vp && Eligible(c.State(), now, c.minPushInterval)
      modifies group`seen, group`ch, group`lastPush, deltas, deltas.items, buffer
      ensures forall c :: c in group ==>
        Served(store.SourceFor(vp.zoom), old(c.State()), c.minPushInterval, eventSeq, now, c.State())
      ensures deltas.items <= old(deltas.items) + {buffer}
    {
      hide *;
      ghost var src := store.SourceFor(vp.zoom);
      var todo := group;
      while todo != {}
        invariant todo <= group
        invariant deltas.items <= old(deltas.items) + {buffer}
        invariant buffer.entries == found || buffer.entries == map[]
        invariant forall c :: c in todo ==> c.State() == old(c.State())
        invariant forall c :: c in group - todo ==> Served(src, old(c.State()), c.minPushInterval, eventSeq, now, c.State())
        decreases todo
      {
        var c :| c in todo;
        var sent, d, outcome, recycled := c.ComputeAndSend(deltas, eventSeq, visible, buffer, now);
        ServedBy(src, old(c.State()), c.minPushInterval, eventSeq, now, c.State(), visible, found, d, outcome);
        todo := todo - {c};
      }
    }

    /** One viewport: a query for all its eligible clients together. */
    method ServeGroup(vp: Viewport, group: set<Client>, eventSeq: nat, now: int)
      requires store.Valid() && deltas != buffers && forall c :: c in group ==> c.open && c.State().viewport == vp
      modifies group`seen, group`ch, group`lastPush, deltas, buffers, Maps()
      ensures forall c :: c in group ==>
        Served(store.SourceFor(vp.zoom), old(c.State()), c.minPushInterval, eventSeq, now, c.State())
      ensures forall x :: x in Maps() ==> x in old(Maps()) || fresh(x)
    {
      hide *;
      ghost var src := store.SourceFor(vp.zoom);
      StoreGeo(store, vp.zoom);
      MapsAre();
      var eligible := PickEligible(group, now);
      forall c | c in group && (c !in eligible || SelectionOf(src.geo, vp).Err?)
        ensures Served(src, c.State(), c.minPushInterval, eventSeq, now, c.State())
      {
        NotServed(src, c.State(), c.minPushInterval, eventSeq, now);
      }
      if eligible == {} {
        return;
      }
      var buffer := buffers.Get();
      buffer.entries := map[];
      var answer := store.Query(vp);
      if answer.Ok? {
        buffer.entries := answer.value.1;
        PushAll(vp, eligible, answer.value.0, answer.value.1, buffer, eventSeq, now);
      }
      buffers.Put(buffer);
      MapsAre();
    }

    lemma MapsAre()
      ensures Maps() == deltas.items + buffers.items
    {
    }

    lemma ValidIs()
      ensures Valid() <==> deltas != buffers && forall c :: c in clients ==> c.open
    {
    }

    /** One store event: every viewport is queried once for all its eligible clients. For the entities
        sharing the query does not show: each client is served as if it were alone. */
    method Broadcast(eventSeq: nat, now: int)
      requires store.Valid() && Valid()
      modifies clients`seen, clients`ch, clients`lastPush, deltas, buffers, Maps()
      ensures Valid() && clients == old(clients)
      ensures forall c :: c in clients ==>
        Served(store.SourceFor(old(c.State()).viewport.zoom), old(c.State()), c.minPushInterval, eventSeq, now, c.State())
      ensures forall c :: c in clients ==>
        Reached(store.SourceFor(old(c.State()).viewport.zoom), old(c.State()), c.minPushInterval, eventSeq, now, c.State())
    {
      hide *;
      ValidIs();
      var groups := GroupByViewport();
      var todo := groups.Keys;
      while todo != {}
        invariant todo <= groups.Keys
        invariant forall x :: x in Maps() ==> x in old(Maps()) || fresh(x)
        invariant forall c :: c in clients ==> old(c.State()).viewport in groups
        invariant forall c :: c in clients && old(c.State()).viewport in todo ==> c.State() == old(c.State())
        invariant forall c :: c in clients && old(c.State()).viewport !in todo ==>
          Served(store.SourceFor(old(c.State()).viewport.zoom), old(c.State()), c.minPushInterval, eventSeq, now, c.State())
        decreases todo
      {
        var vp :| vp in todo;
        var group := groups[vp];
        assert forall c :: c in group <==> c in clients && old(c.State()).viewport == vp;
        assert forall c :: c in group ==> c.State() == old(c.State());
        ServeGroup(vp, group, eventSeq, now);
        todo := todo - {vp};
      }
      ValidIs();
      forall c | c in clients
        ensures Reached(store.SourceFor(old(c.State()).viewport.zoom), old(c.State()), c.minPushInterval, eventSeq, now, c.State())
      {
        ServedIsReached(store.SourceFor(old(c.State()).viewport.zoom), old(c.State()), c.minPushInterval, eventSeq, now, c.State());
      }
    }
  }
}
