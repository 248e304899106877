/** The client replica: the page's marker cache and the engine's targets, replayed from deltas. */
module Browser {
  import opened Entities
  import opened Polls
  import opened History
  import opened Deltas
  import opened Reading
  import opened Wire
  import opened Engine

  datatype Replica = Replica(markers: map<string, Entity>, targets: Targets)

  const EMPTY := Replica(map[], map[])

  function Marked(m: map<string, Entity>, es: seq<Entity>): map<string, Entity> {
    if es == [] then m else Marked(m, es[..|es| - 1])[es[|es| - 1].id := es[|es| - 1]]
  }

  function Aircrafts(es: seq<Entity>): seq<Aircraft> {
    seq(|es|, i requires 0 <= i < |es| => FromWire(es[i]))
  }

  /** One delta, as it came over the wire, applied to both tables. */
  function Replayed(b: Replica, d: Delta, now: real): Replica {
    Replica(Marked(Marked(b.markers, d.added), d.updated) - Elements(d.removed),
            UpdatedTargets(b.targets, Aircrafts(d.added), Aircrafts(d.updated), d.removed, now))
  }

  /** A message from the server; a text that cannot be parsed changes nothing. */
  function Received(b: Replica, text: string, now: real): Replica {
    match ReadText(text)
    case None => b
    case Some(d) => Replayed(b, d, now)
  }

  class Page {
    var markers: map<string, Entity>
    const engine: RadarEngine

    ghost function State(): Replica
      reads this, engine
    {
      Replica(markers, engine.targets)
    }

    constructor ()
      ensures State() == EMPTY && fresh(engine)
    {
      markers := map[];
      engine := new RadarEngine();
    }

    method ProcessDelta(d: Delta, now: real)
      modifies `markers, engine
      ensures State() == Replayed(old(State()), d, now)
    {
      for i := 0 to |d.added|
        invariant markers == Marked(old(markers), d.added[..i]) && engine.targets == old(engine.targets)
      {
        assert d.added[..i + 1][..i] == d.added[..i];
        markers := markers[d.added[i].id := d.added[i]];
      }
      assert d.added[..|d.added|] == d.added;
      ghost var added := markers;
      for i := 0 to |d.updated|
        invariant markers == Marked(added, d.updated[..i]) && engine.targets == old(engine.targets)
      {
        assert d.updated[..i + 1][..i] == d.updated[..i];
        markers := markers[d.updated[i].id := d.updated[i]];
      }
      assert d.updated[..|d.updated|] == d.updated;
      ghost var updated := markers;
      for i := 0 to |d.removed|
        invariant markers == updated - Elements(d.removed[..i]) && engine.targets == old(engine.targets)
      {
        assert d.removed[..i + 1] == d.removed[..i] + [d.removed[i]];
        markers := markers - {d.removed[i]};
      }
      assert d.removed[..|d.removed|] == d.removed;
      engine.UpdateTargets(Aircrafts(d.added), Aircrafts(d.updated), d.removed, now);
    }
  }

  // ---- Agreement ----

  /** What the browser should know of an id: the version recorded as sent, as the wire carries it. */
  function Sent(polls: seq<Poll>, seen: Seen, id: string): Entity
    requires id in seen && InPoll(polls, seen[id], id)
  {
    OnWire(Published(polls, seen[id], id))
  }

  /** The replica is exactly what the server recorded as sent. */
  ghost predicate Agrees(polls: seq<Poll>, seen: Seen, b: Replica) {
    && b.markers.Keys == seen.Keys && b.targets.Keys == seen.Keys
    && forall id :: id in seen ==>
         && InPoll(polls, seen[id], id)
         && b.markers[id] == Sent(polls, seen, id)
         && GoalOf(b.targets[id]) == GoalSet(b.markers[id])
  }

  /** A listing, however old: every entity in it was published by the poll its version names. */
  ghost predicate Genuine(polls: seq<Poll>, visible: seq<Entity>) {
    && DistinctIds(visible)
    && forall e :: e in visible ==> InPoll(polls, e.version, e.id) && e == Published(polls, e.version, e.id)
  }

  lemma {:induction false} MarkedIs(m: map<string, Entity>, es: seq<Entity>)
    requires DistinctIds(es)
    ensures var r := Marked(m, es);
      && r.Keys == m.Keys + Ids(es)
      && (forall e :: e in es ==> e.id in r && r[e.id] == e)
      && (forall id :: id in m && id !in Ids(es) ==> r[id] == m[id])
  {
    if es != [] {
      DistinctFront(es);
      MarkedIs(m, es[..|es| - 1]);
      Snoc(es);
    }
  }

  lemma AircraftsFront(es: seq<Entity>)
    requires es != []
    ensures var a := Aircrafts(es); |a| == |es| && a[..|a| - 1] == Aircrafts(es[..|es| - 1]) && a[|a| - 1] == FromWire(es[|es| - 1])
  {
  }

  lemma {:induction false} AppearedIs(t: Targets, es: seq<Entity>, now: real)
    requires DistinctIds(es)
    ensures var r := AllAppeared(t, Aircrafts(es), now);
      && r.Keys == t.Keys + Ids(es)
      && (forall e :: e in es ==> e.id in r && GoalOf(r[e.id]) == GoalSet(e))
      && (forall id :: id in t && id !in Ids(es) ==> r[id] == t[id])
  {
    if es != [] {
      AircraftsFront(es);
      DistinctFront(es);
      AppearedIs(t, es[..|es| - 1], now);
      Snoc(es);
    }
  }

  lemma {:induction false} RetargetedIs(t: Targets, es: seq<Entity>, now: real)
    requires DistinctIds(es) && Ids(es) <= t.Keys
    ensures var r := AllRetargeted(t, Aircrafts(es), now);
      && r.Keys == t.Keys
      && (forall e :: e in es ==> e.id in r && GoalOf(r[e.id]) == GoalSet(e))
      && (forall id :: id in t && id !in Ids(es) ==> r[id] == t[id])
  {
    if es != [] {
      AircraftsFront(es);
      DistinctFront(es);
      RetargetedIs(t, es[..|es| - 1], now);
      Snoc(es);
    }
  }

  lemma WireIds(es: seq<Entity>)
    ensures Ids(AllOnWire(es)) == Ids(es)
    ensures DistinctIds(es) ==> DistinctIds(AllOnWire(es))
    ensures forall e :: e in es ==> OnWire(e) in AllOnWire(es)
  {
    var ws := AllOnWire(es);
    forall e | e in es ensures OnWire(e) in ws && e.id in Ids(ws) {
      var i :| 0 <= i < |es| && es[i] == e;
      assert ws[i] == OnWire(e);
    }
  }

  /** What replaying a tidy delta does to the two tables. */
  lemma ReplayedIs(b: Replica, d: Delta, now: real)
    requires DistinctIds(d.added) && DistinctIds(d.updated) && Ids(d.added) !! Ids(d.updated)
    requires Ids(d.updated) <= b.targets.Keys
    requires (Ids(d.added) + Ids(d.updated)) !! Elements(d.removed)
    ensures var r := Replayed(b, DeltaOnWire(d), now); var touched := Ids(d.added) + Ids(d.updated);
      && r.markers.Keys == (b.markers.Keys + touched) - Elements(d.removed)
      && r.targets.Keys == (b.targets.Keys + Ids(d.added)) - Elements(d.removed)
      && (forall e :: e in d.added || e in d.updated ==>
            e.id in r.markers && r.markers[e.id] == OnWire(e) && e.id in r.targets && GoalOf(r.targets[e.id]) == GoalSet(OnWire(e)))
      && (forall id :: id in r.markers && id !in touched ==> r.markers[id] == b.markers[id])
      && (forall id :: id in r.targets && id !in touched ==> r.targets[id] == b.targets[id])
  {
    hide OnWire;
    hide GoalOf;
    hide GoalSet;
    hide AllAppeared;
    hide AllRetargeted;
    hide Marked;
    hide AllOnWire;
    hide ClusterOnWire;
    WireIds(d.added);
    WireIds(d.updated);
    var a, u := AllOnWire(d.added), AllOnWire(d.updated);
    OnWireKeepsIds(d.added);
    OnWireKeepsIds(d.updated);
    MarkedIs(b.markers, a);
    MarkedIs(Marked(b.markers, a), u);
    AppearedIs(b.targets, a, now);
    RetargetedIs(AllAppeared(b.targets, Aircrafts(a), now), u, now);
  }

  lemma RoundsWithin(x: real, n: nat)
    requires 0.0 <= x <= n as real
    ensures 0.0 <= Rounded(x, 1) <= n as real
  {
    assert HalfEven(x * 10.0) <= 10 * n;
  }

  lemma FullCircle()
    ensures Rounded(359.96, 1) == 360.0
  {
  }

  /** A reported heading stays one on the wire, though it may become the full circle. */
  lemma WireHeadings(e: Entity)
    requires IsReport(e.heading)
    ensures IsReport(FromWire(OnWire(e)).heading)
    ensures Rounded(359.96, 1) == 360.0
  {
    hide Rounded;
    RoundsWithin(e.heading, 360);
    FullCircle();
  }

  lemma OnWireKeepsIds(es: seq<Entity>)
    ensures forall e :: e in es ==> OnWire(e).id == e.id && e.id in Ids(es)
  {
  }

  /** Replaying the delta of any genuine listing, stale or not, restores agreement with the new table. */
  lemma ReplayAgrees(polls: seq<Poll>, seen: Seen, b: Replica, visible: seq<Entity>, clusters: map<string, Cluster>,
                     n: nat, d: Delta, now: real)
    requires Agrees(polls, seen, b) && Genuine(polls, visible) && IsDelta(seen, visible, clusters, n, d)
    ensures Agrees(polls, SeenAfter(seen, visible), Replayed(b, DeltaOnWire(d), now))
  {
    hide Replayed;
    hide SeenAfter;
    hide SeenWith;
    hide AddedBy;
    hide UpdatedBy;
    hide OnWire;
    hide GoalOf;
    hide GoalSet;
    hide Published;
    hide InPoll;
    ListsAre(seen, visible);
    SeenAfterIs(seen, visible);
    DeltaIsTidy(seen, visible, clusters, n, d);
    TouchedIds(seen, visible, d);
    ReplayedIs(b, d, now);
    hide IsDelta;
    hide DeltaOnWire;
    hide Agrees;
    var seen', r := SeenAfter(seen, visible), Replayed(b, DeltaOnWire(d), now);
    AgreeingKeys(polls, seen, b);
    forall id | id in seen' ensures IdAgrees(polls, seen', r, id) {
      var e :| e in visible && e.id == id;
      AgreeingId(polls, seen, b, id);
      if e in d.added || e in d.updated {
        assert IdAgrees(polls, seen', r, e.id);
      } else {
        assert id in seen && seen'[id] == seen[id] && r.markers[id] == b.markers[id] && r.targets[id] == b.targets[id];
      }
    }
    AgreeById(polls, seen', r);
  }

  /** Agreement on one id. */
  ghost predicate IdAgrees(polls: seq<Poll>, seen: Seen, b: Replica, id: string) {
    && id in seen && id in b.markers && id in b.targets
    && InPoll(polls, seen[id], id)
    && b.markers[id] == Sent(polls, seen, id)
    && GoalOf(b.targets[id]) == GoalSet(b.markers[id])
  }

  lemma AgreeingKeys(polls: seq<Poll>, seen: Seen, b: Replica)
    requires Agrees(polls, seen, b)
    ensures b.markers.Keys == seen.Keys == b.targets.Keys
  {
  }

  lemma AgreeingId(polls: seq<Poll>, seen: Seen, b: Replica, id: string)
    requires Agrees(polls, seen, b)
    ensures id in seen ==> IdAgrees(polls, seen, b, id)
  {
  }

  lemma AgreeById(polls: seq<Poll>, seen: Seen, b: Replica)
    requires b.markers.Keys == seen.Keys == b.targets.Keys
    requires forall id :: id in seen ==> IdAgrees(polls, seen, b, id)
    ensures Agrees(polls, seen, b)
  {
    forall id | id in seen
      ensures InPoll(polls, seen[id], id) && b.markers[id] == Sent(polls, seen, id) && GoalOf(b.targets[id]) == GoalSet(b.markers[id])
    {
      assert IdAgrees(polls, seen, b, id);
    }
  }

  lemma TouchedIds(seen: Seen, visible: seq<Entity>, d: Delta)
    requires DistinctIds(visible)
    requires forall e :: e in d.added <==> e in visible && e.id !in seen
    requires forall e :: e in d.updated <==> e in visible && e.id in seen && seen[e.id] < e.version
    ensures Ids(d.added) == Ids(visible) - seen.Keys && Ids(d.updated) <= seen.Keys * Ids(visible)
    ensures forall e :: e in visible && e.id in Ids(d.added) + Ids(d.updated) ==> e in d.added || e in d.updated
  {
  }

  /** A reconnect starts from an empty table but keeps the replica. After the first listing the two
      agree exactly when the old replica held no id outside that listing: nothing tells the browser
      to forget the others. */
  lemma ReconnectAgrees(polls: seq<Poll>, b: Replica, visible: seq<Entity>, clusters: map<string, Cluster>, n: nat, d: Delta, now: real)
    requires Genuine(polls, visible) && IsDelta(map[], visible, clusters, n, d)
    ensures Agrees(polls, SeenAfter(map[], visible), Replayed(b, DeltaOnWire(d), now)) <==>
      b.markers.Keys <= Ids(visible) && b.targets.Keys <= Ids(visible)
  {
    hide Replayed;
    hide SeenAfter;
    hide OnWire;
    hide GoalOf;
    hide GoalSet;
    hide Published;
    hide InPoll;
    hide DeltaOnWire;
    hide IsDelta;
    hide Agrees;
    FirstDelta(visible, clusters, n, d);
    ReplayedIs(b, d, now);
    var seen', r := SeenAfter(map[], visible), Replayed(b, DeltaOnWire(d), now);
    if b.markers.Keys <= Ids(visible) && b.targets.Keys <= Ids(visible) {
      forall id | id in seen' ensures IdAgrees(polls, seen', r, id) {
        var e :| e in visible && e.id == id;
        assert e in d.added && seen'[e.id] == e.version;
      }
      AgreeById(polls, seen', r);
    }
    if Agrees(polls, seen', r) {
      AgreeingKeys(polls, seen', r);
    }
  }

  /** From an empty table everything listed is added. */
  lemma FirstDelta(visible: seq<Entity>, clusters: map<string, Cluster>, n: nat, d: Delta)
    requires DistinctIds(visible) && IsDelta(map[], visible, clusters, n, d)
    ensures DistinctIds(d.added) && Ids(d.added) == Ids(visible) && forall e :: e in visible ==> e in d.added
    ensures DistinctIds(d.updated) && Ids(d.updated) == {} && Elements(d.removed) == {}
    ensures SeenAfter(map[], visible).Keys == Ids(visible)
    ensures forall e :: e in visible ==> e.id in SeenAfter(map[], visible) && SeenAfter(map[], visible)[e.id] == e.version
  {
    hide SeenAfter;
    hide SeenWith;
    hide AddedBy;
    hide UpdatedBy;
    var seen: Seen := map[];
    ListsAre(seen, visible);
    SeenAfterIs(seen, visible);
    DeltaIsTidy(seen, visible, clusters, n, d);
    forall e | e in d.updated ensures e.id in seen {
    }
    assert Ids(d.updated) == {};
    TouchedIds(seen, visible, d);
  }
}
