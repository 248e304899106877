/** The difference between what a client has seen and what a query lists. */
module Deltas {
  import opened Entities
  import opened Polls

  /** Entity id to the version last sent. */
  type Seen = map<string, nat>

  /** The table after the listed entities have been met, one by one. */
  function SeenWith(seen: Seen, visible: seq<Entity>): Seen {
    if visible == [] then seen else
      var s, e := SeenWith(seen, visible[..|visible| - 1]), visible[|visible| - 1];
      if e.id !in s || s[e.id] < e.version then s[e.id := e.version] else s
  }

  function AddedBy(seen: Seen, visible: seq<Entity>): seq<Entity> {
    if visible == [] then [] else
      var front, e := visible[..|visible| - 1], visible[|visible| - 1];
      AddedBy(seen, front) + if e.id !in SeenWith(seen, front) then [e] else []
  }

  function UpdatedBy(seen: Seen, visible: seq<Entity>): seq<Entity> {
    if visible == [] then [] else
      var front, e := visible[..|visible| - 1], visible[|visible| - 1];
      var s := SeenWith(seen, front);
      UpdatedBy(seen, front) + if e.id in s && s[e.id] < e.version then [e] else []
  }

  /** The table after the ids that are no longer listed have been dropped. */
  function SeenAfter(seen: Seen, visible: seq<Entity>): Seen {
    map id | id in SeenWith(seen, visible) && id in Ids(visible) :: SeenWith(seen, visible)[id]
  }

  /** A delta from `seen` to `visible`; the removed ids come in any order. */
  ghost predicate IsDelta(seen: Seen, visible: seq<Entity>, clusters: map<string, Cluster>, seqNo: nat, d: Delta) {
    && d.seqNo == seqNo && d.clusters == clusters
    && d.added == AddedBy(seen, visible) && d.updated == UpdatedBy(seen, visible)
    && NoDuplicates(d.removed) && Elements(d.removed) == SeenWith(seen, visible).Keys - Ids(visible)
  }

  /** Part of a cluster map. Recycling may clear entries before they are sent; it changes none. */
  ghost predicate PartOf(some: map<string, Cluster>, all: map<string, Cluster>) {
    forall k :: k in some ==> k in all && some[k] == all[k]
  }

  /** Nothing to tell: such a delta is not sent. */
  predicate IsEmpty(d: Delta) {
    |d.added| == 0 && |d.updated| == 0 && |d.removed| == 0 && |d.clusters| == 0
  }

  /** No entity is added, updated or removed; clusters do not matter to the replica. */
  predicate Idle(d: Delta) {
    |d.added| == 0 && |d.updated| == 0 && |d.removed| == 0
  }

  // ---- What the loops compute, for listings without repeated ids ----

  lemma DistinctFront(es: seq<Entity>)
    requires es != [] && DistinctIds(es)
    ensures DistinctIds(es[..|es| - 1]) && es[|es| - 1].id !in Ids(es[..|es| - 1])
    ensures Ids(es) == Ids(es[..|es| - 1]) + {es[|es| - 1].id}
  {
    IdsStep(es, |es| - 1);
    assert es[..|es|] == es;
  }

  /** The version recorded for a listed entity: the newer of the two. */
  function Newer(seen: Seen, e: Entity): nat {
    if e.id in seen && seen[e.id] >= e.version then seen[e.id] else e.version
  }

  lemma {:induction false} SeenWithIs(seen: Seen, visible: seq<Entity>)
    requires DistinctIds(visible)
    ensures var s := SeenWith(seen, visible);
      && s.Keys == seen.Keys + Ids(visible)
      && (forall e :: e in visible ==> e.id in Ids(visible) && s[e.id] == Newer(seen, e))
      && (forall id :: id in seen && id !in Ids(visible) ==> s[id] == seen[id])
  {
    if visible != [] {
      DistinctFront(visible);
      SeenWithIs(seen, visible[..|visible| - 1]);
      Snoc(visible);
    }
  }

  lemma Snoc<T>(s: seq<T>)
    requires s != []
    ensures s == s[..|s| - 1] + [s[|s| - 1]]
    ensures forall x :: x in s <==> x in s[..|s| - 1] || x == s[|s| - 1]
  {
  }

  /** Added are the listed entities never sent, updated those sent in an older version. */
  lemma {:induction false} ListsAre(seen: Seen, visible: seq<Entity>)
    requires DistinctIds(visible)
    ensures forall e :: e in AddedBy(seen, visible) <==> e in visible && e.id !in seen
    ensures forall e :: e in UpdatedBy(seen, visible) <==> e in visible && e.id in seen && seen[e.id] < e.version
    ensures DistinctIds(AddedBy(seen, visible)) && DistinctIds(UpdatedBy(seen, visible))
  {
    hide Ids;
    if visible != [] {
      var front, e := visible[..|visible| - 1], visible[|visible| - 1];
      DistinctFront(visible);
      SeenWithIs(seen, front);
      ListsAre(seen, front);
      Snoc(visible);
      hide SeenWith;
      AppendDistinct(AddedBy(seen, front), front, e);
      AppendDistinct(UpdatedBy(seen, front), front, e);
    }
  }

  lemma AppendDistinct(es: seq<Entity>, front: seq<Entity>, e: Entity)
    requires DistinctIds(es) && (forall x :: x in es ==> x in front) && e.id !in Ids(front)
    ensures DistinctIds(es + [e])
  {
    forall i | 0 <= i < |es| ensures es[i].id != e.id {
      assert es[i] in front;
    }
  }

  lemma SeenAfterIs(seen: Seen, visible: seq<Entity>)
    requires DistinctIds(visible)
    ensures SeenAfter(seen, visible).Keys == Ids(visible)
    ensures forall e :: e in visible ==> e.id in Ids(visible) && SeenAfter(seen, visible)[e.id] == Newer(seen, e)
  {
    SeenWithIs(seen, visible);
  }

  /** Every computed delta names each id at most once, in at most one of its lists. */
  lemma DeltaIsTidy(seen: Seen, visible: seq<Entity>, clusters: map<string, Cluster>, n: nat, d: Delta)
    requires DistinctIds(visible) && IsDelta(seen, visible, clusters, n, d)
    ensures DistinctIds(d.added) && DistinctIds(d.updated) && NoDuplicates(d.removed)
    ensures Ids(d.added) !! Ids(d.updated) && Ids(d.added) !! Elements(d.removed) && Ids(d.updated) !! Elements(d.removed)
    ensures Elements(d.removed) == seen.Keys - Ids(visible)
  {
    ListsAre(seen, visible);
    SeenWithIs(seen, visible);
    hide SeenWith;
    hide AddedBy;
    hide UpdatedBy;
  }

  /** While an id stays, its recorded version never goes back, however stale the listing is. */
  lemma SeenNeverGoesBack(seen: Seen, visible: seq<Entity>, id: string)
    requires DistinctIds(visible) && id in seen && id in SeenAfter(seen, visible)
    ensures SeenAfter(seen, visible)[id] >= seen[id]
  {
    SeenWithIs(seen, visible);
  }

  /** Skipping a listing is harmless: when versions do not go back, passing through it ends in the
      same table as going straight to the next one. */
  lemma Coalescing(seen: Seen, first: seq<Entity>, second: seq<Entity>)
    requires DistinctIds(first) && DistinctIds(second)
    requires forall e :: e in second && e.id in seen ==> seen[e.id] <= e.version
    requires forall e, f :: e in second && f in first && f.id == e.id ==> f.version <= e.version
    ensures SeenAfter(SeenAfter(seen, first), second) == SeenAfter(seen, second)
    ensures forall e :: e in second ==> e.id in SeenAfter(seen, second) && SeenAfter(seen, second)[e.id] == e.version
  {
    hide SeenAfter;
    var mid := SeenAfter(seen, first);
    SeenAfterIs(seen, first);
    SeenAfterIs(mid, second);
    SeenAfterIs(seen, second);
    forall e | e in second ensures Newer(mid, e) == e.version && Newer(seen, e) == e.version {
      if e.id in mid {
        var f :| f in first && f.id == e.id;
      }
    }
    forall id | id in Ids(second) ensures SeenAfter(mid, second)[id] == SeenAfter(seen, second)[id] {
      var e :| e in second && e.id == id;
    }
  }
}
