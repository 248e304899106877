/** The poll-driven store around the index. */
module Store {
  import opened Entities
  import opened Geography
  import opened Contents
  import opened Polls
  import opened SpatialIndex
  import opened Batches
  import opened Queries

  const U64: int := 0x1_0000_0000_0000_0000

  /** Unsigned 64-bit subtraction: it wraps around below zero. */
  function Sub64(a: nat, b: nat): nat {
    (a - b) % U64
  }

  datatype StoreEvent = StoreEvent(seqNo: nat, changed: seq<string>, removed: seq<string>)

  /** The event of poll `n`; the removed ids come in any order. */
  ghost predicate IsEvent(event: StoreEvent, lastSeen: map<string, int>, poll: Poll, n: nat) {
    && event.seqNo == n
    && event.changed == Changed(lastSeen.Keys, poll, n)
    && NoDuplicates(event.removed) && Elements(event.removed) == Evicted(lastSeen, poll, n)
  }

  /** A channel of capacity 1 keeps what it holds and drops the newcomer. */
  function Offered<T>(ch: seq<T>, x: T): seq<T> {
    if |ch| < 1 then ch + [x] else ch
  }

  /** The channel after a series of events that nobody reads. */
  function AllOffered<T>(ch: seq<T>, xs: seq<T>): seq<T> {
    if xs == [] then ch else Offered(AllOffered(ch, xs[..|xs| - 1]), xs[|xs| - 1])
  }

  /** Of the events that come while the subscriber is busy, it gets the oldest and no other. */
  lemma {:induction false} FirstEventWaits<T>(ch: seq<T>, xs: seq<T>)
    requires |ch| <= 1
    ensures AllOffered(ch, xs) == if ch != [] then ch else if xs != [] then [xs[0]] else []
  {
    if xs != [] {
      FirstEventWaits(ch, xs[..|xs| - 1]);
    }
  }

  lemma NothingEvicted()
    ensures NoDuplicates<string>([]) && Elements<string>([]) == {}
  {
  }

  lemma IsEvicted(lastSeen: map<string, int>, poll: Poll, n: nat, id: string)
    ensures id in Evicted(lastSeen, poll, n) <==> id in lastSeen && id !in Ids(poll) && lastSeen[id] < n - 1
  {
  }

  /** Poll numbers are never subtracted below zero. */
  lemma NoWrap(a: nat, b: nat)
    requires b <= a < U64
    ensures Sub64(a, b) == a - b
  {
  }

  lemma EvictStep(removed: seq<string>, evicted: set<string>, done: set<string>, id: string)
    requires id !in done && NoDuplicates(removed) && Elements(removed) == evicted * done
    ensures var removed' := if id in evicted then removed + [id] else removed;
      NoDuplicates(removed') && Elements(removed') == evicted * (done + {id})
  {
    assert id !in Elements(removed);
    assert Elements(removed + [id]) == Elements(removed) + {id};
  }

  lemma {:induction false} SplitSize(known: set<string>, es: seq<Entity>)
    ensures |Added(known, es)| + |Updated(known, es)| == |es|
  {
    if es != [] {
      SplitSize(known, es[..|es| - 1]);
    }
  }

  lemma SeenBelow(lastSeen: map<string, int>, poll: Poll, n: nat)
    ensures forall id :: id in NextSeen(lastSeen, poll, n) ==> NextSeen(lastSeen, poll, n)[id] <= n
  {
  }

  lemma StampedSize(poll: Poll, n: nat)
    ensures |Stamped(poll, n)| == |poll|
  {
  }

  lemma NothingYet(known: set<string>)
    ensures Added(known, []) == [] && Updated(known, []) == [] && Ids([]) == {}
  {
  }

  /** How the split grows with one more entity. */
  lemma SplitStep(known: set<string>, es: seq<Entity>, i: nat)
    requires i < |es|
    ensures var before, e := es[..i], es[i]; var isNew := e.id !in known && e.id !in Ids(before);
      && Added(known, es[..i + 1]) == Added(known, before) + (if isNew then [e] else [])
      && Updated(known, es[..i + 1]) == Updated(known, before) + (if isNew then [] else [e])
      && Ids(es[..i + 1]) == Ids(before) + {e.id}
  {
    PrefixOfPrefix(es, i);
    IdsStep(es, i);
  }

  class Store {
    const index: Index
    var seqNo: nat
    var lastSeen: map<string, nat>
    var subs: map<int, seq<StoreEvent>>
    var nextSubID: int

    var addedBuf: seq<Entity>
    var updatedBuf: seq<Entity>
    var removedBuf: seq<string>
    var seenIDsBuf: set<string>

    ghost predicate Valid()
      reads this, index
    {
      && index.Valid()
      && seqNo < U64
      && (forall id :: id in lastSeen ==> lastSeen[id] <= seqNo)
      && (seqNo == 0 ==> lastSeen == map[])
    }

    ghost function State(): StoreState
      reads this, index
      requires index.TablesInv()
    {
      StoreState(seqNo, lastSeen, index.View())
    }

    /** What queries at a zoom are answered from; without consistent tables, nothing. */
    ghost function SourceFor(zoom: int): Source
      reads this, index
    {
      Source(index.geo, if index.TablesInv() then State().content else map[], index.ExactFor(zoom))
    }

    /** The store is what the polls make it, and its layers are exact as long as no poll took a cell away. */
    ghost predicate Follows(polls: seq<Poll>)
      reads this, index
    {
      && Valid() && State() == After(index.geo, polls)
      && (Intact(index.geo, polls) ==> forall j :: 0 <= j < 5 ==> index.LayersInv(j))
    }

    constructor (geo: Geo)
      ensures Follows([])
      ensures Valid() && State() == INIT && fresh(index) && index.geo == geo && subs == map[]
      ensures forall j :: 0 <= j < 5 ==> index.LayersInv(j)
      ensures fresh(index.latsBuf) && fresh(index.lngsBuf) && fresh(index.r2Buf) && fresh(index.r3Buf)
      ensures fresh(index.r4Buf) && fresh(index.r6Buf) && fresh(index.r7Buf)
    {
      index := new Index(geo);
      seqNo, lastSeen, subs, nextSubID := 0, map[], map[], 0;
      addedBuf, updatedBuf, removedBuf, seenIDsBuf := [], [], [], {};
    }

    /** Stamps the entities and splits them into added and updated ones. */
    method SplitPoll(poll: Poll)
      modifies `lastSeen, `addedBuf, `updatedBuf, `seenIDsBuf
      ensures addedBuf == Added(old(lastSeen.Keys), Stamped(poll, seqNo))
      ensures updatedBuf == Updated(old(lastSeen.Keys), Stamped(poll, seqNo))
      ensures seenIDsBuf == Ids(poll)
      ensures lastSeen == map id | id in old(lastSeen).Keys + Ids(poll) ::
        if id in Ids(poll) then seqNo else old(lastSeen)[id]
    {
      hide Ids;
      addedBuf, updatedBuf, seenIDsBuf := [], [], {};
      ghost var known := lastSeen.Keys;
      ghost var es := Stamped(poll, seqNo);
      NothingYet(known);
      assert es[..0] == [];
      for i := 0 to |poll|
        invariant addedBuf == Added(known, es[..i]) && updatedBuf == Updated(known, es[..i])
        invariant seenIDsBuf == Ids(es[..i]) && lastSeen.Keys == known + Ids(es[..i])
        invariant forall id :: id in lastSeen ==>
          lastSeen[id] == if id in Ids(es[..i]) then seqNo else old(lastSeen)[id]
      {
        var e := poll[i].(version := seqNo);
        SplitStep(known, es, i);
        seenIDsBuf := seenIDsBuf + {e.id};
        if e.id !in lastSeen {
          addedBuf := addedBuf + [e];
        } else {
          updatedBuf := updatedBuf + [e];
        }
        lastSeen := lastSeen[e.id := seqNo];
      }
      StampedIds(poll, seqNo);
      assert es[..|poll|] == es;
    }

    /** Evicts the ids missed for the second time and marks those missed for the first. */
    method Sweep(ghost known: map<string, int>, ghost poll: Poll)
      requires 1 <= seqNo < U64
      requires forall id :: id in known ==> known[id] < seqNo
      requires seenIDsBuf == Ids(poll) && (seqNo == 1 ==> lastSeen.Keys <= Ids(poll))
      requires lastSeen == map id | id in known.Keys + Ids(poll) :: if id in Ids(poll) then seqNo else known[id]
      modifies `lastSeen, `removedBuf
      ensures lastSeen == NextSeen(known, poll, seqNo)
      ensures NoDuplicates(removedBuf) && Elements(removedBuf) == Evicted(known, poll, seqNo)
    {
      hide Ids;
      hide Elements;
      hide NoDuplicates;
      hide Evicted;
      hide Sub64;
      NothingEvicted();
      removedBuf := [];
      ghost var before := lastSeen;
      ghost var evicted := Evicted(known, poll, seqNo);
      ghost var done: set<string> := {};
      var todo := lastSeen.Keys;
      while todo != {}
        invariant done !! todo && done + todo == before.Keys
        invariant NoDuplicates(removedBuf) && Elements(removedBuf) == evicted * done
        invariant lastSeen.Keys == before.Keys - Elements(removedBuf)
        invariant forall id :: id in lastSeen ==>
          lastSeen[id] == if id in Ids(poll) || id in todo then before[id] else seqNo - 2
        decreases todo
      {
        var id :| id in todo;
        var lastSeq := lastSeen[id];
        EvictStep(removedBuf, evicted, done, id);
        IsEvicted(known, poll, seqNo, id);
        NoWrap(seqNo, 1);
        if id !in seenIDsBuf {
          if lastSeq < Sub64(seqNo, 1) {
            removedBuf := removedBuf + [id];
            lastSeen := lastSeen - {id};
          } else {
            NoWrap(seqNo, 2);
            lastSeen := lastSeen[id := Sub64(seqNo, 2)];
          }
        }
        done := done + {id};
        todo := todo - {id};
      }
      EvictedMissed(known, poll, seqNo);
      assert evicted * before.Keys == evicted;
    }

    /** Stamps and splits the poll, evicts, and updates the index. */
    method Absorb(poll: Poll)
      requires Valid() && seqNo + 1 < U64 && index.idCounter + |poll| < U32
      modifies `seqNo, `lastSeen, `addedBuf, `updatedBuf, `removedBuf, `seenIDsBuf, index
      modifies index.latsBuf, index.lngsBuf, index.r2Buf, index.r3Buf, index.r4Buf, index.r6Buf, index.r7Buf
      ensures Valid() && index.BuffersKept()
      ensures State() == Applied(index.geo, old(State()), poll)
      ensures forall j :: 0 <= j < 5 && old(index.LayersInv(j)) ==>
        (index.LayersInv(j) <==> KeepsCells(index.geo, old(State()), poll, j))
      ensures IdList(addedBuf) + IdList(updatedBuf) == Changed(old(lastSeen).Keys, poll, seqNo)
      ensures NoDuplicates(removedBuf) && Elements(removedBuf) == Evicted(old(lastSeen), poll, seqNo)
      ensures index.idCounter <= old(index.idCounter) + |poll|
    {
      hide Added;
      hide Updated;
      hide Stamped;
      hide Evicted;
      hide NextSeen;
      hide Inserted;
      hide LosesCell;
      hide Ids;
      hide Index.View;
      hide Index.TablesInv;
      hide Index.LayersInv;
      hide Index.BuffersInv;
      hide Index.SoundAt;
      hide GhostsAfter;
      hide Elements;
      hide NoDuplicates;
      ghost var st := State();
      SplitSize(st.lastSeen.Keys, Stamped(poll, seqNo + 1));
      StampedSize(poll, seqNo + 1);
      seqNo := (seqNo + 1) % U64;
      SplitPoll(poll);
      Sweep(st.lastSeen, poll);
      var combined := addedBuf + updatedBuf;
      index.BatchUpdateRust(combined, removedBuf);
      SeenBelow(st.lastSeen, poll, seqNo);
    }

    lemma FollowsOn(polls: seq<Poll>, poll: Poll, st: StoreState, wasExact: bool)
      requires Valid() && st == After(index.geo, polls) && State() == Applied(index.geo, st, poll)
      requires Intact(index.geo, polls) ==> wasExact
      requires wasExact ==> forall j :: 0 <= j < 5 ==> (index.LayersInv(j) <==> KeepsCells(index.geo, st, poll, j))
      ensures Follows(polls + [poll])
    {
      hide After;
      hide Applied;
      hide Intact;
      hide KeepsCells;
      hide Index.LayersInv;
      hide Index.Valid;
      AfterOneMore(index.geo, polls, poll);
    }

    /** One poll: absorb it and tell the subscribers. The state afterwards is the specified one, and the
        index stays valid; an exact layer stays exact if and only if no entity loses its cell. */
    method Apply(poll: Poll) returns (event: StoreEvent)
      requires Valid() && seqNo + 1 < U64 && index.idCounter + |poll| < U32
      modifies this, index
      modifies index.latsBuf, index.lngsBuf, index.r2Buf, index.r3Buf, index.r4Buf, index.r6Buf, index.r7Buf
      ensures Valid() && index.BuffersKept()
      ensures State() == Applied(index.geo, old(State()), poll)
      ensures forall j :: 0 <= j < 5 && old(index.LayersInv(j)) ==>
        (index.LayersInv(j) <==> KeepsCells(index.geo, old(State()), poll, j))
      ensures forall polls :: old(Follows(polls)) ==> Follows(polls + [poll])
      ensures IsEvent(event, old(lastSeen), poll, seqNo)
      ensures subs == map s | s in old(subs) :: Offered(old(subs)[s], event)
      ensures index.idCounter <= old(index.idCounter) + |poll|
    {
      hide Changed;
      hide Evicted;
      hide Applied;
      hide After;
      hide Intact;
      hide KeepsCells;
      hide Index.View;
      hide Index.TablesInv;
      hide Index.SoundAt;
      hide Index.BuffersInv;
      hide Index.LayersInv;
      hide Index.BuffersKept;
      hide Elements;
      hide NoDuplicates;
      ghost var st, wasExact := State(), forall j :: 0 <= j < 5 ==> index.LayersInv(j);
      Absorb(poll);
      event := StoreEvent(seqNo, IdList(addedBuf) + IdList(updatedBuf), removedBuf);
      subs := map s | s in subs :: Offered(subs[s], event);
      forall polls | old(Follows(polls)) ensures Follows(polls + [poll]) {
        FollowsOn(polls, poll, st, wasExact);
      }
    }

    /** A query into cleared buffers: a complete answer from an exact layer, and one that covers the
        viewport from any. */
    method Query(vp: Viewport) returns (r: Result<(seq<Entity>, map<string, Cluster>)>)
      requires Valid()
      ensures r.Ok? <==> SelectionOf(index.geo, vp).Ok?
      ensures r.Ok? ==> Replies(SourceFor(vp.zoom), vp, r.value.0, r.value.1)
    {
      hide Answers;
      hide Covers;
      hide AnsweredEntities;
      hide ScannedClusters;
      hide Index.At;
      hide Index.HauntedBy;
      hide Index.View;
      ghost var visible, found;
      r, visible, found := index.Query(vp, [], map[]);
      if r.Ok? {
        assert [] + visible == visible;
        assert map[] + found == found;
      }
    }

    method Subscribe() returns (id: int)
      modifies `subs, `nextSubID
      ensures id == old(nextSubID) && subs == old(subs)[id := []] && nextSubID == old(nextSubID) + 1
    {
      id := nextSubID;
      nextSubID := nextSubID + 1;
      subs := subs[id := []];
    }
  }
}
