/** What the store means: a function of its polls, and in the end of the last two polls only. */
module Polls {
  import opened Entities
  import opened Geography
  import opened Contents

  type Poll = seq<Entity>

  datatype StoreState = StoreState(seqNo: nat, lastSeen: map<string, int>, content: Content)

  const INIT := StoreState(0, map[], map[])

  function Stamped(poll: Poll, n: nat): seq<Entity> {
    seq(|poll|, i requires 0 <= i < |poll| => poll[i].(version := n))
  }

  lemma StampedIds(poll: Poll, n: nat)
    ensures Ids(Stamped(poll, n)) == Ids(poll)
    ensures forall e :: e in Stamped(poll, n) ==> e.version == n
  {
    var es := Stamped(poll, n);
    forall id | id in Ids(poll) ensures id in Ids(es) {
      var i :| 0 <= i < |poll| && poll[i].id == id;
      assert es[i] in es && es[i].id == id;
    }
  }

  /** The entities of a poll whose id was unknown when they were met. */
  function Added(known: set<string>, es: seq<Entity>): seq<Entity> {
    if es == [] then [] else
      var front, e := es[..|es| - 1], es[|es| - 1];
      Added(known, front) + if e.id in known || e.id in Ids(front) then [] else [e]
  }

  /** The other ones. */
  function Updated(known: set<string>, es: seq<Entity>): seq<Entity> {
    if es == [] then [] else
      var front, e := es[..|es| - 1], es[|es| - 1];
      Updated(known, front) + if e.id in known || e.id in Ids(front) then [e] else []
  }

  /** The tracked ids that poll `n` misses for the second time. */
  function Evicted(lastSeen: map<string, int>, poll: Poll, n: nat): set<string> {
    set id | id in lastSeen && id !in Ids(poll) && lastSeen[id] < n - 1
  }

  lemma EvictedMissed(lastSeen: map<string, int>, poll: Poll, n: nat)
    ensures Evicted(lastSeen, poll, n) !! Ids(poll) && Evicted(lastSeen, poll, n) <= lastSeen.Keys
  {
  }

  function NextSeen(lastSeen: map<string, int>, poll: Poll, n: nat): map<string, int> {
    map id | id in (lastSeen.Keys + Ids(poll)) - Evicted(lastSeen, poll, n) :: if id in Ids(poll) then n else n - 2
  }

  /** The batch handed to the index: first the added, then the updated entities. */
  function Combined(known: set<string>, poll: Poll, n: nat): seq<Entity> {
    Added(known, Stamped(poll, n)) + Updated(known, Stamped(poll, n))
  }

  function IdList(es: seq<Entity>): seq<string> {
    seq(|es|, i requires 0 <= i < |es| => es[i].id)
  }

  /** The ids that the event of a poll reports as changed. */
  function Changed(known: set<string>, poll: Poll, n: nat): seq<string> {
    IdList(Added(known, Stamped(poll, n))) + IdList(Updated(known, Stamped(poll, n)))
  }

  /** One poll. */
  function Applied(geo: Geo, st: StoreState, poll: Poll): StoreState {
    var n := st.seqNo + 1;
    StoreState(n, NextSeen(st.lastSeen, poll, n),
               Inserted(geo, st.content - Evicted(st.lastSeen, poll, n), Combined(st.lastSeen.Keys, poll, n)))
  }

  /** Poll `poll` takes no entity's cell away at resolution `j`. */
  predicate KeepsCells(geo: Geo, st: StoreState, poll: Poll, j: nat)
    requires j < 5
  {
    var n := st.seqNo + 1;
    !LosesCell(geo, st.content - Evicted(st.lastSeen, poll, n), Combined(st.lastSeen.Keys, poll, n), j)
  }

  function After(geo: Geo, polls: seq<Poll>): StoreState {
    if polls == [] then INIT else Applied(geo, After(geo, polls[..|polls| - 1]), polls[|polls| - 1])
  }

  // ---- Splitting a poll and putting it together again ----

  /** No poll took any entity's cell away. */
  predicate Intact(geo: Geo, polls: seq<Poll>) {
    polls == [] ||
    var front := polls[..|polls| - 1];
    Intact(geo, front) && KeepsAllCells(geo, After(geo, front), polls[|polls| - 1])
  }

  predicate KeepsAllCells(geo: Geo, st: StoreState, poll: Poll) {
    forall j :: 0 <= j < 5 ==> KeepsCells(geo, st, poll, j)
  }

  lemma AfterOneMore(geo: Geo, polls: seq<Poll>, poll: Poll)
    ensures After(geo, polls + [poll]) == Applied(geo, After(geo, polls), poll)
    ensures Intact(geo, polls + [poll]) <==> Intact(geo, polls) && KeepsAllCells(geo, After(geo, polls), poll)
  {
    hide Applied;
    hide KeepsAllCells;
    assert (polls + [poll])[..|polls|] == polls;
  }

  /** All occurrences of one id, in order. */
  function Occurrences(es: seq<Entity>, id: string): seq<Entity> {
    if es == [] then [] else
      Occurrences(es[..|es| - 1], id) + if es[|es| - 1].id == id then [es[|es| - 1]] else []
  }

  lemma {:induction false} OccurrencesConcat(a: seq<Entity>, b: seq<Entity>, id: string)
    ensures Occurrences(a + b, id) == Occurrences(a, id) + Occurrences(b, id)
  {
    if b == [] {
      assert a + b == a;
    } else {
      assert (a + b)[..|a + b| - 1] == a + b[..|b| - 1];
      OccurrencesConcat(a, b[..|b| - 1], id);
    }
  }

  lemma {:induction false} OccurrencesExist(es: seq<Entity>, id: string)
    ensures id in Ids(es) <==> Occurrences(es, id) != []
    ensures forall e :: e in Occurrences(es, id) ==> e in es && e.id == id
  {
    if es != [] {
      OccurrencesExist(es[..|es| - 1], id);
      IdsStep(es, |es| - 1);
      assert es[..|es|] == es;
    }
  }

  lemma IdsStep(es: seq<Entity>, i: nat)
    requires i < |es|
    ensures Ids(es[..i + 1]) == Ids(es[..i]) + {es[i].id}
  {
    assert es[..i + 1] == es[..i] + [es[i]];
  }

  lemma OccurrencesSnoc(es: seq<Entity>, e: Entity, id: string)
    ensures Occurrences(es + [e], id) == Occurrences(es, id) + if e.id == id then [e] else []
  {
    assert (es + [e])[..|es|] == es;
  }

  lemma Regroup<T>(a: seq<T>, b: seq<T>, c: seq<T>)
    ensures a + (b + c) == (a + b) + c
    ensures b == [] || c == [] ==> (a + b) + c == (a + c) + b
  {
  }

  lemma {:induction false} SplitOccurrences(known: set<string>, es: seq<Entity>, id: string)
    ensures Occurrences(Added(known, es), id) + Occurrences(Updated(known, es), id) == Occurrences(es, id)
  {
    hide Ids;
    if es != [] {
      var front, e := es[..|es| - 1], es[|es| - 1];
      SplitOccurrences(known, front, id);
      var a, u := Occurrences(Added(known, front), id), Occurrences(Updated(known, front), id);
      var x := if e.id == id then [e] else [];
      if e.id in known || e.id in Ids(front) {
        assert Added(known, es) == Added(known, front);
        OccurrencesSnoc(Updated(known, front), e, id);
        Regroup(a, u, x);
      } else {
        assert Updated(known, es) == Updated(known, front);
        OccurrencesSnoc(Added(known, front), e, id);
        OccurrencesExist(front, id);
        Regroup(a, x, u);
        assert u == [] || x == [];
      }
    }
  }

  /** Added are exactly the unknown ids of the poll, each once; with SplitOccurrences, each with its first
      entity. All other entities are updates. */
  lemma {:induction false} AddedAre(known: set<string>, es: seq<Entity>)
    ensures Ids(Added(known, es)) == Ids(es) - known && DistinctIds(Added(known, es))
  {
    hide Ids;
    if es == [] {
      NoIdsAtAll();
    } else {
      var front, e := es[..|es| - 1], es[|es| - 1];
      AddedAre(known, front);
      IdsStep(es, |es| - 1);
      assert es[..|es|] == es;
      OneMoreAdded(Added(known, front), e);
      assert Added(known, front) + [] == Added(known, front);
    }
  }

  lemma NoIdsAtAll()
    ensures Ids([]) == {}
  {
  }

  lemma OneMoreAdded(es: seq<Entity>, e: Entity)
    ensures Ids(es + [e]) == Ids(es) + {e.id}
    ensures DistinctIds(es) && e.id !in Ids(es) ==> DistinctIds(es + [e])
  {
    forall id ensures id in Ids(es + [e]) <==> id in Ids(es) + {e.id} {
    }
    if DistinctIds(es) && e.id !in Ids(es) {
      forall i | 0 <= i < |es| ensures es[i].id != e.id {
        assert es[i] in es;
      }
    }
  }

  /** Added then updated keeps the relative order of all occurrences of every id. */
  lemma SplitKeepsOrder(known: set<string>, es: seq<Entity>, id: string)
    ensures Occurrences(Added(known, es) + Updated(known, es), id) == Occurrences(es, id)
  {
    OccurrencesConcat(Added(known, es), Updated(known, es), id);
    SplitOccurrences(known, es, id);
  }

  /** The newest entity reported under an id. */
  function LastOf(es: seq<Entity>, id: string): (e: Entity)
    requires id in Ids(es)
    ensures e in es && e.id == id
  {
    OccurrencesExist(es, id);
    var all := Occurrences(es, id);
    assert all[|all| - 1] in all;
    all[|all| - 1]
  }

  /** Writing entities over a content keeps, for each id, the last one written. */
  lemma {:induction false} InsertedIs(geo: Geo, m: Content, es: seq<Entity>)
    ensures var r := Inserted(geo, m, es);
      && r.Keys == m.Keys + Ids(es)
      && forall id :: id in r ==>
           r[id] == if id in Ids(es) then Rec(LastOf(es, id), CellsOf(geo, LastOf(es, id))) else m[id]
  {
    if es != [] {
      var i := |es| - 1;
      var front, e := es[..i], es[i];
      InsertedIs(geo, m, front);
      IdsStep(es, i);
      assert es[..i + 1] == es;
      LastOfStep(es);
    }
  }

  lemma LastOfStep(es: seq<Entity>)
    requires es != []
    ensures var front, e := es[..|es| - 1], es[|es| - 1];
      && e.id in Ids(es) && LastOf(es, e.id) == e
      && forall id :: id in Ids(front) && id != e.id ==> id in Ids(es) && LastOf(es, id) == LastOf(front, id)
  {
    var e := es[|es| - 1];
    IdsStep(es, |es| - 1);
    assert es[..|es|] == es;
  }

  /** Applying the reordered batch is applying the poll in its own order. */
  lemma SplitKeepsContent(geo: Geo, m: Content, known: set<string>, es: seq<Entity>)
    ensures Inserted(geo, m, Added(known, es) + Updated(known, es)) == Inserted(geo, m, es)
  {
    var split := Added(known, es) + Updated(known, es);
    InsertedIs(geo, m, split);
    InsertedIs(geo, m, es);
    forall id ensures id in Ids(split) <==> id in Ids(es)
              ensures id in Ids(es) ==> LastOf(split, id) == LastOf(es, id)
    {
      SplitKeepsOrder(known, es, id);
      OccurrencesExist(split, id);
      OccurrencesExist(es, id);
    }
  }

  /** Exactly the polled ids are reported as changed. */
  lemma ChangedIs(known: set<string>, poll: Poll, n: nat, id: string)
    ensures id in Changed(known, poll, n) <==> id in Ids(poll)
  {
    var es := Stamped(poll, n);
    StampedIds(poll, n);
    SplitOccurrences(known, es, id);
    OccurrencesExist(es, id);
    OccurrencesExist(Added(known, es), id);
    OccurrencesExist(Updated(known, es), id);
    ListedIds(Added(known, es), id);
    ListedIds(Updated(known, es), id);
  }

  lemma ListedIds(es: seq<Entity>, id: string)
    ensures id in IdList(es) <==> id in Ids(es)
  {
    if id in Ids(es) {
      var e :| e in es && e.id == id;
      var i :| 0 <= i < |es| && es[i] == e;
      assert IdList(es)[i] == id;
    }
    if id in IdList(es) {
      var i :| 0 <= i < |es| && IdList(es)[i] == id;
      assert es[i] in es;
    }
  }
}
