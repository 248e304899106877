/** The index as values: its id tables, its removal jobs, and how they track the content. */
module IndexTables {
  import opened Entities
  import opened Layers
  import opened Geography
  import opened Contents

  /** The placement at resolution `j` that the table of recorded cells stands for. */
  function PlacementOf(cells: map<Id, Cells>, j: nat): Placement
    requires j < 5
  {
    map id | id in cells && cells[id][j] != 0 :: cells[id][j]
  }

  lemma PlacementUpdate(cells: map<Id, Cells>, id: Id, now: Cells, j: nat)
    requires j < 5
    ensures PlacementOf(cells[id := now], j) == Placed(PlacementOf(cells, j), id, now[j])
  {
  }

  lemma EmptyLayer(l: Layer, at: Placement)
    requires l == Layer(map[], map[], 0) && at == map[]
    ensures LayerInv(l, at)
  {
  }

  /** The internal ids of a list of external ids, in order; unknown ids have none. */
  function KnownIds(table: map<string, Id>, ids: seq<string>): seq<Id> {
    if ids == [] then [] else
      var last := ids[|ids| - 1];
      KnownIds(table, ids[..|ids| - 1]) + if last in table then [table[last]] else []
  }

  lemma KnownIdsStep(table: map<string, Id>, ids: seq<string>, m: nat)
    requires m < |ids|
    ensures KnownIds(table, ids[..m + 1]) ==
      if ids[m] in table then KnownIds(table, ids[..m]) + [table[ids[m]]] else KnownIds(table, ids[..m])
  {
    PrefixOfPrefix(ids, m);
  }

  lemma {:induction false} KnownIdsAre(table: map<string, Id>, ids: seq<string>)
    ensures forall i :: i in KnownIds(table, ids) <==> exists s :: s in ids && s in table && table[s] == i
  {
    if ids != [] {
      var m := |ids| - 1;
      KnownIdsAre(table, ids[..m]);
      assert ids == ids[..m] + [ids[m]];
    }
  }

  /** The four live-id tables and the id counter, as one value. */
  datatype Tables = Tables(
    entities: map<Id, Entity>,
    cells: map<Id, Cells>,
    ids: map<string, Id>,
    names: map<Id, string>,
    counter: nat
  ) {
    /** The live-id tables share one domain and are inverse to each other; every internal id ever
        given out lies below the counter. */
    ghost predicate Ok() {
      && entities.Keys == cells.Keys
      && (forall s :: s in ids ==>
            ids[s] in entities && ids[s] in names && names[ids[s]] == s && entities[ids[s]].id == s)
      && (forall i :: i in entities ==> i in names && names[i] in ids && ids[names[i]] == i)
      && (forall i :: i in names ==> 1 <= i <= counter)
    }

    /** The abstract content: external id to entity and cells. */
    ghost function View(): Content
      requires Ok()
    {
      map s | s in ids :: Rec(entities[ids[s]], cells[ids[s]])
    }

    ghost function Forget(s: string): Tables {
      if s !in ids then this
      else Tables(entities - {ids[s]}, cells - {ids[s]}, ids - {s}, names, counter)
    }

    ghost function Intern(s: string): Tables {
      if s in ids then this
      else Tables(entities, cells, ids[s := counter + 1], names[counter + 1 := s], counter + 1)
    }

    ghost function Store(e: Entity, at: Cells): Tables {
      var t := Intern(e.id);
      t.(entities := t.entities[t.ids[e.id] := e], cells := t.cells[t.ids[e.id] := at])
    }
  }

  lemma ForgetKeeps(t: Tables, s: string)
    requires t.Ok()
    ensures t.Forget(s).Ok() && t.Forget(s).View() == t.View() - {s}
  {
    var t' := t.Forget(s);
    if s in t.ids {
      var gone := t.ids[s];
      forall i | i in t'.entities ensures i in t'.names && t'.names[i] in t'.ids && t'.ids[t'.names[i]] == i {
        assert i in t.entities;
      }
      forall r | r in t'.ids
        ensures t'.ids[r] in t'.entities && t'.ids[r] in t'.names && t'.names[t'.ids[r]] == r && t'.entities[t'.ids[r]].id == r
      {
        assert r in t.ids && t.ids[r] != gone;
      }
    }
    assert t'.View().Keys == (t.View() - {s}).Keys;
  }

  lemma StoreKnownOk(t: Tables, e: Entity, at: Cells)
    requires t.Ok() && e.id in t.ids
    ensures t.Store(e, at).Ok()
  {
    var t' := t.Store(e, at);
    assert t'.entities.Keys == t.entities.Keys && t'.cells.Keys == t.cells.Keys;
    assert forall r :: r in t.ids && r != e.id ==> t.ids[r] != t.ids[e.id];
  }

  lemma StoreNewOk(t: Tables, e: Entity, at: Cells)
    requires t.Ok() && e.id !in t.ids
    ensures t.Store(e, at).Ok()
  {
    var t', i := t.Store(e, at), t.counter + 1;
    assert i !in t.names && i !in t.entities;
    forall k | k in t'.entities ensures k in t'.names && t'.names[k] in t'.ids && t'.ids[t'.names[k]] == k {
      assert k == i || k in t.entities;
    }
  }

  lemma StoreOk(t: Tables, e: Entity, at: Cells)
    requires t.Ok()
    ensures t.Store(e, at).Ok()
  {
    hide Tables.Ok;
    hide Tables.Store;
    if e.id in t.ids {
      StoreKnownOk(t, e, at);
    } else {
      StoreNewOk(t, e, at);
    }
  }

  /** Internal ids keep their meaning for ever: none is handed out twice. */
  ghost predicate KeepsNames(before: map<Id, string>, after: map<Id, string>) {
    forall i :: i in before ==> i in after && after[i] == before[i]
  }

  lemma KeepsNamesTwice(a: map<Id, string>, b: map<Id, string>, c: map<Id, string>)
    ensures KeepsNames(a, a)
    ensures KeepsNames(a, b) && KeepsNames(b, c) ==> KeepsNames(a, c)
  {
  }

  lemma StoreLeaves(t: Tables, e: Entity, at: Cells, r: string)
    requires t.Ok() && r in t.ids && r != e.id
    ensures var t', i := t.Store(e, at), t.ids[r];
      && r in t'.ids && t'.ids[r] == i && i in t'.entities && i in t'.cells
      && t'.entities[i] == t.entities[i] && t'.cells[i] == t.cells[i]
  {
  }

  lemma StoreSets(t: Tables, e: Entity, at: Cells)
    ensures var t' := t.Store(e, at);
      && t'.ids.Keys == t.ids.Keys + {e.id}
      && t'.ids[e.id] in t'.entities && t'.entities[t'.ids[e.id]] == e
      && t'.ids[e.id] in t'.cells && t'.cells[t'.ids[e.id]] == at
  {
  }

  lemma StoreNames(t: Tables, e: Entity, at: Cells)
    requires t.Ok()
    ensures KeepsNames(t.names, t.Store(e, at).names) && t.Store(e, at).counter <= t.counter + 1
  {
  }

  lemma StoreKeeps(t: Tables, e: Entity, at: Cells)
    requires t.Ok()
    ensures KeepsNames(t.names, t.Store(e, at).names) && t.Store(e, at).counter <= t.counter + 1
    ensures t.Store(e, at).Ok() && t.Store(e, at).View() == t.View()[e.id := Rec(e, at)]
  {
    hide Tables.Ok;
    hide Tables.Store;
    hide KeepsNames;
    StoreNames(t, e, at);
    StoreOk(t, e, at);
    StoreSets(t, e, at);
    var was, now := t.View()[e.id := Rec(e, at)], t.Store(e, at).View();
    assert now.Keys == was.Keys;
    forall r | r in now ensures now[r] == was[r] {
      if r != e.id {
        StoreLeaves(t, e, at, r);
      }
    }
  }

  ghost function ForgetAll(t: Tables, removed: seq<string>): Tables {
    if removed == [] then t
    else ForgetAll(t, removed[..|removed| - 1]).Forget(removed[|removed| - 1])
  }

  lemma {:induction false} ForgetAllView(t: Tables, removed: seq<string>)
    requires t.Ok()
    ensures ForgetAll(t, removed).Ok() && ForgetAll(t, removed).View() == t.View() - Elements(removed)
  {
    if removed != [] {
      var m := |removed| - 1;
      assert removed[..m + 1] == removed;
      ForgetAllView(t, removed[..m]);
      ForgetKeeps(ForgetAll(t, removed[..m]), removed[m]);
      ElementsStep(removed, m);
      MinusTwice(t.View(), Elements(removed[..m]), {removed[m]});
    }
  }

  lemma {:induction false} ForgetAllTables(t: Tables, removed: seq<string>)
    ensures var t' := ForgetAll(t, removed); var gone := Elements(KnownIds(t.ids, removed));
      && t'.ids == t.ids - Elements(removed)
      && t'.cells == t.cells - gone && t'.entities == t.entities - gone
      && t'.names == t.names && t'.counter == t.counter
  {
    hide KnownIds;
    hide Elements;
    if removed == [] {
      NothingKnown(t.ids);
    } else {
      var m := |removed| - 1;
      assert removed[..m + 1] == removed;
      var known := KnownIds(t.ids, removed[..m]);
      ForgetAllTables(t, removed[..m]);
      KnownElements(t.ids, removed, m);
      ElementsStep(removed, m);
      var more := if removed[m] in t.ids then {t.ids[removed[m]]} else {};
      MinusTwice(t.ids, Elements(removed[..m]), {removed[m]});
      MinusTwice(t.cells, Elements(known), more);
      MinusTwice(t.entities, Elements(known), more);
    }
  }

  lemma NothingKnown(table: map<string, Id>)
    ensures Elements(KnownIds(table, [])) == {} && Elements<string>([]) == {}
  {
  }

  lemma KnownElements(table: map<string, Id>, removed: seq<string>, m: nat)
    requires m < |removed|
    ensures var known := Elements(KnownIds(table, removed[..m]));
      && Elements(KnownIds(table, removed[..m + 1])) == known + (if removed[m] in table then {table[removed[m]]} else {})
      && (removed[m] in table && removed[m] in Elements(removed[..m]) ==> table[removed[m]] in known)
  {
    KnownIdsStep(table, removed, m);
    KnownIdsAre(table, removed[..m]);
  }

  lemma KnownIdsLive(t: Tables, removed: seq<string>)
    requires t.Ok()
    ensures forall i :: i in KnownIds(t.ids, removed) ==> i in t.entities && i in t.cells
  {
    KnownIdsAre(t.ids, removed);
  }

  /** The tables once the entities have been stored, left to right. */
  ghost function StoreAll(geo: Geo, t: Tables, es: seq<Entity>): Tables {
    if es == [] then t else
      var e := es[|es| - 1];
      StoreAll(geo, t, es[..|es| - 1]).Store(e, CellsOf(geo, e))
  }

  lemma {:induction false} StoreAllKeeps(geo: Geo, t: Tables, es: seq<Entity>)
    requires t.Ok()
    ensures var t' := StoreAll(geo, t, es);
      && t'.Ok() && t'.View() == Inserted(geo, t.View(), es)
      && KeepsNames(t.names, t'.names) && t.counter <= t'.counter <= t.counter + |es|
  {
    hide Tables.Ok;
    hide Tables.View;
    hide CellsOf;
    if es == [] {
      KeepsNamesTwice(t.names, t.names, t.names);
    } else {
      var m := |es| - 1;
      var t0 := StoreAll(geo, t, es[..m]);
      StoreAllKeeps(geo, t, es[..m]);
      StoreKeeps(t0, es[m], CellsOf(geo, es[m]));
      KeepsNamesTwice(t.names, t0.names, StoreAll(geo, t, es).names);
      hide KeepsNames;
    }
  }

  datatype RemovalJob = RemovalJob(j: nat, cell: Cell)

  /** The cells of the jobs for one resolution, in order. */
  function JobCells(jobs: seq<RemovalJob>, j: nat): seq<Cell> {
    if jobs == [] then [] else
      var job := jobs[|jobs| - 1];
      JobCells(jobs[..|jobs| - 1], j) + if job.j == j then [job.cell] else []
  }

  lemma JobCellsSnoc(jobs: seq<RemovalJob>, job: RemovalJob, j: nat)
    ensures JobCells(jobs + [job], j) == if job.j == j then JobCells(jobs, j) + [job.cell] else JobCells(jobs, j)
  {
    assert (jobs + [job])[..|jobs|] == jobs;
  }

  lemma JobCellsStep(jobs: seq<RemovalJob>, n: nat, j: nat)
    requires n < |jobs|
    ensures JobCells(jobs[..n + 1], j) ==
      if jobs[n].j == j then JobCells(jobs[..n], j) + [jobs[n].cell] else JobCells(jobs[..n], j)
  {
    PrefixOfPrefix(jobs, n);
  }

  /** The recorded cells of a list of internal ids, in order. */
  function RecordedCells(cells: map<Id, Cells>, ids: seq<Id>, j: nat): seq<Cell>
    requires j < 5
  {
    if ids == [] then [] else
      var last := ids[|ids| - 1];
      RecordedCells(cells, ids[..|ids| - 1], j) + if last in cells then [cells[last][j]] else []
  }

  lemma RecordedCellsSnoc(cells: map<Id, Cells>, ids: seq<Id>, i: Id, j: nat)
    requires j < 5
    ensures RecordedCells(cells, ids + [i], j) ==
      if i in cells then RecordedCells(cells, ids, j) + [cells[i][j]] else RecordedCells(cells, ids, j)
  {
    assert (ids + [i])[..|ids|] == ids;
  }

  /** The cell at one resolution, if cells are recorded. */
  function CellAt(cells: Option<Cells>, j: nat): Option<Cell>
    requires j < 5
  {
    if cells.Some? then Some(cells.value[j]) else None
  }

  /** Looking an entity up by its internal id tells whether the external id was known. */
  lemma KnownIsLive(t: Tables, id: string)
    requires t.Ok()
    ensures var i := t.Intern(id).ids[id]; i in t.entities <==> id in t.ids
    ensures id in t.ids ==> t.ids[id] in t.cells
    ensures forall j :: 0 <= j < 5 ==>
      Recorded(t.View(), id, j) == CellAt(if id in t.ids then Some(t.cells[t.ids[id]]) else None, j)
  {
  }

  lemma RecordsAgree(t: Tables, e: Entity, now: Cells, j: nat)
    requires j < 5 && t.Ok()
    ensures var t' := t.Store(e, now);
      && Records(PlacementOf(t.cells, j), Recorded(t.View(), e.id, j), t'.ids[e.id])
      && PlacementOf(t'.cells, j) == Placed(PlacementOf(t.cells, j), t'.ids[e.id], now[j])
  {
    PlacementUpdate(t.cells, t.Store(e, now).ids[e.id], now, j);
  }

  lemma ResetIsIdle(t: Tables)
    requires t.Ok() && |t.entities| == 0
    ensures t.entities == map[] && t.ids == map[] && t.cells == map[]
  {
    assert t.ids != map[] ==> exists s :: s in t.ids;
    assert t.cells.Keys == {};
  }

  lemma ElementsStep<T>(s: seq<T>, m: nat)
    requires m < |s|
    ensures Elements(s[..m + 1]) == Elements(s[..m]) + {s[m]}
  {
    assert s[..m + 1] == s[..m] + [s[m]];
  }

  lemma MinusTwice<K, V>(m: map<K, V>, a: set<K>, b: set<K>)
    ensures (m - a) - b == m - (a + b)
  {
  }
}
