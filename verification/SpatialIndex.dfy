/** The incremental index: five layers and four id tables updated in place. */
module SpatialIndex {
  import opened Entities
  import opened Layers
  import opened Geography
  import opened Contents
  import opened IndexTables
  import opened Batches
  import opened Queries

  const U32: int := 0x1_0000_0000

  function AtEveryResolution<T>(zero: T): (m: map<int, T>)
    ensures m.Keys == {2, 3, 4, 6, 7} && forall res :: res in m ==> m[res] == zero
  {
    map[2 := zero, 3 := zero, 4 := zero, 6 := zero, 7 := zero]
  }

  /** The scratch buffers are separate and have one common length. */
  ghost predicate BuffersOk(lats: array<real>, lngs: array<real>,
                            r2: array<Cell>, r3: array<Cell>, r4: array<Cell>, r6: array<Cell>, r7: array<Cell>)
  {
    && Separate(r2, r3, r4, r6, r7)
    && lats.Length == lngs.Length == r2.Length == r3.Length == r4.Length == r6.Length == r7.Length
    && lats != lngs
  }

  /** The first |es| slots of the five buffers hold the cells of the batch. */
  ghost predicate BuffersHold(geo: Geo, es: seq<Entity>,
                              r2: array<Cell>, r3: array<Cell>, r4: array<Cell>, r6: array<Cell>, r7: array<Cell>)
    reads r2, r3, r4, r6, r7
  {
    && |es| <= r2.Length && |es| <= r3.Length && |es| <= r4.Length && |es| <= r6.Length && |es| <= r7.Length
    && forall i :: 0 <= i < |es| ==> [r2[i], r3[i], r4[i], r6[i], r7[i]] == CellsOf(geo, es[i])
  }

  method FillPositions(es: seq<Entity>, lats: array<real>, lngs: array<real>)
    requires |es| <= lats.Length && |es| <= lngs.Length && lats != lngs
    modifies lats, lngs
    ensures forall k :: 0 <= k < |es| ==> lats[k] == es[k].lat && lngs[k] == es[k].lng
  {
    for i := 0 to |es|
      invariant forall k :: 0 <= k < i ==> lats[k] == es[k].lat && lngs[k] == es[k].lng
    {
      lats[i] := es[i].lat;
      lngs[i] := es[i].lng;
    }
  }

  lemma DistinctByTables(t: Tables)
    requires t.Ok()
    ensures DistinctEntityIds(t.entities)
  {
    forall x, y | x in t.entities && y in t.entities && t.entities[x].id == t.entities[y].id ensures x == y {
      assert t.ids[t.names[x]] == x && t.ids[t.names[y]] == y;
    }
  }

  method CollectCells(cells: seq<Cell>) returns (cellSet: set<Cell>)
    ensures cellSet == Elements(cells)
  {
    cellSet := {};
    for i := 0 to |cells|
      invariant cellSet == Elements(cells[..i])
    {
      ElementsStep(cells, i);
      cellSet := cellSet + {cells[i]};
    }
    assert cells[..|cells|] == cells;
  }

  // ---- Unfolding the specification one step at a time ----

  lemma ResDiffer()
    ensures forall i, j :: 0 <= i < 5 && 0 <= j < 5 && Res(i) == Res(j) ==> i == j
    ensures forall j :: 0 <= j < 5 ==> Res(j) in {2, 3, 4, 6, 7}
  {
  }

  lemma NothingToPrecompute(table: map<string, Id>, cells: map<Id, Cells>)
    ensures forall j :: 0 <= j < 5 ==> JobCells([], j) == RecordedCells(cells, KnownIds(table, []), j)
  {
  }

  lemma JobsOfOne(jobs: seq<RemovalJob>, cells: Cells)
    ensures var more := jobs + [RemovalJob(0, cells[0]), RemovalJob(1, cells[1]), RemovalJob(2, cells[2]),
                                RemovalJob(3, cells[3]), RemovalJob(4, cells[4])];
      forall j :: 0 <= j < 5 ==> JobCells(more, j) == JobCells(jobs, j) + [cells[j]]
  {
    hide JobCells;
    var one := jobs + [RemovalJob(0, cells[0])];
    var two := one + [RemovalJob(1, cells[1])];
    var three := two + [RemovalJob(2, cells[2])];
    var four := three + [RemovalJob(3, cells[3])];
    assert four + [RemovalJob(4, cells[4])] == jobs + [RemovalJob(0, cells[0]), RemovalJob(1, cells[1]),
      RemovalJob(2, cells[2]), RemovalJob(3, cells[3]), RemovalJob(4, cells[4])];
    forall j | 0 <= j < 5 ensures JobCells(four + [RemovalJob(4, cells[4])], j) == JobCells(jobs, j) + [cells[j]] {
      JobCellsSnoc(jobs, RemovalJob(0, cells[0]), j);
      JobCellsSnoc(one, RemovalJob(1, cells[1]), j);
      JobCellsSnoc(two, RemovalJob(2, cells[2]), j);
      JobCellsSnoc(three, RemovalJob(3, cells[3]), j);
      JobCellsSnoc(four, RemovalJob(4, cells[4]), j);
    }
  }

  lemma NoneTakenOut(l: Layer, c: Cell, table: map<string, Id>)
    ensures TakenOut(l, c, KnownIds(table, [])) == l
  {
  }

  lemma TakenOutSnoc(l: Layer, c: Cell, ids: seq<Id>, id: Id)
    ensures TakenOut(l, c, ids + [id]) == TakeOut(TakenOut(l, c, ids), c, id)
  {
    assert (ids + [id])[..|ids|] == ids;
  }

  lemma NoneSwept(ids: seq<Id>)
    ensures forall l, j :: Swept(l, JobCells([], j), ids) == l
  {
  }

  lemma SweptSnoc(l: Layer, cells: seq<Cell>, c: Cell, ids: seq<Id>)
    ensures Swept(l, cells + [c], ids) == TakenOut(Swept(l, cells, ids), c, ids)
  {
    assert (cells + [c])[..|cells|] == cells;
  }

  lemma NoneStored(geo: Geo, t: Tables)
    ensures StoreAll(geo, t, []) == t && forall l, j :: 0 <= j < 5 ==> Followed(geo, t, l, [], j) == l
  {
  }

  lemma StoreAllStep(geo: Geo, t: Tables, es: seq<Entity>, i: nat)
    requires i < |es|
    ensures StoreAll(geo, t, es[..i + 1]) == StoreAll(geo, t, es[..i]).Store(es[i], CellsOf(geo, es[i]))
  {
    PrefixOfPrefix(es, i);
  }

  lemma FollowedStep(geo: Geo, t: Tables, l: Layer, es: seq<Entity>, i: nat, j: nat)
    requires i < |es| && j < 5
    ensures Followed(geo, t, l, es[..i + 1], j) ==
      FollowedOnce(geo, StoreAll(geo, t, es[..i]), Followed(geo, t, l, es[..i], j), es[i], j)
  {
    PrefixOfPrefix(es, i);
    hide FollowedOnce;
  }

  lemma StillOk(t: Tables, removed: seq<string>)
    requires t.Ok()
    ensures var t' := ForgetAll(t, removed);
      t'.Ok() && t'.counter == t.counter && t'.View() == t.View() - Elements(removed)
  {
    ForgetAllView(t, removed);
    ForgetAllTables(t, removed);
  }

  lemma NotBelowFive(visible: seq<Entity>, zoom: int, m: Content, sel: Selection)
    ensures zoom < 5 && Elements(visible) == AnsweredEntities(m, zoom, sel) ==> visible == []
    ensures AnsweredEntities(m, zoom, sel) <= Elements(visible) ==> forall e :: e in AnsweredEntities(m, zoom, sel) ==> e in visible
  {
    if visible != [] {
      assert visible[0] in Elements(visible);
    }
  }

  class Index {
    const geo: Geo

    var entities: map<Id, Entity>
    var layers: map<int, map<Cell, seq<Id>>>
    var globalCellCounts: map<int, map<Cell, int>>
    var totalGlobalCounts: map<int, int>

    var idCounter: nat
    var entityIDToInternalID: map<string, Id>
    var idToEntityID: map<Id, string>
    var entityCells: map<Id, Cells>

    var latsBuf: array<real>
    var lngsBuf: array<real>
    var r2Buf: array<Cell>
    var r3Buf: array<Cell>
    var r4Buf: array<Cell>
    var r6Buf: array<Cell>
    var r7Buf: array<Cell>

    /** The layer at the j-th maintained resolution. */
    ghost function At(j: nat): Layer
      reads this
      requires j < 5
    {
      Layer(Lookup(layers, Res(j), map[]), Lookup(globalCellCounts, Res(j), map[]), Lookup(totalGlobalCounts, Res(j), 0))
    }

    ghost function Tabs(): Tables
      reads this
    {
      Tables(entities, entityCells, entityIDToInternalID, idToEntityID, idCounter)
    }

    ghost predicate TablesInv()
      reads this
    {
      Tabs().Ok() && idCounter < U32 && layers.Keys == {2, 3, 4, 6, 7}
    }

    ghost predicate LayersInv(j: nat)
      reads this
      requires j < 5
    {
      LayerInv(At(j), PlacementOf(entityCells, j))
    }

    ghost predicate BuffersInv()
      reads this
    {
      BuffersOk(latsBuf, lngsBuf, r2Buf, r3Buf, r4Buf, r6Buf, r7Buf)
    }

    ghost predicate SoundAt(j: nat)
      reads this
      requires j < 5
    {
      Sound(At(j), PlacementOf(entityCells, j))
    }

    /** The entries of a layer that no recorded cell accounts for. */
    ghost function Ghosts(j: nat): Listing
      reads this
      requires j < 5 && SoundAt(j)
    {
      GhostsOf(At(j), PlacementOf(entityCells, j))
    }

    /** The tables agree, every record has the cells of its entity's position, and every layer follows them up to its ghosts. */
    ghost predicate Valid()
      reads this
    {
      TablesInv() && Located(geo, View()) && BuffersInv() && forall j :: 0 <= j < 5 ==> SoundAt(j)
    }

    /** The layer that answers at this zoom, if there is one, has no ghosts. */
    ghost predicate ExactFor(zoom: int)
      reads this
    {
      LayerIndex(zoom).Some? ==> LayersInv(LayerIndex(zoom).value)
    }

    /** Each scratch buffer is the one used before, or newly allocated. */
    twostate predicate BuffersKept()
      reads this
    {
      && (latsBuf == old(latsBuf) || fresh(latsBuf)) && (lngsBuf == old(lngsBuf) || fresh(lngsBuf))
      && (r2Buf == old(r2Buf) || fresh(r2Buf)) && (r3Buf == old(r3Buf) || fresh(r3Buf))
      && (r4Buf == old(r4Buf) || fresh(r4Buf)) && (r6Buf == old(r6Buf) || fresh(r6Buf))
      && (r7Buf == old(r7Buf) || fresh(r7Buf))
    }

    /** The abstract content: external id to entity and cells. */
    ghost function View(): Content
      reads this
      requires TablesInv()
    {
      Tabs().View()
    }

    constructor (geo: Geo)
      ensures this.geo == geo && Valid() && View() == map[] && idCounter == 0
      ensures forall j :: 0 <= j < 5 ==> LayersInv(j)
      ensures fresh(latsBuf) && fresh(lngsBuf) && fresh(r2Buf) && fresh(r3Buf) && fresh(r4Buf) && fresh(r6Buf) && fresh(r7Buf)
    {
      this.geo := geo;
      entities, entityIDToInternalID, idToEntityID, entityCells := map[], map[], map[], map[];
      idCounter := 0;
      layers := AtEveryResolution(map[]);
      globalCellCounts := AtEveryResolution(map[]);
      totalGlobalCounts := AtEveryResolution(0);
      latsBuf, lngsBuf := new real[0], new real[0];
      r2Buf, r3Buf, r4Buf := new Cell[0], new Cell[0], new Cell[0];
      r6Buf, r7Buf := new Cell[0], new Cell[0];
      new;
      EmptyLayers();
    }

    lemma EmptyLayers()
      requires entityCells == map[]
      requires layers == AtEveryResolution(map[])
      requires globalCellCounts == AtEveryResolution(map[])
      requires totalGlobalCounts == AtEveryResolution(0)
      ensures forall j :: 0 <= j < 5 ==> LayersInv(j) && SoundAt(j)
    {
      forall j | 0 <= j < 5 ensures LayersInv(j) && SoundAt(j) {
        EmptyLayer(At(j), PlacementOf(entityCells, j));
        SoundlyExact(At(j), PlacementOf(entityCells, j));
      }
    }

    /** The internal id of an external id; a new one comes from the counter. */
    method GetInternalID(id: string) returns (internal: Id)
      requires idCounter + 1 < U32
      modifies `idCounter, `entityIDToInternalID, `idToEntityID
      ensures Tabs() == old(Tabs()).Intern(id) && internal == entityIDToInternalID[id]
    {
      if id in entityIDToInternalID {
        return entityIDToInternalID[id];
      }
      idCounter := (idCounter + 1) % U32;
      internal := idCounter;
      entityIDToInternalID := entityIDToInternalID[id := internal];
      idToEntityID := idToEntityID[internal := id];
    }

    /** Stores new id lists and moves the count of `cell` and the total by `step`. */
    method WriteLayer(j: nat, ids: map<Cell, seq<Id>>, cell: Cell, step: int)
      requires j < 5 && layers.Keys == {2, 3, 4, 6, 7}
      modifies `layers, `globalCellCounts, `totalGlobalCounts
      ensures layers.Keys == {2, 3, 4, 6, 7}
      ensures var was := old(At(j));
        At(j) == Layer(ids, was.counts[cell := Lookup(was.counts, cell, 0) + step], was.total + step)
      ensures forall i :: 0 <= i < 5 && i != j ==> At(i) == old(At(i))
    {
      var res := Res(j);
      layers := layers[res := ids];
      var counts: map<Cell, int> := Lookup(globalCellCounts, res, map[]);
      globalCellCounts := globalCellCounts[res := counts[cell := Lookup(counts, cell, 0) + step]];
      totalGlobalCounts := totalGlobalCounts[res := Lookup(totalGlobalCounts, res, 0) + step];
      forall i | 0 <= i < 5 && i != j ensures At(i) == old(At(i)) {
        assert Res(i) != Res(j);
      }
    }

    /** Finds `internalID` in `ids`, the list of `cell`, and swap-removes it; the layer follows. */
    method SwapRemoveFrom(j: nat, cell: Cell, ids: seq<Id>, internalID: Id) returns (rest: seq<Id>)
      requires j < 5 && layers.Keys == {2, 3, 4, 6, 7}
      requires ids == Lookup(At(j).ids, cell, [])
      modifies `layers, `globalCellCounts, `totalGlobalCounts
      ensures layers.Keys == {2, 3, 4, 6, 7}
      ensures At(j) == TakeOut(old(At(j)), cell, internalID)
      ensures rest == Lookup(At(j).ids, cell, [])
      ensures forall i :: 0 <= i < 5 && i != j ==> At(i) == old(At(i))
    {
      var res := Res(j);
      rest := ids;
      var k := 0;
      while k < |ids|
        invariant k <= |ids| && internalID !in ids[..k]
      {
        if ids[k] == internalID {
          FirstIndexIs(ids, internalID, k);
          var lastIdx := |ids| - 1;
          rest := ids[k := ids[lastIdx]];
          rest := rest[..lastIdx];
          var layer: map<Cell, seq<Id>> := layers[res];
          WriteLayer(j, if |rest| == 0 then layer - {cell} else layer[cell := rest], cell, -1);
          return;
        }
        k := k + 1;
      }
    }

    /** Appends `internalID` to the list of `cell`. */
    method AppendTo(j: nat, cell: Cell, internalID: Id)
      requires j < 5 && layers.Keys == {2, 3, 4, 6, 7}
      modifies `layers, `globalCellCounts, `totalGlobalCounts
      ensures layers.Keys == {2, 3, 4, 6, 7}
      ensures At(j) == PutIn(old(At(j)), cell, internalID)
      ensures forall i :: 0 <= i < 5 && i != j ==> At(i) == old(At(i))
    {
      var res := Res(j);
      var layer: map<Cell, seq<Id>> := layers[res];
      if |Lookup(layer, cell, [])| == 0 {
        layer := layer[cell := []];
      }
      WriteLayer(j, layer[cell := layer[cell] + [internalID]], cell, 1);
    }

    // ---- The two pre-computations ----

    /** An empty index gets fresh, pre-sized tables for the next batch. */
    method ResetWhenEmpty(count: nat)
      requires Tabs().Ok()
      modifies `entities, `entityIDToInternalID, `entityCells
      ensures Tabs() == old(Tabs())
    {
      if |entities| == 0 && count > 0 {
        ResetIsIdle(Tabs());
        entities, entityIDToInternalID, entityCells := map[], map[], map[];
      }
    }

    /** One job per removed live id and resolution, in order. */
    method PrecomputeRemovals(removed: seq<string>) returns (jobs: seq<RemovalJob>)
      ensures forall job :: job in jobs ==> job.j < 5
      ensures forall j :: 0 <= j < 5 ==>
        JobCells(jobs, j) == RecordedCells(entityCells, KnownIds(entityIDToInternalID, removed), j)
    {
      hide JobCells;
      hide RecordedCells;
      hide KnownIds;
      NothingToPrecompute(entityIDToInternalID, entityCells);
      assert removed[..0] == [];
      jobs := [];
      for m := 0 to |removed|
        invariant forall job :: job in jobs ==> job.j < 5
        invariant forall j :: 0 <= j < 5 ==>
          JobCells(jobs, j) == RecordedCells(entityCells, KnownIds(entityIDToInternalID, removed[..m]), j)
      {
        ghost var known := KnownIds(entityIDToInternalID, removed[..m]);
        KnownIdsStep(entityIDToInternalID, removed, m);
        if removed[m] in entityIDToInternalID {
          var internalID := entityIDToInternalID[removed[m]];
          if internalID in entityCells {
            var cells := entityCells[internalID];
            JobsOfOne(jobs, cells);
            jobs := jobs + [RemovalJob(0, cells[0]), RemovalJob(1, cells[1]), RemovalJob(2, cells[2]),
                            RemovalJob(3, cells[3]), RemovalJob(4, cells[4])];
          }
          forall j | 0 <= j < 5 ensures RecordedCells(entityCells, known + [internalID], j) ==
            if internalID in entityCells then RecordedCells(entityCells, known, j) + [entityCells[internalID][j]]
            else RecordedCells(entityCells, known, j)
          {
            RecordedCellsSnoc(entityCells, known, internalID, j);
          }
        }
      }
      assert removed[..|removed|] == removed;
    }

    /** Replaces the scratch buffers when the batch is larger than any before. */
    method GrowBuffers(count: nat)
      requires BuffersInv()
      modifies `latsBuf, `lngsBuf, `r2Buf, `r3Buf, `r4Buf, `r6Buf, `r7Buf
      ensures BuffersInv() && BuffersKept() && count <= r2Buf.Length
    {
      if count > latsBuf.Length {
        latsBuf := new real[count];
        lngsBuf := new real[count];
        r2Buf := new Cell[count];
        r3Buf := new Cell[count];
        r4Buf := new Cell[count];
        r6Buf := new Cell[count];
        r7Buf := new Cell[count];
        assert Separate(r2Buf, r3Buf, r4Buf, r6Buf, r7Buf);
      }
    }

    /** Fills the scratch buffers with the cells of the batch. */
    method ComputeCells(es: seq<Entity>)
      requires BuffersInv()
      modifies `latsBuf, `lngsBuf, `r2Buf, `r3Buf, `r4Buf, `r6Buf, `r7Buf
      modifies latsBuf, lngsBuf, r2Buf, r3Buf, r4Buf, r6Buf, r7Buf
      ensures BuffersInv() && BuffersKept() && BuffersHold(geo, es, r2Buf, r3Buf, r4Buf, r6Buf, r7Buf)
    {
      hide CellOf;
      if |es| == 0 {
        return;
      }
      GrowBuffers(|es|);
      FillPositions(es, latsBuf, lngsBuf);
      ComputeResolutionsBatch(geo, latsBuf, lngsBuf, |es|, r2Buf, r3Buf, r4Buf, r6Buf, r7Buf);
    }

    /** The removal jobs and the cells of the batch, before anything is changed. */
    method Prepare(es: seq<Entity>, removed: seq<string>) returns (removalJobs: seq<RemovalJob>)
      requires TablesInv() && BuffersInv()
      modifies `entities, `entityIDToInternalID, `entityCells
      modifies `latsBuf, `lngsBuf, `r2Buf, `r3Buf, `r4Buf, `r6Buf, `r7Buf
      modifies latsBuf, lngsBuf, r2Buf, r3Buf, r4Buf, r6Buf, r7Buf
      ensures Tabs() == old(Tabs()) && BuffersInv() && BuffersKept()
      ensures BuffersHold(geo, es, r2Buf, r3Buf, r4Buf, r6Buf, r7Buf)
      ensures forall job :: job in removalJobs ==> job.j < 5
      ensures forall j :: 0 <= j < 5 ==>
        JobCells(removalJobs, j) == RecordedCells(entityCells, KnownIds(entityIDToInternalID, removed), j)
    {
      hide Tables.Ok;
      hide BuffersOk;
      hide BuffersHold;
      hide JobCells;
      hide RecordedCells;
      hide KnownIds;
      ResetWhenEmpty(|es|);
      removalJobs := PrecomputeRemovals(removed);
      ComputeCells(es);
    }

    // ---- Removals ----

    /** One job: every removed id in turn leaves the list of the job's cell. */
    method ExecRemovalJob(job: RemovalJob, removed: seq<string>)
      requires job.j < 5 && layers.Keys == {2, 3, 4, 6, 7}
      modifies `layers, `globalCellCounts, `totalGlobalCounts
      ensures layers.Keys == {2, 3, 4, 6, 7}
      ensures At(job.j) == TakenOut(old(At(job.j)), job.cell, KnownIds(entityIDToInternalID, removed))
      ensures forall i :: 0 <= i < 5 && i != job.j ==> At(i) == old(At(i))
    {
      hide TakenOut;
      hide TakeOut;
      hide KnownIds;
      NoneTakenOut(At(job.j), job.cell, entityIDToInternalID);
      assert removed[..0] == [];
      var ids := Lookup(layers[Res(job.j)], job.cell, []);
      for m := 0 to |removed|
        invariant layers.Keys == {2, 3, 4, 6, 7} && ids == Lookup(At(job.j).ids, job.cell, [])
        invariant At(job.j) == TakenOut(old(At(job.j)), job.cell, KnownIds(entityIDToInternalID, removed[..m]))
        invariant forall i :: 0 <= i < 5 && i != job.j ==> At(i) == old(At(i))
      {
        KnownIdsStep(entityIDToInternalID, removed, m);
        if removed[m] in entityIDToInternalID {
          var internalID := entityIDToInternalID[removed[m]];
          TakenOutSnoc(old(At(job.j)), job.cell, KnownIds(entityIDToInternalID, removed[..m]), internalID);
          ids := SwapRemoveFrom(job.j, job.cell, ids, internalID);
        }
      }
      assert removed[..|removed|] == removed;
    }

    /** The quadratic pass: every job against every removed id. */
    method ExecRemovalJobs(jobs: seq<RemovalJob>, removed: seq<string>)
      requires layers.Keys == {2, 3, 4, 6, 7} && forall job :: job in jobs ==> job.j < 5
      modifies `layers, `globalCellCounts, `totalGlobalCounts
      ensures layers.Keys == {2, 3, 4, 6, 7}
      ensures forall j :: 0 <= j < 5 ==>
        At(j) == Swept(old(At(j)), JobCells(jobs, j), KnownIds(entityIDToInternalID, removed))
    {
      hide Swept;
      hide TakenOut;
      hide KnownIds;
      hide JobCells;
      ghost var known := KnownIds(entityIDToInternalID, removed);
      NoneSwept(known);
      assert jobs[..0] == [];
      for n := 0 to |jobs|
        invariant layers.Keys == {2, 3, 4, 6, 7}
        invariant forall j :: 0 <= j < 5 ==> At(j) == Swept(old(At(j)), JobCells(jobs[..n], j), known)
      {
        var job := jobs[n];
        ExecRemovalJob(job, removed);
        forall j | 0 <= j < 5 ensures At(j) == Swept(old(At(j)), JobCells(jobs[..n + 1], j), known) {
          JobCellsStep(jobs, n, j);
          SweptSnoc(old(At(j)), JobCells(jobs[..n], j), job.cell, known);
        }
      }
      assert jobs[..|jobs|] == jobs;
    }

    ghost function Stack(): (s: seq<Layer>)
      reads this
      ensures |s| == 5 && forall j :: 0 <= j < 5 ==> s[j] == At(j)
    {
      [At(0), At(1), At(2), At(3), At(4)]
    }

    /** One removed id leaves the tables. */
    method Forget(id: string)
      modifies `entities, `entityCells, `entityIDToInternalID
      ensures Tabs() == old(Tabs()).Forget(id)
    {
      if id in entityIDToInternalID {
        var internalID := entityIDToInternalID[id];
        entityCells := entityCells - {internalID};
        entities := entities - {internalID};
      }
      entityIDToInternalID := entityIDToInternalID - {id};
    }

    method ForgetRemoved(removed: seq<string>)
      modifies `entities, `entityCells, `entityIDToInternalID
      ensures Tabs() == ForgetAll(old(Tabs()), removed)
    {
      for m := 0 to |removed|
        invariant Tabs() == ForgetAll(old(Tabs()), removed[..m])
      {
        assert removed[..m + 1][..m] == removed[..m];
        Forget(removed[m]);
      }
      assert removed[..|removed|] == removed;
    }

    /** The removals leave the layers, then the tables. */
    method ExecDeletions(jobs: seq<RemovalJob>, removed: seq<string>)
      requires Tabs().Ok() && layers.Keys == {2, 3, 4, 6, 7} && forall job :: job in jobs ==> job.j < 5
      requires forall j :: 0 <= j < 5 ==>
        JobCells(jobs, j) == RecordedCells(entityCells, KnownIds(entityIDToInternalID, removed), j)
      modifies `entities, `entityCells, `entityIDToInternalID, `layers, `globalCellCounts, `totalGlobalCounts
      ensures layers.Keys == {2, 3, 4, 6, 7} && Tabs() == ForgetAll(old(Tabs()), removed) && Tabs().Ok()
      ensures Tabs().View() == old(Tabs().View()) - Elements(removed)
      ensures forall j :: 0 <= j < 5 ==> At(j) == RemovalLayer(old(Tabs()), old(At(j)), removed, j)
      ensures forall j :: 0 <= j < 5 && old(LayersInv(j)) ==> LayersInv(j)
    {
      hide Swept;
      hide JobCells;
      hide RecordedCells;
      hide KnownIds;
      hide ForgetAll;
      hide LayerInv;
      hide PlacementOf;
      hide Tables.Ok;
      hide Tables.View;
      hide Elements;
      ghost var t, stack := Tabs(), Stack();
      StillOk(t, removed);
      ExecRemovalJobs(jobs, removed);
      label swept:
      ForgetRemoved(removed);
      assert forall j :: 0 <= j < 5 ==> At(j) == old@swept(At(j));
      forall j | 0 <= j < 5 && old(LayersInv(j)) ensures LayersInv(j) {
        RemovalExact(t, stack[j], removed, j);
      }
    }

    // ---- Insertions and updates ----

    /** The five layers follow one entity from its recorded cells, if any, to its new ones. */
    method RelocateAll(was: Option<Cells>, newCells: Cells, internalID: Id)
      requires layers.Keys == {2, 3, 4, 6, 7}
      modifies `layers, `globalCellCounts, `totalGlobalCounts
      ensures layers.Keys == {2, 3, 4, 6, 7}
      ensures forall j :: 0 <= j < 5 ==>
        At(j) == Relocate(old(At(j)), CellAt(was, j), newCells[j], internalID)
    {
      hide TakeOut;
      hide PutIn;
      hide Res;
      ResDiffer();
      for j := 0 to 5
        invariant layers.Keys == {2, 3, 4, 6, 7}
        invariant forall i :: 0 <= i < j ==> At(i) == Relocate(old(At(i)), CellAt(was, i), newCells[i], internalID)
        invariant forall i :: j <= i < 5 ==> At(i) == old(At(i))
      {
        var newCell := newCells[j];
        if newCell == 0 {
          continue;
        }
        if was.Some? {
          var oldCell := was.value[j];
          if oldCell != newCell {
            var ids := Lookup(layers[Res(j)], oldCell, []);
            var rest := SwapRemoveFrom(j, oldCell, ids, internalID);
            AppendTo(j, newCell, internalID);
          }
        } else {
          AppendTo(j, newCell, internalID);
        }
      }
    }

    /** One entity of the batch: the tables store it, and every layer follows it from its recorded cell. */
    method InsertOne(e: Entity, newCells: Cells)
      requires Tabs().Ok() && layers.Keys == {2, 3, 4, 6, 7} && idCounter + 1 < U32 && newCells == CellsOf(geo, e)
      modifies `entities, `entityCells, `idCounter, `entityIDToInternalID, `idToEntityID
      modifies `layers, `globalCellCounts, `totalGlobalCounts
      ensures layers.Keys == {2, 3, 4, 6, 7} && Tabs() == old(Tabs()).Store(e, newCells)
      ensures forall j :: 0 <= j < 5 ==> At(j) == FollowedOnce(geo, old(Tabs()), old(At(j)), e, j)
    {
      hide Relocate;
      hide CellsOf;
      KnownIsLive(Tabs(), e.id);
      hide Tables.Ok;
      var internalID := GetInternalID(e.id);
      var was := if internalID in entities then Some(entityCells[internalID]) else None;
      RelocateAll(was, newCells, internalID);
      entityCells := entityCells[internalID := newCells];
      entities := entities[internalID := e];
    }

    /** The entities of the batch, left to right, with the cells in the scratch buffers. */
    method ExecInsertions(es: seq<Entity>)
      requires Tabs().Ok() && layers.Keys == {2, 3, 4, 6, 7} && idCounter + |es| < U32
      requires BuffersHold(geo, es, r2Buf, r3Buf, r4Buf, r6Buf, r7Buf)
      modifies `entities, `entityCells, `idCounter, `entityIDToInternalID, `idToEntityID
      modifies `layers, `globalCellCounts, `totalGlobalCounts
      ensures layers.Keys == {2, 3, 4, 6, 7} && Tabs() == StoreAll(geo, old(Tabs()), es)
      ensures forall j :: 0 <= j < 5 ==> At(j) == Followed(geo, old(Tabs()), old(At(j)), es, j)
    {
      hide CellsOf;
      hide Tables.Ok;
      hide Tables.Store;
      hide FollowedOnce;
      hide StoreAll;
      hide Followed;
      hide KeepsNames;
      ghost var t := Tabs();
      NoneStored(geo, t);
      assert es[..0] == [];
      for i := 0 to |es|
        invariant layers.Keys == {2, 3, 4, 6, 7} && Tabs() == StoreAll(geo, t, es[..i])
        invariant forall j :: 0 <= j < 5 ==> At(j) == Followed(geo, t, old(At(j)), es[..i], j)
      {
        var newCells := [r2Buf[i], r3Buf[i], r4Buf[i], r6Buf[i], r7Buf[i]];
        StoreAllKeeps(geo, t, es[..i]);
        InsertOne(es[i], newCells);
        StoreAllStep(geo, t, es, i);
        forall j | 0 <= j < 5 ensures At(j) == Followed(geo, t, old(At(j)), es[..i + 1], j) {
          FollowedStep(geo, t, old(At(j)), es, i, j);
        }
      }
      assert es[..|es|] == es;
    }

    /** The deletions, then the insertions. */
    method Exec(removalJobs: seq<RemovalJob>, es: seq<Entity>, removed: seq<string>)
      requires TablesInv() && idCounter + |es| < U32 && BuffersHold(geo, es, r2Buf, r3Buf, r4Buf, r6Buf, r7Buf)
      requires forall job :: job in removalJobs ==> job.j < 5
      requires forall j :: 0 <= j < 5 ==>
        JobCells(removalJobs, j) == RecordedCells(entityCells, KnownIds(entityIDToInternalID, removed), j)
      modifies `entities, `entityCells, `idCounter, `entityIDToInternalID, `idToEntityID
      modifies `layers, `globalCellCounts, `totalGlobalCounts
      ensures layers.Keys == {2, 3, 4, 6, 7} && Tabs() == BatchTables(geo, old(Tabs()), es, removed)
      ensures forall j :: 0 <= j < 5 ==> At(j) == BatchLayer(geo, old(Tabs()), old(At(j)), es, removed, j)
    {
      hide Tables.Ok;
      hide BuffersHold;
      hide RemovalLayer;
      hide Followed;
      hide StoreAll;
      hide ForgetAll;
      hide JobCells;
      hide RecordedCells;
      hide KnownIds;
      hide Elements;
      hide Tables.View;
      hide Index.LayersInv;
      hide Index.At;
      StillOk(Tabs(), removed);
      ExecDeletions(removalJobs, removed);
      ExecInsertions(es);
    }

    /** The whole batch on the tables and the layers. */
    method RunBatch(es: seq<Entity>, removed: seq<string>)
      requires TablesInv() && BuffersInv() && idCounter + |es| < U32
      modifies this, latsBuf, lngsBuf, r2Buf, r3Buf, r4Buf, r6Buf, r7Buf
      ensures BuffersInv() && BuffersKept()
      ensures layers.Keys == {2, 3, 4, 6, 7} && Tabs() == BatchTables(geo, old(Tabs()), es, removed)
      ensures forall j :: 0 <= j < 5 ==> At(j) == BatchLayer(geo, old(Tabs()), old(At(j)), es, removed, j)
    {
      hide Tables.Ok;
      hide Tables.View;
      hide BuffersOk;
      hide BuffersHold;
      hide BatchLayer;
      hide BatchTables;
      hide JobCells;
      hide RecordedCells;
      hide KnownIds;
      var removalJobs := Prepare(es, removed);
      label prepared:
      Exec(removalJobs, es, removed);
      assert forall j :: 0 <= j < 5 ==> old@prepared(At(j)) == old(At(j));
    }

    /** What the values say about the index after a batch. */
    lemma AfterBatch(t: Tables, stack: seq<Layer>, es: seq<Entity>, removed: seq<string>, j: nat)
      requires |stack| == 5 && j < 5 && t.Ok() && Sound(stack[j], PlacementOf(t.cells, j))
      requires Tabs() == BatchTables(geo, t, es, removed) && At(j) == BatchLayer(geo, t, stack[j], es, removed, j)
      ensures SoundAt(j) && Ghosts(j) == GhostsAfter(geo, t, GhostsOf(stack[j], PlacementOf(t.cells, j)), es, removed, j)
      ensures LayersInv(j) <==> Ghosts(j) == multiset{}
      ensures LayerInv(stack[j], PlacementOf(t.cells, j)) ==>
        (LayersInv(j) <==> !LosesCell(geo, t.View() - Elements(removed), es, j))
    {
      BatchSound(geo, t, stack[j], es, removed, j);
      hide *;
    }

    /** Applies one batch: removals first, then the entities left to right. The tables always end up
        meaning the specified content. Every layer, damaged before or not, follows them up to the ghosts
        that the batch leaves; an exact layer stays exact if and only if no entity loses its cell. */
    method BatchUpdateRust(es: seq<Entity>, removed: seq<string>)
      requires Valid() && idCounter + |es| < U32
      modifies this, latsBuf, lngsBuf, r2Buf, r3Buf, r4Buf, r6Buf, r7Buf
      ensures Valid() && BuffersKept()
      ensures View() == BatchUpdated(geo, old(View()), es, removed)
      ensures forall j :: 0 <= j < 5 ==>
        Ghosts(j) == GhostsAfter(geo, old(Tabs()), old(Ghosts(j)), es, removed, j) && (LayersInv(j) <==> Ghosts(j) == multiset{})
      ensures forall j :: 0 <= j < 5 && old(LayersInv(j)) ==>
        (LayersInv(j) <==> !LosesCell(geo, old(View()) - Elements(removed), es, j))
      ensures idCounter <= old(idCounter) + |es|
      ensures KeepsNames(old(idToEntityID), idToEntityID)
    {
      hide Tables.Ok;
      hide Tables.View;
      hide LayerInv;
      hide LosesCell;
      hide Inserted;
      hide BuffersOk;
      hide KeepsNames;
      hide Elements;
      hide BatchLayer;
      hide BatchTables;
      hide GhostsAfter;
      hide Sound;
      hide PlacementOf;
      hide GhostsOf;
      hide Located;
      ghost var t, stack := Tabs(), Stack();
      BatchTablesKeep(geo, t, es, removed);
      BatchLocated(geo, t.View(), es, removed);
      assert forall j :: 0 <= j < 5 ==> SoundAt(j) && stack[j] == At(j);
      RunBatch(es, removed);
      forall j | 0 <= j < 5
        ensures SoundAt(j) && Ghosts(j) == GhostsAfter(geo, t, old(Ghosts(j)), es, removed, j)
        ensures LayersInv(j) <==> Ghosts(j) == multiset{}
        ensures old(LayersInv(j)) ==> (LayersInv(j) <==> !LosesCell(geo, t.View() - Elements(removed), es, j))
      {
        AfterBatch(t, stack, es, removed, j);
      }
    }

    lemma ListedInLayer(i: Id, j: nat, c: Cell)
      requires j < 5 && LayersInv(j) && i in entityCells
      ensures i in Lookup(At(j).ids, c, []) <==> entityCells[i][j] != 0 && entityCells[i][j] == c
    {
      InList(At(j), PlacementOf(entityCells, j), c, i);
      hide LayerInv;
    }

    lemma LiveRecord(id: string)
      requires TablesInv() && id in entityIDToInternalID
      ensures var i := entityIDToInternalID[id]; i in entities && i in entityCells && id in View() && View()[id] == Rec(entities[i], entityCells[i])
    {
    }

    /** In exact layers a live entity is listed, at each resolution, in the cell of its own position and in
        no other, or nowhere when the engine rejects the position. */
    lemma ListedWhere(id: string, c: Cell)
      requires Valid() && id in entityIDToInternalID && forall j :: 0 <= j < 5 ==> LayersInv(j)
      ensures layers.Keys == {2, 3, 4, 6, 7} && entityIDToInternalID[id] in entities
      ensures var i := entityIDToInternalID[id]; var p := LatLng(entities[i].lat, entities[i].lng);
        && entities[i].id == id
        && (i in Lookup(layers[2], c, []) <==> geo.accepts(p) && c == geo.cellAt(p, 2))
        && (i in Lookup(layers[3], c, []) <==> geo.accepts(p) && c == geo.cellAt(p, 3))
        && (i in Lookup(layers[4], c, []) <==> geo.accepts(p) && c == geo.cellAt(p, 4))
        && (i in Lookup(layers[6], c, []) <==> geo.accepts(p) && c == geo.cellAt(p, 6))
        && (i in Lookup(layers[7], c, []) <==> geo.accepts(p) && c == geo.cellAt(p, 7))
    {
      hide Tables.Ok;
      hide Index.LayersInv;
      hide Index.SoundAt;
      LiveRecord(id);
      hide Index.View;
      assert LocatedAt(geo, id, View()[id]);
      var i := entityIDToInternalID[id];
      assert LayersInv(0) && LayersInv(1) && LayersInv(2) && LayersInv(3) && LayersInv(4);
      ListedInLayer(i, 0, c);
      ListedInLayer(i, 1, c);
      ListedInLayer(i, 2, c);
      ListedInLayer(i, 3, c);
      ListedInLayer(i, 4, c);
    }

    // ---- Queries ----

    lemma ReadyToScan(j: nat)
      requires j < 5 && Valid()
      ensures At(j) == Layer(layers[Res(j)], Lookup(globalCellCounts, Res(j), map[]), Lookup(totalGlobalCounts, Res(j), 0))
      ensures 0 !in At(j).ids && DistinctEntityIds(entities)
      ensures Lists(At(j), Exactly(PlacementOf(entityCells, j)) + Ghosts(j))
    {
      assert SoundAt(j);
      assert Lists(At(j), Exactly(PlacementOf(entityCells, j)) + Ghosts(j));
      DistinctByTables(Tabs());
    }

    /** The live entities that a query shows because of a ghost in view. */
    ghost function HauntedBy(zoom: int, sel: Selection): set<Entity>
      reads this
      requires Valid()
    {
      if zoom < 5 then {} else
        assert SoundAt(LayerIndex(zoom).value);
        EntitiesOf(entities, GhostIds(Ghosts(LayerIndex(zoom).value), sel))
    }

    /** Answers from the layer of one resolution, if there is one. */
    method Answer(res: int, zoom: int, sel: Selection, outClusters: map<string, Cluster>)
      returns (visible: seq<Entity>, clusters: map<string, Cluster>, ghost found: map<string, Cluster>)
      requires Valid() && res == ZoomToResolution(zoom)
      ensures clusters == outClusters + found && DistinctIds(visible) && (zoom < 5 ==> visible == [])
      ensures Elements(visible) == AnsweredEntities(View(), zoom, sel) + HauntedBy(zoom, sel)
      ensures forall e :: e in visible ==> e.id in View() && e == View()[e.id].entity
      ensures forall name :: name in found ==> IsClusterName(name)
      ensures ExactFor(zoom) ==> HauntedBy(zoom, sel) == {} && found == AnsweredClusters(geo, View(), zoom, sel)
      ensures LayerIndex(zoom).Some? ==> found == ScannedClusters(geo, At(LayerIndex(zoom).value), sel, zoom < 5)
    {
      hide LayerInv;
      hide Lists;
      hide Exactly;
      hide Named;
      hide SeenBy;
      hide Tables.Ok;
      hide Tables.View;
      hide PlacementOf;
      hide Met;
      hide ScannedClusters;
      hide DistinctEntityIds;
      hide AnsweredEntities;
      hide AnsweredClusters;
      var onlyClusters := zoom < 5;
      if res in layers {
        ghost var j := LayerIndex(zoom).value;
        var layer := Layer(layers[res], Lookup(globalCellCounts, res, map[]), Lookup(totalGlobalCounts, res, 0));
        ReadyToScan(j);
        visible, clusters := QueryLayer(geo, entities, layer, sel, onlyClusters, outClusters);
        found := ScannedClusters(geo, layer, sel, onlyClusters);
        ScannedNames(geo, layer, sel, onlyClusters);
        HauntedAnswer(Tabs(), layer, Ghosts(j), j, zoom, sel, visible);
        if ExactFor(zoom) {
          AnswerIsSpecified(geo, Tabs(), layer, j, zoom, sel, visible);
          SoundlyExact(layer, PlacementOf(entityCells, j));
        }
      } else {
        // Nobody maintains the resolution of zoom 4: there is nothing to scan.
        NothingToScan(geo, View(), zoom, sel, outClusters);
        visible, clusters, found := [], outClusters, map[];
      }
    }

    /** Answers a viewport query. From an exact layer the answer is what the abstract content says; from a
        damaged one it also lists the live entities that have a ghost in view, and nothing else. */
    method Query(vp: Viewport, outVisible: seq<Entity>, outClusters: map<string, Cluster>)
      returns (r: Result<(seq<Entity>, map<string, Cluster>)>, ghost visible: seq<Entity>, ghost found: map<string, Cluster>)
      requires Valid()
      ensures r.Ok? <==> SelectionOf(geo, vp).Ok?
      ensures r.Err? <==>
        && !(vp.north >= 90.0 && vp.south <= -90.0 && vp.east >= 180.0 && vp.west <= -180.0)
        && ViewportCells(geo, vp, if vp.zoom < 4 then 3 else if vp.zoom < 5 then 5 else if vp.zoom < 8 then 6 else 7).Err?
      ensures r.Ok? ==> r.value == (outVisible + visible, outClusters + found)
      ensures r.Ok? ==> Covers(geo, View(), vp, visible, found)
      ensures r.Ok? ==> var sel := SelectionOf(geo, vp).value;
        Elements(visible) == AnsweredEntities(View(), vp.zoom, sel) + HauntedBy(vp.zoom, sel)
      ensures r.Ok? && ExactFor(vp.zoom) ==> Answers(geo, View(), vp, visible, found)
      ensures r.Ok? && ExactFor(vp.zoom) ==> ListsByPosition(geo, View(), vp, visible)
      ensures r.Ok? && ExactFor(vp.zoom) && vp.zoom < 4 ==> ClustersByPosition(geo, View(), vp, found)
      ensures r.Ok? && vp.zoom == 4 ==> visible == [] && found == map[]
      ensures r.Ok? && ExactFor(vp.zoom) && vp.zoom >= 5 ==> CountsOutside(geo, View(), visible, found)
      ensures r.Ok? && LayerIndex(vp.zoom).Some? ==>
        found == ScannedClusters(geo, At(LayerIndex(vp.zoom).value), SelectionOf(geo, vp).value, vp.zoom < 5)
    {
      hide Index.HauntedBy;
      hide Index.View;
      hide Index.LayersInv;
      hide AnsweredClusters;
      hide IsClusterName;
      hide ListsByPosition;
      hide ClustersByPosition;
      hide CountsOutside;
      hide Located;
      hide ScannedClusters;
      hide Index.At;
      visible, found := [], map[];
      var queryResolution := ZoomToResolution(vp.zoom);
      var sel := Everywhere;
      if !vp.IsGlobal() {
        var viewportCells := ViewportToCells(geo, vp, queryResolution);
        if viewportCells.Err? {
          return Err, visible, found;
        }
        var cellSet := CollectCells(viewportCells.value);
        sel := Within(cellSet);
      }
      assert SelectionOf(geo, vp) == Ok(sel);
      var listed, clusters;
      listed, clusters, found := Answer(queryResolution, vp.zoom, sel, outClusters);
      visible := listed;
      NotBelowFive(visible, vp.zoom, View(), sel);
      if ExactFor(vp.zoom) {
        AnswerByPosition(geo, View(), vp, visible, found);
      }
      return Ok((outVisible + listed, clusters)), visible, found;
    }
  }
}
