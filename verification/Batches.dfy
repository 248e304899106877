/** What a batch does to a layer, whatever state the layer is in: the entries it strikes out, those it
    moves, and the ghosts it leaves behind or clears. */
module Batches {
  import opened Entities
  import opened Layers
  import opened Geography
  import opened Contents
  import opened IndexTables

  // ---- The layer after a batch ----

  /** One removal job: the removed ids in order. */
  function TakenOut(l: Layer, c: Cell, ids: seq<Id>): Layer {
    if ids == [] then l else TakeOut(TakenOut(l, c, ids[..|ids| - 1]), c, ids[|ids| - 1])
  }

  /** All jobs of one resolution, each against all removed ids. */
  function Swept(l: Layer, cells: seq<Cell>, ids: seq<Id>): Layer {
    if cells == [] then l else TakenOut(Swept(l, cells[..|cells| - 1], ids), cells[|cells| - 1], ids)
  }

  /** The removal pass: one job for every recorded cell of every removed id, in order. */
  ghost function RemovalLayer(t: Tables, l: Layer, removed: seq<string>, j: nat): Layer
    requires j < 5
  {
    var ids := KnownIds(t.ids, removed);
    Swept(l, RecordedCells(t.cells, ids, j), ids)
  }

  /** The insertions, each from the cell recorded when its turn comes. */
  ghost function Followed(geo: Geo, t: Tables, l: Layer, es: seq<Entity>, j: nat): Layer
    requires j < 5
  {
    if es == [] then l else
      var front, e := es[..|es| - 1], es[|es| - 1];
      FollowedOnce(geo, StoreAll(geo, t, front), Followed(geo, t, l, front, j), e, j)
  }

  ghost function FollowedOnce(geo: Geo, t: Tables, l: Layer, e: Entity, j: nat): Layer
    requires j < 5
  {
    Relocate(l, WasAt(t, e.id, j), CellsOf(geo, e)[j], t.Intern(e.id).ids[e.id])
  }

  ghost function WasAt(t: Tables, id: string, j: nat): Option<Cell>
    requires j < 5
  {
    if id in t.ids && t.ids[id] in t.cells then Some(t.cells[t.ids[id]][j]) else None
  }

  ghost function BatchTables(geo: Geo, t: Tables, es: seq<Entity>, removed: seq<string>): Tables {
    StoreAll(geo, ForgetAll(t, removed), es)
  }

  ghost function BatchLayer(geo: Geo, t: Tables, l: Layer, es: seq<Entity>, removed: seq<string>, j: nat): Layer
    requires j < 5
  {
    Followed(geo, ForgetAll(t, removed), RemovalLayer(t, l, removed, j), es, j)
  }

  // ---- The ghosts after a batch ----

  /** The entries one removal job strikes, as far as they are there. */
  function Strike(c: Cell, ids: seq<Id>): Listing {
    if ids == [] then multiset{} else Strike(c, ids[..|ids| - 1]) + multiset{Entry(c, ids[|ids| - 1])}
  }

  function Strikes(cells: seq<Cell>, ids: seq<Id>): Listing {
    if cells == [] then multiset{} else Strikes(cells[..|cells| - 1], ids) + Strike(cells[|cells| - 1], ids)
  }

  /** The strikes of a removal list at one resolution. */
  ghost function RemovalStrikes(t: Tables, removed: seq<string>, j: nat): Listing
    requires j < 5
  {
    var ids := KnownIds(t.ids, removed);
    Strikes(RecordedCells(t.cells, ids, j), ids)
  }

  /** The ghosts the insertions leave behind. */
  ghost function LostBy(geo: Geo, t: Tables, es: seq<Entity>, j: nat): Listing
    requires j < 5
  {
    if es == [] then multiset{} else
      var front, e := es[..|es| - 1], es[|es| - 1];
      var t0 := StoreAll(geo, t, front);
      LostBy(geo, t, front, j) + Lost(WasAt(t0, e.id, j), CellsOf(geo, e)[j], t0.Intern(e.id).ids[e.id])
  }

  /** The ghosts after a batch: strikes beyond what the removed entities themselves take up clear old
      ghosts, and entities that vanish add new ones. */
  ghost function GhostsAfter(geo: Geo, t: Tables, ghosts: Listing, es: seq<Entity>, removed: seq<string>, j: nat): Listing
    requires j < 5
  {
    (ghosts - (RemovalStrikes(t, removed, j) - Exactly(PlacementOf(t.cells, j))))
      + LostBy(geo, ForgetAll(t, removed), es, j)
  }

  // ---- Removals ----

  lemma {:induction false} TakenOutLists(l: Layer, all: Listing, c: Cell, ids: seq<Id>)
    requires Lists(l, all)
    ensures Lists(TakenOut(l, c, ids), all - Strike(c, ids))
  {
    hide Lists;
    hide TakeOut;
    if ids == [] {
      assert all - multiset{} == all;
    } else {
      var front, id := ids[..|ids| - 1], ids[|ids| - 1];
      TakenOutLists(l, all, c, front);
      TakeOutKeeps(TakenOut(l, c, front), all - Strike(c, front), c, id);
      assert all - Strike(c, ids) == all - Strike(c, front) - multiset{Entry(c, id)};
    }
  }

  lemma {:induction false} SweptLists(l: Layer, all: Listing, cells: seq<Cell>, ids: seq<Id>)
    requires Lists(l, all)
    ensures Lists(Swept(l, cells, ids), all - Strikes(cells, ids))
  {
    hide Lists;
    hide TakenOut;
    hide Strike;
    if cells == [] {
      assert all - multiset{} == all;
    } else {
      var front, c := cells[..|cells| - 1], cells[|cells| - 1];
      SweptLists(l, all, front, ids);
      TakenOutLists(Swept(l, front, ids), all - Strikes(front, ids), c, ids);
      assert all - Strikes(cells, ids) == all - Strikes(front, ids) - Strike(c, ids);
    }
  }

  function Count<T(==)>(s: seq<T>, x: T): nat {
    multiset(s)[x]
  }

  lemma {:induction false} StrikeCount(c: Cell, ids: seq<Id>, x: Entry)
    ensures Strike(c, ids)[x] == if x.cell == c then Count(ids, x.id) else 0
  {
    if ids != [] {
      var front, id := ids[..|ids| - 1], ids[|ids| - 1];
      StrikeCount(c, front, x);
      assert ids == front + [id];
    }
  }

  /** An entry is struck once for every job of its cell and every mention of its id. */
  lemma {:induction false} StrikesCount(cells: seq<Cell>, ids: seq<Id>, x: Entry)
    ensures Strikes(cells, ids)[x] == Product(Count(cells, x.cell), Count(ids, x.id))
  {
    hide Product;
    hide Count;
    hide Strike;
    NoneCounted(x.cell);
    OneMoreTime(0, Count(ids, x.id));
    if cells != [] {
      var front, c := cells[..|cells| - 1], cells[|cells| - 1];
      StrikesCount(front, ids, x);
      StrikeCount(c, ids, x);
      CountLast(cells, x.cell);
      OneMoreTime(Count(front, x.cell), Count(ids, x.id));
    }
  }

  lemma NoneCounted<T>(x: T)
    ensures Count([], x) == 0
  {
  }

  lemma CountLast<T>(s: seq<T>, x: T)
    requires s != []
    ensures Count(s, x) == Count(s[..|s| - 1], x) + if x == s[|s| - 1] then 1 else 0
  {
    assert s == s[..|s| - 1] + [s[|s| - 1]];
  }

  function Product(a: nat, b: nat): nat {
    a * b
  }

  lemma OneMoreTime(a: nat, b: nat)
    ensures Product(a + 1, b) == Product(a, b) + b && Product(0, b) == 0
  {
  }

  lemma {:induction false} RecordedCellsHave(cells: map<Id, Cells>, ids: seq<Id>, i: Id, j: nat)
    requires j < 5 && i in ids && i in cells
    ensures cells[i][j] in RecordedCells(cells, ids, j)
  {
    var front := ids[..|ids| - 1];
    assert ids == front + [ids[|ids| - 1]];
    if i in front {
      RecordedCellsHave(cells, front, i, j);
    }
  }

  lemma AtLeastOnce(a: nat, b: nat)
    ensures a >= 1 && b >= 1 ==> Product(a, b) >= 1
    ensures a == 0 || b == 0 ==> Product(a, b) == 0
    ensures b == 1 ==> Product(a, b) == a
  {
  }

  /** Every placed entity that is removed is struck in its cell, and no other id is struck anywhere. */
  lemma StrikesCover(t: Tables, removed: seq<string>, j: nat, x: Entry)
    requires j < 5 && t.Ok()
    ensures var ids := KnownIds(t.ids, removed); var struck := RemovalStrikes(t, removed, j)[x];
      && (x.id in ids ==> Exactly(PlacementOf(t.cells, j))[x] <= struck)
      && (x.id !in ids ==> struck == 0)
  {
    var ids := KnownIds(t.ids, removed);
    var cells := RecordedCells(t.cells, ids, j);
    StrikesCount(cells, ids, x);
    AtLeastOnce(Count(cells, x.cell), Count(ids, x.id));
    ExactlyAt(PlacementOf(t.cells, j), x.cell, x.id);
    if x.id in ids && x.id in t.cells {
      RecordedCellsHave(t.cells, ids, x.id, j);
    }
  }

  /** What the removal pass leaves of the ghosts, entry by entry. */
  lemma GhostsStruck(t: Tables, ghosts: Listing, removed: seq<string>, j: nat, x: Entry)
    requires j < 5 && t.Ok()
    ensures var at, struck := PlacementOf(t.cells, j), RemovalStrikes(t, removed, j);
      ((Exactly(at) + ghosts) - struck)[x] ==
        (Exactly(at - Elements(KnownIds(t.ids, removed))) + (ghosts - (struck - Exactly(at))))[x]
  {
    hide RemovalStrikes;
    hide Exactly;
    var at, ids := PlacementOf(t.cells, j), KnownIds(t.ids, removed);
    StrikesCover(t, removed, j, x);
    ExactlyAt(at, x.cell, x.id);
    ExactlyAt(at - Elements(ids), x.cell, x.id);
  }

  /** The removal pass takes the removed ids out of every layer, damaged or not, and clears a ghost
      only by striking its cell more often than the removed entity itself needs. */
  lemma RemovalsFollow(t: Tables, l: Layer, ghosts: Listing, removed: seq<string>, j: nat)
    requires j < 5 && t.Ok() && Lists(l, Exactly(PlacementOf(t.cells, j)) + ghosts)
    ensures var at := PlacementOf(t.cells, j);
      Lists(RemovalLayer(t, l, removed, j),
            Exactly(PlacementOf(ForgetAll(t, removed).cells, j)) + (ghosts - (RemovalStrikes(t, removed, j) - Exactly(at))))
  {
    hide Lists;
    hide Exactly;
    var ids, at := KnownIds(t.ids, removed), PlacementOf(t.cells, j);
    var struck := RemovalStrikes(t, removed, j);
    SweptLists(l, Exactly(at) + ghosts, RecordedCells(t.cells, ids, j), ids);
    ForgetAllTables(t, removed);
    assert PlacementOf(ForgetAll(t, removed).cells, j) == at - Elements(ids);
    hide PlacementOf;
    hide KnownIds;
    hide RecordedCells;
    var left := (Exactly(at) + ghosts) - struck;
    var expected := Exactly(at - Elements(ids)) + (ghosts - (struck - Exactly(at)));
    forall x: Entry ensures left[x] == expected[x] {
      GhostsStruck(t, ghosts, removed, j, x);
    }
    assert left == expected;
  }

  // ---- Insertions ----

  lemma WasRecorded(t: Tables, id: string, j: nat)
    requires j < 5 && t.Ok()
    ensures WasAt(t, id, j) == Recorded(t.View(), id, j)
  {
    KnownIsLive(t, id);
  }

  lemma FollowOne(geo: Geo, t: Tables, l: Layer, ghosts: Listing, e: Entity, j: nat)
    requires j < 5 && t.Ok() && Lists(l, Exactly(PlacementOf(t.cells, j)) + ghosts)
    ensures var now := CellsOf(geo, e);
      Lists(FollowedOnce(geo, t, l, e, j),
            Exactly(PlacementOf(t.Store(e, now).cells, j)) + (ghosts + Lost(WasAt(t, e.id, j), now[j], t.Intern(e.id).ids[e.id])))
  {
    hide Lists;
    hide Relocate;
    hide Exactly;
    hide Lost;
    var now := CellsOf(geo, e);
    WasRecorded(t, e.id, j);
    RecordsAgree(t, e, now, j);
    RelocateKeeps(l, PlacementOf(t.cells, j), ghosts, WasAt(t, e.id, j), now[j], t.Intern(e.id).ids[e.id]);
  }

  /** The insertions keep every layer in step with the recorded cells, up to its ghosts. */
  lemma {:induction false} InsertionsFollow(geo: Geo, t: Tables, l: Layer, ghosts: Listing, es: seq<Entity>, j: nat)
    requires j < 5 && t.Ok() && Lists(l, Exactly(PlacementOf(t.cells, j)) + ghosts)
    ensures Lists(Followed(geo, t, l, es, j), Exactly(PlacementOf(StoreAll(geo, t, es).cells, j)) + (ghosts + LostBy(geo, t, es, j)))
  {
    hide Lists;
    hide FollowedOnce;
    hide Exactly;
    hide Lost;
    hide CellsOf;
    hide PlacementOf;
    if es == [] {
      assert ghosts + multiset{} == ghosts;
    } else {
      var front, e := es[..|es| - 1], es[|es| - 1];
      var t0 := StoreAll(geo, t, front);
      StoreAllKeeps(geo, t, front);
      hide Tables.Ok;
      InsertionsFollow(geo, t, l, ghosts, front, j);
      FollowOne(geo, t0, Followed(geo, t, l, front, j), ghosts + LostBy(geo, t, front, j), e, j);
      var lost := Lost(WasAt(t0, e.id, j), CellsOf(geo, e)[j], t0.Intern(e.id).ids[e.id]);
      assert (ghosts + LostBy(geo, t, front, j)) + lost == ghosts + (LostBy(geo, t, front, j) + lost);
    }
  }

  /** A batch leaves a ghost behind exactly when some placed entity loses its cell. */
  lemma {:induction false} LostByIs(geo: Geo, t: Tables, es: seq<Entity>, j: nat)
    requires j < 5 && t.Ok()
    ensures LostBy(geo, t, es, j) == multiset{} <==> !LosesCell(geo, t.View(), es, j)
  {
    hide Tables.Ok;
    hide Tables.View;
    hide CellsOf;
    if es != [] {
      var front, e := es[..|es| - 1], es[|es| - 1];
      LostByIs(geo, t, front, j);
      StoreAllKeeps(geo, t, front);
      WasRecorded(StoreAll(geo, t, front), e.id, j);
    }
  }

  // ---- The whole batch ----

  /** One batch on any layer: it lists exactly what is recorded, and the ghosts. */
  lemma BatchFollows(geo: Geo, t: Tables, l: Layer, ghosts: Listing, es: seq<Entity>, removed: seq<string>, j: nat)
    requires j < 5 && t.Ok() && Lists(l, Exactly(PlacementOf(t.cells, j)) + ghosts)
    ensures Lists(BatchLayer(geo, t, l, es, removed, j),
                  Exactly(PlacementOf(BatchTables(geo, t, es, removed).cells, j)) + GhostsAfter(geo, t, ghosts, es, removed, j))
  {
    hide Lists;
    hide Exactly;
    hide RemovalLayer;
    hide Followed;
    hide RemovalStrikes;
    hide PlacementOf;
    RemovalsFollow(t, l, ghosts, removed, j);
    ForgetAllView(t, removed);
    hide Tables.Ok;
    InsertionsFollow(geo, ForgetAll(t, removed), RemovalLayer(t, l, removed, j),
                     ghosts - (RemovalStrikes(t, removed, j) - Exactly(PlacementOf(t.cells, j))), es, j);
  }

  lemma BatchTablesKeep(geo: Geo, t: Tables, es: seq<Entity>, removed: seq<string>)
    requires t.Ok()
    ensures var t' := BatchTables(geo, t, es, removed);
      && t'.Ok() && t'.View() == BatchUpdated(geo, t.View(), es, removed)
      && KeepsNames(t.names, t'.names) && t.counter <= t'.counter <= t.counter + |es|
  {
    hide Tables.Ok;
    hide Tables.View;
    hide KeepsNames;
    ForgetAllView(t, removed);
    ForgetAllTables(t, removed);
    StoreAllKeeps(geo, ForgetAll(t, removed), es);
  }

  /** From a sound layer, ghosts appear exactly when an entity loses its cell. */
  lemma NoGhosts(geo: Geo, t: Tables, es: seq<Entity>, removed: seq<string>, j: nat)
    requires j < 5 && t.Ok()
    ensures GhostsAfter(geo, t, multiset{}, es, removed, j) == multiset{} <==>
      !LosesCell(geo, t.View() - Elements(removed), es, j)
  {
    hide Tables.Ok;
    hide Tables.View;
    hide RemovalStrikes;
    hide Exactly;
    ForgetAllView(t, removed);
    LostByIs(geo, ForgetAll(t, removed), es, j);
  }

  // ---- Sound layers ----

  /** The layer follows the placement up to some ghosts. */
  ghost predicate Sound(l: Layer, at: Placement) {
    exists ghosts: Listing :: Lists(l, Exactly(at) + ghosts)
  }

  ghost function GhostsOf(l: Layer, at: Placement): (ghosts: Listing)
    requires Sound(l, at)
    ensures Lists(l, Exactly(at) + ghosts)
  {
    var ghosts: Listing :| Lists(l, Exactly(at) + ghosts);
    ghosts
  }

  lemma GhostsAre(l: Layer, at: Placement, ghosts: Listing)
    requires Lists(l, Exactly(at) + ghosts)
    ensures Sound(l, at) && GhostsOf(l, at) == ghosts
    ensures LayerInv(l, at) <==> ghosts == multiset{}
  {
    TotalDrift(l, at, ghosts);
    var same := GhostsOf(l, at);
    ListsOnce(l, Exactly(at) + ghosts, Exactly(at) + same);
    hide Lists;
    hide Exactly;
    assert (Exactly(at) + ghosts) - Exactly(at) == ghosts;
    assert (Exactly(at) + same) - Exactly(at) == same;
  }

  lemma SoundlyExact(l: Layer, at: Placement)
    requires LayerInv(l, at)
    ensures Sound(l, at) && GhostsOf(l, at) == multiset{}
  {
    LayerInvIs(l, at);
    hide Lists;
    assert Exactly(at) + multiset{} == Exactly(at);
    GhostsAre(l, at, multiset{});
  }

  /** From an exact layer the removal pass leaves an exact layer. */
  lemma RemovalExact(t: Tables, l: Layer, removed: seq<string>, j: nat)
    requires j < 5 && t.Ok() && LayerInv(l, PlacementOf(t.cells, j))
    ensures LayerInv(RemovalLayer(t, l, removed, j), PlacementOf(ForgetAll(t, removed).cells, j))
  {
    hide Lists;
    hide Exactly;
    hide LayerInv;
    hide RemovalLayer;
    hide RemovalStrikes;
    hide PlacementOf;
    hide Tables.Ok;
    var at := PlacementOf(t.cells, j);
    SoundlyExact(l, at);
    RemovalsFollow(t, l, multiset{}, removed, j);
    var none: Listing := multiset{};
    assert none - (RemovalStrikes(t, removed, j) - Exactly(at)) == none;
    GhostsAre(RemovalLayer(t, l, removed, j), PlacementOf(ForgetAll(t, removed).cells, j), none);
  }

  /** A batch keeps every layer sound, damaged or not, and says which ghosts it has afterwards; the
      layer is exact if and only if there are none. */
  lemma BatchSound(geo: Geo, t: Tables, l: Layer, es: seq<Entity>, removed: seq<string>, j: nat)
    requires j < 5 && t.Ok() && Sound(l, PlacementOf(t.cells, j))
    ensures var l', at' := BatchLayer(geo, t, l, es, removed, j), PlacementOf(BatchTables(geo, t, es, removed).cells, j);
      && Sound(l', at')
      && GhostsOf(l', at') == GhostsAfter(geo, t, GhostsOf(l, PlacementOf(t.cells, j)), es, removed, j)
      && (LayerInv(l', at') <==> GhostsOf(l', at') == multiset{})
      && (LayerInv(l, PlacementOf(t.cells, j)) ==>
           (LayerInv(l', at') <==> !LosesCell(geo, t.View() - Elements(removed), es, j)))
  {
    hide Lists;
    hide Exactly;
    hide LayerInv;
    hide BatchLayer;
    hide BatchTables;
    hide GhostsAfter;
    hide PlacementOf;
    var at := PlacementOf(t.cells, j);
    var ghosts := GhostsOf(l, at);
    BatchFollows(geo, t, l, ghosts, es, removed, j);
    GhostsAre(BatchLayer(geo, t, l, es, removed, j), PlacementOf(BatchTables(geo, t, es, removed).cells, j),
              GhostsAfter(geo, t, ghosts, es, removed, j));
    if LayerInv(l, at) {
      SoundlyExact(l, at);
      NoGhosts(geo, t, es, removed, j);
    }
  }

  // ---- The life of a ghost ----

  /** An internal id that was given out and whose entity is gone. */
  ghost predicate Forgotten(t: Tables, i: Id) {
    i <= t.counter && i !in t.entities
  }

  lemma {:induction false} StaysForgotten(geo: Geo, t: Tables, es: seq<Entity>, i: Id, j: nat)
    requires j < 5 && t.Ok() && Forgotten(t, i)
    ensures Forgotten(StoreAll(geo, t, es), i)
    ensures forall c :: LostBy(geo, t, es, j)[Entry(c, i)] == 0
  {
    hide Tables.Ok;
    hide CellsOf;
    hide Tables.Store;
    hide Tables.Intern;
    hide Forgotten;
    hide LostBy;
    if es == [] {
      NothingLost(geo, t, j);
    } else {
      var front, e := es[..|es| - 1], es[|es| - 1];
      var t0 := StoreAll(geo, t, front);
      StaysForgotten(geo, t, front, i, j);
      StoreAllKeeps(geo, t, front);
      NotForgotten(t0, e, CellsOf(geo, e), i);
      LostAnother(geo, t, es, i, j);
    }
  }

  lemma NothingLost(geo: Geo, t: Tables, j: nat)
    requires j < 5
    ensures LostBy(geo, t, [], j) == multiset{}
  {
  }

  lemma LostAnother(geo: Geo, t: Tables, es: seq<Entity>, i: Id, j: nat)
    requires j < 5 && es != []
    requires var front, e := es[..|es| - 1], es[|es| - 1]; StoreAll(geo, t, front).Intern(e.id).ids[e.id] != i
    ensures forall c :: LostBy(geo, t, es, j)[Entry(c, i)] == LostBy(geo, t, es[..|es| - 1], j)[Entry(c, i)]
  {
    hide CellsOf;
    hide Tables.Intern;
    hide StoreAll;
    hide WasAt;
  }

  lemma NotForgotten(t: Tables, e: Entity, now: Cells, i: Id)
    requires t.Ok() && Forgotten(t, i)
    ensures t.Intern(e.id).ids[e.id] != i && Forgotten(t.Store(e, now), i)
  {
  }

  /** A ghost whose entity has been removed stays for ever: no batch clears it, and none adds to it. */
  lemma ForgottenGhostStays(geo: Geo, t: Tables, ghosts: Listing, es: seq<Entity>, removed: seq<string>, j: nat, x: Entry)
    requires j < 5 && t.Ok() && Forgotten(t, x.id)
    ensures GhostsAfter(geo, t, ghosts, es, removed, j)[x] == ghosts[x] && Forgotten(BatchTables(geo, t, es, removed), x.id)
  {
    KnownIdsLive(t, removed);
    StrikesCover(t, removed, j, x);
    ForgetAllView(t, removed);
    ForgetAllTables(t, removed);
    hide Tables.Ok;
    hide RemovalStrikes;
    hide Exactly;
    hide KnownIds;
    StaysForgotten(geo, ForgetAll(t, removed), es, x.id, j);
  }

  lemma {:induction false} KnownOnce(t: Tables, removed: seq<string>)
    requires t.Ok() && NoDuplicates(removed)
    ensures NoDuplicates(KnownIds(t.ids, removed))
  {
    if removed != [] {
      var front, s := removed[..|removed| - 1], removed[|removed| - 1];
      KnownOnce(t, front);
      KnownIdsAre(t.ids, front);
      assert s in t.ids && t.ids[s] in KnownIds(t.ids, front) ==> s in front;
    }
  }

  /** The ids of a list that are recorded in a cell. */
  function IdsRecorded(cells: map<Id, Cells>, ids: seq<Id>, c: Cell, j: nat): set<Id>
    requires j < 5
  {
    set i | i in ids && i in cells && cells[i][j] == c
  }

  lemma {:induction false} RecordedCount(cells: map<Id, Cells>, ids: seq<Id>, c: Cell, j: nat)
    requires j < 5 && NoDuplicates(ids)
    ensures Count(RecordedCells(cells, ids, j), c) == |IdsRecorded(cells, ids, c, j)|
  {
    if ids != [] {
      var front, last := ids[..|ids| - 1], ids[|ids| - 1];
      RecordedCount(cells, front, c, j);
      OneMoreRecorded(cells, front, last, c, j);
      assert ids == front + [last];
      RecordedCellsSnoc(cells, front, last, j);
      assert last !in front;
    }
  }

  lemma OneMoreRecorded(cells: map<Id, Cells>, ids: seq<Id>, last: Id, c: Cell, j: nat)
    requires j < 5 && last !in ids
    ensures |IdsRecorded(cells, ids + [last], c, j)| ==
      |IdsRecorded(cells, ids, c, j)| + if last in cells && cells[last][j] == c then 1 else 0
  {
    var before := IdsRecorded(cells, ids, c, j);
    assert IdsRecorded(cells, ids + [last], c, j) == before + (if last in cells && cells[last][j] == c then {last} else {});
  }

  /** The removed entities other than `i` that are recorded in a cell. */
  ghost function OthersRemoved(t: Tables, removed: seq<string>, j: nat, c: Cell, i: Id): set<Id>
    requires j < 5
  {
    IdsRecorded(t.cells, KnownIds(t.ids, removed), c, j) - {i}
  }

  /** How often a removal list clears a ghost entry: once for every job of its cell and every mention of
      its id, less the strike that its entity's own placement takes. */
  ghost function Clearings(t: Tables, removed: seq<string>, j: nat, x: Entry): int
    requires j < 5
  {
    var ids := KnownIds(t.ids, removed);
    Product(Count(RecordedCells(t.cells, ids, j), x.cell), Count(ids, x.id)) - Exactly(PlacementOf(t.cells, j))[x]
  }

  /** Which removals clear a ghost, for any removal list: only those that mention its entity. */
  lemma GhostCleared(t: Tables, ghosts: Listing, removed: seq<string>, j: nat, x: Entry)
    requires j < 5 && t.Ok()
    ensures var cleared := if x.id in KnownIds(t.ids, removed) then Clearings(t, removed, j, x) else 0;
      && cleared >= 0
      && (ghosts - (RemovalStrikes(t, removed, j) - Exactly(PlacementOf(t.cells, j))))[x] ==
           if ghosts[x] <= cleared then 0 else ghosts[x] - cleared
  {
    hide Tables.Ok;
    hide Exactly;
    hide Strikes;
    hide KnownIds;
    hide RecordedCells;
    hide Product;
    hide Count;
    var ids := KnownIds(t.ids, removed);
    StrikesCount(RecordedCells(t.cells, ids, j), ids, x);
    StrikesCover(t, removed, j, x);
  }

  /** Without repetitions in the removal list: every other removed entity recorded in the ghost's cell
      clears it once. */
  lemma ClearedByOthers(t: Tables, removed: seq<string>, j: nat, x: Entry)
    requires j < 5 && t.Ok() && NoDuplicates(removed) && x.cell != 0 && x.id in KnownIds(t.ids, removed)
    ensures Clearings(t, removed, j, x) == |OthersRemoved(t, removed, j, x.cell, x.id)|
  {
    var ids := KnownIds(t.ids, removed);
    AtLeastOnce(Count(RecordedCells(t.cells, ids, j), x.cell), Count(ids, x.id));
    ExactlyAt(PlacementOf(t.cells, j), x.cell, x.id);
    KnownIdsLive(t, removed);
    KnownOnce(t, removed);
    OnceEach(ids, x.id);
    RecordedCount(t.cells, ids, x.cell, j);
    WithoutOne(t, removed, j, x);
    hide Tables.Ok;
    hide Exactly;
    hide KnownIds;
    hide RecordedCells;
  }

  lemma WithoutOne(t: Tables, removed: seq<string>, j: nat, x: Entry)
    requires j < 5 && x.id in KnownIds(t.ids, removed) && x.id in t.cells
    ensures |IdsRecorded(t.cells, KnownIds(t.ids, removed), x.cell, j)| ==
      |OthersRemoved(t, removed, j, x.cell, x.id)| + if t.cells[x.id][j] == x.cell then 1 else 0
  {
    assert IdsRecorded(t.cells, KnownIds(t.ids, removed), x.cell, j) ==
      OthersRemoved(t, removed, j, x.cell, x.id) + (if t.cells[x.id][j] == x.cell then {x.id} else {});
  }
}
