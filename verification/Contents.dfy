/** What the spatial index means: a map from external id to the entity and its five cells. */
module Contents {
  import opened Entities
  import opened Layers
  import opened Geography

  /** The cells of one entity at resolutions 2, 3, 4, 6 and 7. */
  type Cells = c: seq<Cell> | |c| == 5 witness [0, 0, 0, 0, 0]

  datatype Rec = Rec(entity: Entity, cells: Cells)
  type Content = map<string, Rec>

  function Res(j: nat): int
    requires j < 5
  {
    if j == 0 then 2 else if j == 1 then 3 else if j == 2 then 4 else if j == 3 then 6 else 7
  }

  function CellsOf(geo: Geo, e: Entity): Cells {
    var p := LatLng(e.lat, e.lng);
    [CellOf(geo, p, 2), CellOf(geo, p, 3), CellOf(geo, p, 4), CellOf(geo, p, 6), CellOf(geo, p, 7)]
  }

  /** Entities written over a content, left to right. */
  function Inserted(geo: Geo, m: Content, es: seq<Entity>): Content {
    if es == [] then m else
      var e := es[|es| - 1];
      Inserted(geo, m, es[..|es| - 1])[e.id := Rec(e, CellsOf(geo, e))]
  }

  /** One batch: the removals, then the entities. */
  function BatchUpdated(geo: Geo, m: Content, es: seq<Entity>, removed: seq<string>): Content {
    Inserted(geo, m - Elements(removed), es)
  }

  function Recorded(m: Content, id: string, j: nat): Option<Cell>
    requires j < 5
  {
    if id in m then Some(m[id].cells[j]) else None
  }

  /** Every record stands under its entity's id, with the cells of the entity's own position at the five
      resolutions, or none when the engine rejects the position. */
  ghost predicate Located(geo: Geo, m: Content) {
    forall s :: s in m ==> LocatedAt(geo, s, m[s])
  }

  ghost predicate LocatedAt(geo: Geo, s: string, rec: Rec) {
    var p := LatLng(rec.entity.lat, rec.entity.lng);
    && rec.entity.id == s
    && if geo.accepts(p) then
         && rec.cells[0] == geo.cellAt(p, 2) && rec.cells[1] == geo.cellAt(p, 3) && rec.cells[2] == geo.cellAt(p, 4)
         && rec.cells[3] == geo.cellAt(p, 6) && rec.cells[4] == geo.cellAt(p, 7)
       else forall j :: 0 <= j < 5 ==> rec.cells[j] == 0
  }

  lemma CellsLocated(geo: Geo, e: Entity)
    ensures LocatedAt(geo, e.id, Rec(e, CellsOf(geo, e)))
  {
  }

  lemma {:induction false} InsertedLocated(geo: Geo, m: Content, es: seq<Entity>)
    requires Located(geo, m)
    ensures Located(geo, Inserted(geo, m, es))
  {
    hide LocatedAt;
    hide CellsOf;
    if es != [] {
      InsertedLocated(geo, m, es[..|es| - 1]);
      CellsLocated(geo, es[|es| - 1]);
    }
  }

  /** A batch keeps every record where its entity is. */
  lemma BatchLocated(geo: Geo, m: Content, es: seq<Entity>, removed: seq<string>)
    requires Located(geo, m)
    ensures Located(geo, BatchUpdated(geo, m, es, removed))
  {
    InsertedLocated(geo, m - Elements(removed), es);
  }

  /** Somewhere in the batch an entity placed at resolution `j` is reported at a rejected position. */
  predicate LosesCell(geo: Geo, m: Content, es: seq<Entity>, j: nat)
    requires j < 5
  {
    es != [] &&
    var front, e := es[..|es| - 1], es[|es| - 1];
    LosesCell(geo, m, front, j)
    || Vanishes(Recorded(Inserted(geo, m, front), e.id, j), CellsOf(geo, e)[j])
  }

  lemma PrefixOfPrefix<T>(s: seq<T>, i: nat)
    requires i < |s|
    ensures s[..i + 1][..i] == s[..i]
  {
  }

  /** If the engine accepts every reported position, no entity loses its cell. */
  lemma {:induction false} AcceptedKeepsCells(geo: Geo, m: Content, es: seq<Entity>, j: nat)
    requires j < 5 && forall e :: e in es ==> geo.accepts(LatLng(e.lat, e.lng))
    ensures !LosesCell(geo, m, es, j)
  {
    if es != [] {
      AcceptedKeepsCells(geo, m, es[..|es| - 1], j);
    }
  }

  /** The failing family: a placed entity reported at a rejected position loses its cell at every
      resolution it was placed at. */
  lemma RejectedLosesCell(geo: Geo, m: Content, e: Entity, j: nat)
    requires j < 5 && e.id in m && m[e.id].cells[j] != 0 && !geo.accepts(LatLng(e.lat, e.lng))
    ensures LosesCell(geo, m, [e], j)
  {
    assert [e][..0] == [];
  }
}
