/** What a viewport query answers, and the three scans that compute it. */
module Queries {
  import opened Entities
  import opened Layers
  import opened Geography
  import opened Contents
  import opened IndexTables
  import Numerals

  datatype Selection = Everywhere | Within(cells: set<Cell>)

  predicate Sees(sel: Selection, c: Cell) {
    c != 0 && (sel.Everywhere? || c in sel.cells)
  }

  function SelectionOf(geo: Geo, vp: Viewport): Result<Selection> {
    if vp.IsGlobal() then Ok(Everywhere)
    else match ViewportCells(geo, vp, ZoomToResolution(vp.zoom))
      case Err => Err
      case Ok(cells) => Ok(Within(cells))
  }

  /** The maintained layer a zoom level is answered from; zoom 4 asks for one nobody maintains. */
  function LayerIndex(zoom: int): (j: Option<nat>)
    ensures j.Some? ==> j.value < 5 && Res(j.value) == ZoomToResolution(zoom)
    ensures j.None? <==> zoom == 4
    ensures j.Some? ==> Res(j.value) == if zoom < 4 then 3 else if zoom < 8 then 6 else 7
  {
    var res := ZoomToResolution(zoom);
    if res == 3 then Some(1) else if res == 6 then Some(3) else if res == 7 then Some(4) else None
  }

  /** The ids whose cell at resolution `j` is seen. */
  function InView(m: Content, j: nat, sel: Selection): set<string>
    requires j < 5
  {
    set s | s in m && Sees(sel, m[s].cells[j])
  }

  /** The linear filter the scans must agree with. */
  function Visible(m: Content, j: nat, sel: Selection): set<Entity>
    requires j < 5
  {
    set s | s in m && Sees(sel, m[s].cells[j]) :: m[s].entity
  }

  function IdsAt(m: Content, j: nat, c: Cell): set<string>
    requires j < 5
  {
    set s | s in m && m[s].cells[j] == c
  }

  function Populated(m: Content, j: nat): set<Cell>
    requires j < 5
  {
    set s | s in m && m[s].cells[j] != 0 :: m[s].cells[j]
  }

  /** The cells whose counts a cluster query reports: the smaller of the two sets decides. */
  function Reported(m: Content, j: nat, sel: Selection): set<Cell>
    requires j < 5
  {
    if sel.Within? && |sel.cells| < |Populated(m, j)| then sel.cells - {0} else Populated(m, j)
  }

  function CountsOf(m: Content, j: nat, cells: set<Cell>): map<Cell, int>
    requires j < 5
  {
    map c | c in cells && IdsAt(m, j, c) != {} :: |IdsAt(m, j, c)|
  }

  function CellName(c: Cell): string {
    Numerals.Digits(c, 16)
  }

  lemma NamesDiffer()
    ensures forall a, b :: CellName(a) == CellName(b) ==> a == b
  {
    forall a, b ensures CellName(a) == CellName(b) ==> a == b {
      Numerals.HexInjective(a, b);
    }
  }

  function ClusterAt(geo: Geo, c: Cell, count: int): Cluster {
    Cluster(geo.center(c).lat, geo.center(c).lng, count)
  }

  /** The cluster map: positive counts under the names of their cells. */
  function Named(geo: Geo, counts: map<Cell, int>): map<string, Cluster> {
    NamesDiffer();
    map c | c in counts && counts[c] > 0 :: CellName(c) := ClusterAt(geo, c, counts[c])
  }

  lemma NamedIs(geo: Geo, counts: map<Cell, int>)
    ensures forall c :: c in counts && counts[c] > 0 ==>
      CellName(c) in Named(geo, counts) && Named(geo, counts)[CellName(c)] == ClusterAt(geo, c, counts[c])
    ensures forall name :: name in Named(geo, counts) ==> exists c :: c in counts && counts[c] > 0 && name == CellName(c)
  {
    NamesDiffer();
    hide CellName;
  }

  function OutOfView(count: int): map<string, Cluster> {
    if count > 0 then map["out_of_view" := Cluster(0.0, 0.0, count)] else map[]
  }

  /** The entities a query lists: none below zoom 5, else exactly the linear filter. */
  function AnsweredEntities(m: Content, zoom: int, sel: Selection): set<Entity> {
    if zoom < 5 then {} else Visible(m, LayerIndex(zoom).value, sel)
  }

  /** The clusters a query lists. */
  function AnsweredClusters(geo: Geo, m: Content, zoom: int, sel: Selection): map<string, Cluster> {
    match LayerIndex(zoom)
    case None => map[]
    case Some(j) =>
      if zoom < 5 then Named(geo, CountsOf(m, j, Reported(m, j, sel)))
      else OutOfView(|InView(m, j, Everywhere)| - |InView(m, j, sel)|)
  }

  /** A complete answer to a viewport query, in whatever order the entities come. */
  ghost predicate Answers(geo: Geo, m: Content, vp: Viewport, visible: seq<Entity>, clusters: map<string, Cluster>) {
    && SelectionOf(geo, vp).Ok?
    && DistinctIds(visible)
    && Elements(visible) == AnsweredEntities(m, vp.zoom, SelectionOf(geo, vp).value)
    && clusters == AnsweredClusters(geo, m, vp.zoom, SelectionOf(geo, vp).value)
  }

  /** The names that clusters go by. */
  ghost predicate IsClusterName(name: string) {
    name == "out_of_view" || exists c :: name == CellName(c)
  }

  /** What a damaged index still guarantees: everything in view is listed, and whatever else is listed
      is live and current. */
  ghost predicate Covers(geo: Geo, m: Content, vp: Viewport, visible: seq<Entity>, clusters: map<string, Cluster>) {
    && SelectionOf(geo, vp).Ok?
    && DistinctIds(visible)
    && AnsweredEntities(m, vp.zoom, SelectionOf(geo, vp).value) <= Elements(visible)
    && (forall e :: e in visible ==> e.id in m && e == m[e.id].entity)
    && (vp.zoom < 5 ==> visible == [])
    && (forall name :: name in clusters ==> IsClusterName(name))
  }

  /** What a query is answered from: a content, and whether the layer in use is exact. */
  datatype Source = Source(geo: Geo, content: Content, exact: bool)

  /** What a query replies: an answer from an exact layer, else one that covers the viewport. */
  ghost predicate Replies(src: Source, vp: Viewport, visible: seq<Entity>, clusters: map<string, Cluster>) {
    && Covers(src.geo, src.content, vp, visible, clusters)
    && (src.exact ==> Answers(src.geo, src.content, vp, visible, clusters))
  }

  // ---- The scans ----

  function EntitiesOf(entities: map<Id, Entity>, ids: set<Id>): set<Entity> {
    set x | x in ids && x in entities :: entities[x]
  }

  ghost predicate DistinctEntityIds(entities: map<Id, Entity>) {
    forall x, y :: x in entities && y in entities && entities[x].id == entities[y].id ==> x == y
  }

  /** The visible list and the counter after the ids in `processed` have been met; an id without an
      entity is counted all the same. */
  ghost predicate Met(entities: map<Id, Entity>, onlyClusters: bool, visible: seq<Entity>, total: nat, processed: set<Id>) {
    && total == |processed|
    && (onlyClusters ==> visible == [])
    && (!onlyClusters ==> DistinctIds(visible) && Elements(visible) == EntitiesOf(entities, processed))
  }

  lemma MetOneMore(entities: map<Id, Entity>, onlyClusters: bool, visible: seq<Entity>, total: nat, processed: set<Id>, x: Id)
    requires DistinctEntityIds(entities) && Met(entities, onlyClusters, visible, total, processed) && x !in processed
    ensures Met(entities, onlyClusters, if !onlyClusters && x in entities then visible + [entities[x]] else visible,
                total + 1, processed + {x})
  {
    if x !in entities {
      assert EntitiesOf(entities, processed + {x}) == EntitiesOf(entities, processed);
    } else if !onlyClusters {
      var visible' := visible + [entities[x]];
      forall k | 0 <= k < |visible| ensures visible[k].id != entities[x].id {
        assert visible[k] in Elements(visible);
        assert visible[k] in EntitiesOf(entities, processed);
      }
      assert Elements(visible') == Elements(visible) + {entities[x]};
      assert EntitiesOf(entities, processed + {x}) == EntitiesOf(entities, processed) + {entities[x]};
    }
  }

  lemma MetNothing(entities: map<Id, Entity>, onlyClusters: bool)
    ensures Met(entities, onlyClusters, [], 0, {})
  {
  }

  /** The loop over one id list, which all three scans share. */
  method ScanList(entities: map<Id, Entity>, ids: seq<Id>, onlyClusters: bool,
                  visible0: seq<Entity>, total0: nat, processed0: set<Id>)
    returns (visible: seq<Entity>, total: nat, processed: set<Id>)
    requires DistinctEntityIds(entities) && Met(entities, onlyClusters, visible0, total0, processed0)
    ensures Met(entities, onlyClusters, visible, total, processed)
    ensures processed == processed0 + Elements(ids)
  {
    hide Met;
    hide DistinctEntityIds;
    hide Elements;
    NoIds();
    assert ids[..0] == [];
    visible, total, processed := visible0, total0, processed0;
    for i := 0 to |ids|
      invariant Met(entities, onlyClusters, visible, total, processed)
      invariant processed == processed0 + Elements(ids[..i])
    {
      var internalID := ids[i];
      ElementsStep(ids, i);
      if internalID in processed {
        continue;
      }
      MetOneMore(entities, onlyClusters, visible, total, processed, internalID);
      if !onlyClusters {
        if internalID in entities {
          visible := visible + [entities[internalID]];
        }
      }
      total := total + 1;
      processed := processed + {internalID};
    }
    assert ids[..|ids|] == ids;
  }

  lemma NoIds()
    ensures Elements<Id>([]) == {}
  {
  }

  /** The counts a scan notes down for a set of cells, as the count table has them. */
  function Counted(l: Layer, onlyClusters: bool, cells: set<Cell>): map<Cell, int> {
    if onlyClusters then map c | c in cells :: Lookup(l.counts, c, 0) else map[]
  }

  /** How the ingredients of a scan grow with one more cell. */
  lemma CountOneMore(l: Layer, onlyClusters: bool, cells: set<Cell>, c: Cell)
    ensures var counts := Counted(l, onlyClusters, cells);
      Counted(l, onlyClusters, cells + {c}) == if onlyClusters then counts[c := Lookup(l.counts, c, 0)] else counts
  {
  }

  lemma SeenOneMore(l: Layer, sel: Selection, cells: set<Cell>, c: Cell)
    ensures ListedIn(l, SeenOf(cells + {c}, sel)) ==
      if Sees(sel, c) then ListedIn(l, SeenOf(cells, sel)) + Elements(Lookup(l.ids, c, [])) else ListedIn(l, SeenOf(cells, sel))
  {
    if Sees(sel, c) {
      assert SeenOf(cells + {c}, sel) == SeenOf(cells, sel) + {c};
      ListedInOneMore(l, SeenOf(cells, sel), c);
    } else {
      assert SeenOf(cells + {c}, sel) == SeenOf(cells, sel);
    }
  }

  lemma NoCells(l: Layer, onlyClusters: bool, sel: Selection)
    ensures Counted(l, onlyClusters, {}) == map[] && SeenOf({}, sel) == {} && ListedIn(l, {}) == {}
  {
  }

  /** The ids that stand in the lists of some cells. */
  function ListedIn(l: Layer, cells: set<Cell>): set<Id> {
    set c, id | c in cells && id in Lookup(l.ids, c, []) :: id
  }

  lemma ListedInOneMore(l: Layer, cells: set<Cell>, c: Cell)
    ensures ListedIn(l, cells + {c}) == ListedIn(l, cells) + Elements(Lookup(l.ids, c, []))
  {
  }

  function SeenOf(cells: set<Cell>, sel: Selection): set<Cell> {
    set c | c in cells && Sees(sel, c)
  }

  /** The ids a scan of the layer meets. */
  function SeenBy(l: Layer, sel: Selection): set<Id> {
    ListedIn(l, SeenOf(l.ids.Keys, sel))
  }

  /** The scan for a global viewport and the scan over the populated cells, which differ only in
      whether a cell has to be in view. */
  method ScanPopulated(entities: map<Id, Entity>, l: Layer, sel: Selection, onlyClusters: bool)
    returns (visible: seq<Entity>, counts: map<Cell, int>, total: nat)
    requires DistinctEntityIds(entities)
    ensures Met(entities, onlyClusters, visible, total, SeenBy(l, sel))
    ensures counts == Counted(l, onlyClusters, l.ids.Keys)
  {
    hide Met;
    hide DistinctEntityIds;
    hide Counted;
    hide SeenOf;
    hide Sees;
    hide ListedIn;
    hide Elements;
    MetNothing(entities, onlyClusters);
    NoCells(l, onlyClusters, sel);
    visible, counts, total := [], map[], 0;
    var processed: set<Id> := {};
    var todo := l.ids.Keys;
    ghost var done: set<Cell> := {};
    while todo != {}
      invariant done !! todo && done + todo == l.ids.Keys
      invariant processed == ListedIn(l, SeenOf(done, sel))
      invariant Met(entities, onlyClusters, visible, total, processed)
      invariant counts == Counted(l, onlyClusters, done)
      decreases todo
    {
      var populatedCell :| populatedCell in todo;
      CountOneMore(l, onlyClusters, done, populatedCell);
      SeenOneMore(l, sel, done, populatedCell);
      if Sees(sel, populatedCell) {
        var ids := l.ids[populatedCell];
        visible, total, processed := ScanList(entities, ids, onlyClusters, visible, total, processed);
      }
      if onlyClusters {
        counts := counts[populatedCell := Lookup(l.counts, populatedCell, 0)];
      }
      done := done + {populatedCell};
      todo := todo - {populatedCell};
    }
  }

  /** The scan over the cells of the viewport. */
  method ScanViewport(entities: map<Id, Entity>, l: Layer, cells: set<Cell>, onlyClusters: bool)
    returns (visible: seq<Entity>, counts: map<Cell, int>, total: nat)
    requires DistinctEntityIds(entities)
    ensures Met(entities, onlyClusters, visible, total, ListedIn(l, cells))
    ensures counts == Counted(l, onlyClusters, cells)
  {
    MetNothing(entities, onlyClusters);
    hide Met;
    hide DistinctEntityIds;
    NoCells(l, onlyClusters, Everywhere);
    hide Counted;
    hide ListedIn;
    visible, counts, total := [], map[], 0;
    var processed: set<Id> := {};
    var todo := cells;
    ghost var done: set<Cell> := {};
    while todo != {}
      invariant done !! todo && done + todo == cells
      invariant processed == ListedIn(l, done)
      invariant Met(entities, onlyClusters, visible, total, processed)
      invariant counts == Counted(l, onlyClusters, done)
      decreases todo
    {
      var viewCell :| viewCell in todo;
      CountOneMore(l, onlyClusters, done, viewCell);
      ListedInOneMore(l, done, viewCell);
      if viewCell in l.ids {
        var ids := l.ids[viewCell];
        visible, total, processed := ScanList(entities, ids, onlyClusters, visible, total, processed);
      }
      if onlyClusters {
        counts := counts[viewCell := Lookup(l.counts, viewCell, 0)];
      }
      done := done + {viewCell};
      todo := todo - {viewCell};
    }
  }

  lemma ViewportSees(l: Layer, sel: Selection)
    requires 0 !in l.ids && sel.Within?
    ensures ListedIn(l, sel.cells) == SeenBy(l, sel)
  {
  }

  /** The cells whose counts the chosen scan looks up. */
  function CellsToCount(l: Layer, sel: Selection): set<Cell> {
    if sel.Within? && |sel.cells| < |l.ids| then sel.cells else l.ids.Keys
  }

  /** The clusters a scan of layer `l` hands out. */
  function ScannedClusters(geo: Geo, l: Layer, sel: Selection, onlyClusters: bool): map<string, Cluster> {
    if onlyClusters then Named(geo, Counted(l, true, CellsToCount(l, sel))) else OutOfView(l.total - |SeenBy(l, sel)|)
  }

  /** Scans one layer by whichever way visits fewer cells. The lists may hold an id twice, or ids
      without an entity: each is met once. */
  method ScanLayer(entities: map<Id, Entity>, l: Layer, sel: Selection, onlyClusters: bool)
    returns (visible: seq<Entity>, counts: map<Cell, int>, total: nat)
    requires DistinctEntityIds(entities) && 0 !in l.ids
    ensures Met(entities, onlyClusters, visible, total, SeenBy(l, sel))
    ensures counts == Counted(l, onlyClusters, CellsToCount(l, sel))
  {
    hide DistinctEntityIds;
    hide SeenBy;
    hide ListedIn;
    hide Met;
    hide Counted;
    if sel.Within? && |sel.cells| < |l.ids| {
      ViewportSees(l, sel);
      visible, counts, total := ScanViewport(entities, l, sel.cells, onlyClusters);
    } else {
      visible, counts, total := ScanPopulated(entities, l, sel, onlyClusters);
    }
  }

  /** One summary entry for everything outside the viewport, if there is anything. */
  method EmitOutOfView(outOfViewCount: int, outClusters: map<string, Cluster>) returns (out: map<string, Cluster>)
    ensures out == outClusters + OutOfView(outOfViewCount)
  {
    out := outClusters;
    if outOfViewCount > 0 {
      out := out["out_of_view" := Cluster(0.0, 0.0, outOfViewCount)];
    }
  }

  /** The populated cells, in whatever order, become named clusters. */
  method EmitClusters(geo: Geo, counts: map<Cell, int>, outClusters: map<string, Cluster>) returns (out: map<string, Cluster>)
    ensures out == outClusters + Named(geo, counts)
  {
    hide CellName;
    hide Named;
    hide ClusterAt;
    out := outClusters;
    var todo := counts;
    while todo != map[]
      invariant out + Named(geo, todo) == outClusters + Named(geo, counts)
      decreases |todo|
    {
      var cell :| cell in todo;
      var count := todo[cell];
      EmitStep(geo, todo, cell, out);
      if count > 0 {
        out := out[CellName(cell) := ClusterAt(geo, cell, count)];
      }
      todo := todo - {cell};
    }
    NamedIs(geo, map[]);
    assert out + Named(geo, map[]) == out;
  }

  lemma EmitStep(geo: Geo, todo: map<Cell, int>, cell: Cell, out: map<string, Cluster>)
    requires cell in todo
    ensures |todo - {cell}| < |todo|
    ensures out + Named(geo, todo) ==
      (if todo[cell] > 0 then out[CellName(cell) := ClusterAt(geo, cell, todo[cell])] else out) + Named(geo, todo - {cell})
  {
    var rest := todo - {cell};
    assert rest.Keys == todo.Keys - {cell} && todo == rest[cell := todo[cell]];
    NamedOneMore(geo, rest, cell, todo[cell]);
    NamedSkips(geo, rest, cell);
    hide Named;
    hide ClusterAt;
    hide CellName;
    if todo[cell] > 0 {
      UpdateLeft(out, Named(geo, rest), CellName(cell), ClusterAt(geo, cell, todo[cell]));
    }
  }

  lemma NamedSkips(geo: Geo, counts: map<Cell, int>, cell: Cell)
    requires cell !in counts
    ensures CellName(cell) !in Named(geo, counts)
  {
    NamesDiffer();
    NamedIs(geo, counts);
  }

  lemma UpdateLeft<K, V>(a: map<K, V>, b: map<K, V>, k: K, v: V)
    requires k !in b
    ensures a[k := v] + b == a + b[k := v]
  {
  }

  lemma NamedKeeps(geo: Geo, counts: map<Cell, int>, cell: Cell, count: int, name: string)
    requires cell !in counts && name in Named(geo, counts)
    ensures var more := Named(geo, counts[cell := count]); name in more && more[name] == Named(geo, counts)[name]
  {
    NamedIs(geo, counts);
    NamedIs(geo, counts[cell := count]);
    hide CellName;
    hide Named;
    hide ClusterAt;
    var c :| c in counts && counts[c] > 0 && name == CellName(c);
    assert c in counts[cell := count] && counts[cell := count][c] == counts[c];
  }

  lemma NamedAdds(geo: Geo, counts: map<Cell, int>, cell: Cell, count: int, name: string)
    requires cell !in counts && name in Named(geo, counts[cell := count])
    ensures name in Named(geo, counts) || (count > 0 && name == CellName(cell))
  {
    NamedIs(geo, counts);
    NamedIs(geo, counts[cell := count]);
    hide CellName;
    hide Named;
    hide ClusterAt;
    var c :| c in counts[cell := count] && counts[cell := count][c] > 0 && name == CellName(c);
    assert c != cell ==> c in counts && counts[c] > 0;
  }

  lemma NamedOneMore(geo: Geo, counts: map<Cell, int>, cell: Cell, count: int)
    requires cell !in counts
    ensures Named(geo, counts[cell := count]) ==
      if count > 0 then Named(geo, counts)[CellName(cell) := ClusterAt(geo, cell, count)] else Named(geo, counts)
  {
    hide CellName;
    hide Named;
    hide ClusterAt;
    NewlyNamed(geo, counts, cell, count);
    var more, less := Named(geo, counts[cell := count]), Named(geo, counts);
    forall name | name in less ensures name in more && more[name] == less[name] {
      NamedKeeps(geo, counts, cell, count, name);
    }
    forall name | name in more ensures name in less || (count > 0 && name == CellName(cell)) {
      NamedAdds(geo, counts, cell, count, name);
    }
    var expected := if count > 0 then less[CellName(cell) := ClusterAt(geo, cell, count)] else less;
    assert forall name :: name in more <==> name in expected;
    assert forall name :: name in more ==> more[name] == expected[name];
    assert more == expected;
  }

  lemma NewlyNamed(geo: Geo, counts: map<Cell, int>, cell: Cell, count: int)
    requires cell !in counts
    ensures CellName(cell) !in Named(geo, counts)
    ensures count > 0 ==> var more := Named(geo, counts[cell := count]);
      CellName(cell) in more && more[CellName(cell)] == ClusterAt(geo, cell, count)
  {
    NamedSkips(geo, counts, cell);
    NamedIs(geo, counts[cell := count]);
    hide CellName;
    hide Named;
    hide ClusterAt;
    assert cell in counts[cell := count] && counts[cell := count][cell] == count;
  }

  lemma MetSize(entities: map<Id, Entity>, onlyClusters: bool, visible: seq<Entity>, total: nat, processed: set<Id>)
    requires Met(entities, onlyClusters, visible, total, processed)
    ensures total == |processed|
  {
  }

  /** Answers a query from one layer. */
  method QueryLayer(geo: Geo, entities: map<Id, Entity>, l: Layer, sel: Selection, onlyClusters: bool,
                    outClusters: map<string, Cluster>)
    returns (visible: seq<Entity>, clusters: map<string, Cluster>)
    requires DistinctEntityIds(entities) && 0 !in l.ids
    ensures Met(entities, onlyClusters, visible, |SeenBy(l, sel)|, SeenBy(l, sel))
    ensures clusters == outClusters + ScannedClusters(geo, l, sel, onlyClusters)
  {
    hide DistinctEntityIds;
    hide SeenBy;
    hide CellsToCount;
    hide Named;
    hide Met;
    hide OutOfView;
    hide Counted;
    var counts, total;
    visible, counts, total := ScanLayer(entities, l, sel, onlyClusters);
    MetSize(entities, onlyClusters, visible, total, SeenBy(l, sel));
    if onlyClusters {
      clusters := EmitClusters(geo, counts, outClusters);
    } else {
      clusters := EmitOutOfView(l.total - total, outClusters);
    }
  }

  // ---- From the tables to the content ----

  function SeenIds(at: Placement, sel: Selection): set<Id> {
    set x | x in at && Sees(sel, at[x])
  }

  function NamesOf(t: Tables, ids: set<Id>): set<string> {
    set x | x in ids && x in t.names :: t.names[x]
  }

  lemma {:induction false} NamesSize(t: Tables, ids: set<Id>)
    requires t.Ok() && ids <= t.entities.Keys
    ensures |NamesOf(t, ids)| == |ids|
    decreases ids
  {
    if x :| x in ids {
      NamesSize(t, ids - {x});
      var others := NamesOf(t, ids - {x});
      forall y | y in ids - {x} ensures t.names[y] != t.names[x] {
        assert t.ids[t.names[y]] == y;
      }
      assert NamesOf(t, ids) == others + {t.names[x]};
    } else {
      assert ids == {};
    }
  }

  /** The tables see what the content sees. */
  lemma SeenNames(t: Tables, j: nat, sel: Selection)
    requires j < 5 && t.Ok()
    ensures NamesOf(t, SeenIds(PlacementOf(t.cells, j), sel)) == InView(t.View(), j, sel)
    ensures |SeenIds(PlacementOf(t.cells, j), sel)| == |InView(t.View(), j, sel)|
  {
    var at := PlacementOf(t.cells, j);
    var seen := SeenIds(at, sel);
    NamesSize(t, seen);
    forall s | s in InView(t.View(), j, sel) ensures s in NamesOf(t, seen) {
      assert t.ids[s] in seen;
    }
  }

  lemma SeenIsVisible(t: Tables, j: nat, sel: Selection, e: Entity)
    requires j < 5 && t.Ok() && e in EntitiesOf(t.entities, SeenIds(PlacementOf(t.cells, j), sel))
    ensures e in Visible(t.View(), j, sel)
  {
    var x :| x in SeenIds(PlacementOf(t.cells, j), sel) && x in t.entities && t.entities[x] == e;
    assert t.names[x] in t.View() && t.View()[t.names[x]].entity == e;
  }

  lemma VisibleIsSeen(t: Tables, j: nat, sel: Selection, e: Entity)
    requires j < 5 && t.Ok() && e in Visible(t.View(), j, sel)
    ensures e in EntitiesOf(t.entities, SeenIds(PlacementOf(t.cells, j), sel))
  {
    var m := t.View();
    var s :| s in m && Sees(sel, m[s].cells[j]) && m[s].entity == e;
    assert t.ids[s] in SeenIds(PlacementOf(t.cells, j), sel);
  }

  lemma SeenEntities(t: Tables, j: nat, sel: Selection)
    requires j < 5 && t.Ok()
    ensures EntitiesOf(t.entities, SeenIds(PlacementOf(t.cells, j), sel)) == Visible(t.View(), j, sel)
  {
    hide Tables.Ok;
    hide Tables.View;
    hide PlacementOf;
    hide SeenIds;
    hide EntitiesOf;
    hide Visible;
    forall e | e in EntitiesOf(t.entities, SeenIds(PlacementOf(t.cells, j), sel)) ensures e in Visible(t.View(), j, sel) {
      SeenIsVisible(t, j, sel, e);
    }
    forall e | e in Visible(t.View(), j, sel) ensures e in EntitiesOf(t.entities, SeenIds(PlacementOf(t.cells, j), sel)) {
      VisibleIsSeen(t, j, sel, e);
    }
  }

  lemma MembersNames(t: Tables, j: nat, c: Cell)
    requires j < 5 && t.Ok() && c != 0
    ensures |Members(PlacementOf(t.cells, j), c)| == |IdsAt(t.View(), j, c)|
  {
    var here := Members(PlacementOf(t.cells, j), c);
    NamesSize(t, here);
    forall s | s in IdsAt(t.View(), j, c) ensures s in NamesOf(t, here) {
      assert t.ids[s] in here;
    }
    assert NamesOf(t, here) == IdsAt(t.View(), j, c);
  }

  lemma ListedIsPopulated(t: Tables, l: Layer, j: nat, c: Cell)
    requires j < 5 && t.Ok() && LayerInv(l, PlacementOf(t.cells, j)) && c in l.ids
    ensures c in Populated(t.View(), j)
  {
    var x := Lookup(l.ids, c, [])[0];
    assert x in Lookup(l.ids, c, []);
    assert x in PlacementOf(t.cells, j) && t.cells[x][j] == c;
    assert t.ids[t.names[x]] == x;
    assert t.View()[t.names[x]].cells[j] == c;
  }

  lemma PopulatedIsListed(t: Tables, l: Layer, j: nat, c: Cell)
    requires j < 5 && t.Ok() && LayerInv(l, PlacementOf(t.cells, j)) && c in Populated(t.View(), j)
    ensures c in l.ids
  {
    var m := t.View();
    var s :| s in m && m[s].cells[j] == c && c != 0;
    var x := t.ids[s];
    assert x in t.cells && PlacementOf(t.cells, j)[x] == c;
    assert x in Lookup(l.ids, c, []);
  }

  lemma PopulatedCells(t: Tables, l: Layer, j: nat)
    requires j < 5 && t.Ok() && LayerInv(l, PlacementOf(t.cells, j))
    ensures l.ids.Keys == Populated(t.View(), j)
  {
    hide LayerInv;
    hide Tables.Ok;
    hide Tables.View;
    hide PlacementOf;
    hide Populated;
    forall c | c in l.ids ensures c in Populated(t.View(), j) {
      ListedIsPopulated(t, l, j, c);
    }
    forall c | c in Populated(t.View(), j) ensures c in l.ids {
      PopulatedIsListed(t, l, j, c);
    }
  }

  /** The count table names the same clusters as the content. */
  lemma CountedNames(geo: Geo, t: Tables, l: Layer, j: nat, cells: set<Cell>)
    requires j < 5 && t.Ok() && LayerInv(l, PlacementOf(t.cells, j))
    ensures Named(geo, Counted(l, true, cells)) == Named(geo, CountsOf(t.View(), j, cells - {0}))
  {
    hide LayerInv;
    hide Tables.Ok;
    hide Tables.View;
    hide Named;
    hide PlacementOf;
    forall c | c in cells
      ensures Lookup(l.counts, c, 0) == if c == 0 then 0 else |IdsAt(t.View(), j, c)|
    {
      CountIs(t, l, j, c);
    }
    SameCounts(l, t.View(), j, cells);
    hide IdsAt;
    SameNamed(geo, Counted(l, true, cells), CountsOf(t.View(), j, cells - {0}));
  }

  lemma SameCounts(l: Layer, m: Content, j: nat, cells: set<Cell>)
    requires j < 5 && forall c :: c in cells ==> Lookup(l.counts, c, 0) == if c == 0 then 0 else |IdsAt(m, j, c)|
    ensures var counted, counts := Counted(l, true, cells), CountsOf(m, j, cells - {0});
      && (forall c :: c in counted && counted[c] > 0 <==> c in counts && counts[c] > 0)
      && (forall c :: c in counted && c in counts && counted[c] > 0 ==> counted[c] == counts[c])
  {
  }

  lemma CountIs(t: Tables, l: Layer, j: nat, c: Cell)
    requires j < 5 && t.Ok() && LayerInv(l, PlacementOf(t.cells, j))
    ensures Lookup(l.counts, c, 0) == if c == 0 then 0 else |IdsAt(t.View(), j, c)|
  {
    CountOfMembers(l, PlacementOf(t.cells, j), c);
    if c == 0 {
      assert Members(PlacementOf(t.cells, j), 0) == {};
    } else {
      MembersNames(t, j, c);
    }
  }

  lemma SameNamed(geo: Geo, a: map<Cell, int>, b: map<Cell, int>)
    requires forall c :: c in a && a[c] > 0 <==> c in b && b[c] > 0
    requires forall c :: c in a && c in b && a[c] > 0 ==> a[c] == b[c]
    ensures Named(geo, a) == Named(geo, b)
  {
    NamedIs(geo, a);
    NamedIs(geo, b);
    hide CellName;
    hide Named;
    hide ClusterAt;
    forall name | name in Named(geo, a) ensures name in Named(geo, b) && Named(geo, a)[name] == Named(geo, b)[name] {
      var c :| c in a && a[c] > 0 && name == CellName(c);
    }
    forall name | name in Named(geo, b) ensures name in Named(geo, a) {
      var c :| c in b && b[c] > 0 && name == CellName(c);
    }
  }

  /** In a sound layer a scan meets exactly the placed ids in view. */
  lemma SoundSees(l: Layer, at: Placement, sel: Selection)
    requires LayerInv(l, at)
    ensures SeenBy(l, sel) == SeenIds(at, sel)
  {
    forall x | x in at ensures at[x] in l.ids.Keys && at[x] != 0 {
      assert x in Lookup(l.ids, at[x], []);
    }
  }

  lemma DetailIsSpecified(t: Tables, l: Layer, j: nat, zoom: int, sel: Selection, visible: seq<Entity>)
    requires LayerIndex(zoom) == Some(j) && zoom >= 5 && t.Ok() && LayerInv(l, PlacementOf(t.cells, j))
    requires Met(t.entities, false, visible, |SeenBy(l, sel)|, SeenBy(l, sel))
    ensures DistinctIds(visible) && Elements(visible) == Visible(t.View(), j, sel)
    ensures l.total - |SeenBy(l, sel)| == |InView(t.View(), j, Everywhere)| - |InView(t.View(), j, sel)|
  {
    hide LayerInv;
    hide Tables.Ok;
    hide Tables.View;
    hide PlacementOf;
    hide SeenIds;
    hide SeenBy;
    hide InView;
    hide Visible;
    hide EntitiesOf;
    hide Elements;
    hide DistinctIds;
    SoundSees(l, PlacementOf(t.cells, j), sel);
    SoundTotal(l, PlacementOf(t.cells, j));
    SeenNames(t, j, sel);
    SeenNames(t, j, Everywhere);
    SeenEntities(t, j, sel);
    EverySeen(t, j);
  }

  /** What a scan of a sound layer found is what the content answers. */
  lemma AnswerIsSpecified(geo: Geo, t: Tables, l: Layer, j: nat, zoom: int, sel: Selection, visible: seq<Entity>)
    requires LayerIndex(zoom) == Some(j) && t.Ok() && LayerInv(l, PlacementOf(t.cells, j))
    requires Met(t.entities, zoom < 5, visible, |SeenBy(l, sel)|, SeenBy(l, sel))
    ensures DistinctIds(visible) && Elements(visible) == AnsweredEntities(t.View(), zoom, sel)
    ensures AnsweredClusters(geo, t.View(), zoom, sel) == ScannedClusters(geo, l, sel, zoom < 5)
  {
    hide LayerInv;
    hide Tables.Ok;
    hide Tables.View;
    hide PlacementOf;
    hide SeenBy;
    hide InView;
    hide Visible;
    hide EntitiesOf;
    hide Named;
    hide OutOfView;
    if zoom < 5 {
      ClustersAreSpecified(geo, t, l, j, sel);
    } else {
      DetailIsSpecified(t, l, j, zoom, sel, visible);
    }
  }

  lemma SoundTotal(l: Layer, at: Placement)
    requires LayerInv(l, at)
    ensures l.total == |at|
  {
  }

  // ---- Damaged layers ----

  /** The ids of the ghosts in view. */
  function GhostIds(ghosts: Listing, sel: Selection): set<Id> {
    set x | x in ghosts && Sees(sel, x.cell) :: x.id
  }

  /** A scan of any layer meets the placed ids in view and the ghosts in view. */
  lemma HauntedSees(l: Layer, at: Placement, ghosts: Listing, sel: Selection)
    requires Lists(l, Exactly(at) + ghosts) && 0 !in at.Values
    ensures SeenBy(l, sel) == SeenIds(at, sel) + GhostIds(ghosts, sel)
  {
    var all := Exactly(at) + ghosts;
    ListedEntries(l, all);
    hide Lists;
    hide Exactly;
    forall id ensures id in SeenBy(l, sel) <==> id in SeenIds(at, sel) + GhostIds(ghosts, sel) {
      SeenEntry(l, at, ghosts, sel, id);
    }
  }

  lemma ListedEntries(l: Layer, all: Listing)
    requires Lists(l, all)
    ensures forall x: Entry :: x in all <==> x.id in Lookup(l.ids, x.cell, [])
  {
    forall x: Entry ensures x in all <==> x.id in Lookup(l.ids, x.cell, []) {
      assert Times(l, x.cell, x.id) == all[Entry(x.cell, x.id)];
    }
  }

  lemma SeenEntry(l: Layer, at: Placement, ghosts: Listing, sel: Selection, id: Id)
    requires 0 !in at.Values
    requires forall x: Entry :: x in Exactly(at) + ghosts <==> x.id in Lookup(l.ids, x.cell, [])
    ensures id in SeenBy(l, sel) <==> id in SeenIds(at, sel) + GhostIds(ghosts, sel)
  {
    hide Exactly;
    if id in SeenBy(l, sel) {
      var c :| c in SeenOf(l.ids.Keys, sel) && id in Lookup(l.ids, c, []);
      assert Entry(c, id) in Exactly(at) + ghosts;
      ExactlyAt(at, c, id);
    }
    if id in SeenIds(at, sel) {
      ExactlyAt(at, at[id], id);
      assert Entry(at[id], id) in Exactly(at) + ghosts;
    }
    if id in GhostIds(ghosts, sel) {
      var x :| x in ghosts && Sees(sel, x.cell) && x.id == id;
      assert x in Exactly(at) + ghosts;
    }
  }

  lemma LiveEntities(t: Tables, ids: set<Id>)
    requires t.Ok()
    ensures forall e :: e in EntitiesOf(t.entities, ids) ==> e.id in t.View() && e == t.View()[e.id].entity
  {
    forall e | e in EntitiesOf(t.entities, ids) ensures e.id in t.View() && e == t.View()[e.id].entity {
      var x :| x in ids && x in t.entities && t.entities[x] == e;
      assert t.ids[t.names[x]] == x;
    }
  }

  lemma EntitiesOfBoth(entities: map<Id, Entity>, a: set<Id>, b: set<Id>)
    ensures EntitiesOf(entities, a + b) == EntitiesOf(entities, a) + EntitiesOf(entities, b)
  {
  }

  /** What a scan of a damaged layer lists: what is in view, and the live entities with a ghost in view. */
  lemma HauntedAnswer(t: Tables, l: Layer, ghosts: Listing, j: nat, zoom: int, sel: Selection, visible: seq<Entity>)
    requires LayerIndex(zoom) == Some(j) && t.Ok() && Lists(l, Exactly(PlacementOf(t.cells, j)) + ghosts)
    requires Met(t.entities, zoom < 5, visible, |SeenBy(l, sel)|, SeenBy(l, sel))
    ensures DistinctIds(visible) && (zoom < 5 ==> visible == [])
    ensures Elements(visible) == AnsweredEntities(t.View(), zoom, sel) +
      (if zoom < 5 then {} else EntitiesOf(t.entities, GhostIds(ghosts, sel)))
    ensures forall e :: e in visible ==> e.id in t.View() && e == t.View()[e.id].entity
  {
    HauntedSees(l, PlacementOf(t.cells, j), ghosts, sel);
    LiveEntities(t, SeenBy(l, sel));
    hide Lists;
    hide Exactly;
    hide Tables.Ok;
    hide Tables.View;
    hide PlacementOf;
    hide SeenIds;
    hide SeenBy;
    hide GhostIds;
    hide Visible;
    hide EntitiesOf;
    if zoom >= 5 {
      SeenEntities(t, j, sel);
      EntitiesOfBoth(t.entities, SeenIds(PlacementOf(t.cells, j), sel), GhostIds(ghosts, sel));
      assert forall e :: e in visible <==> e in Elements(visible);
    }
  }

  /** What a damaged layer counts in a cell: its live entities and its ghosts. */
  ghost function HauntedCount(m: Content, ghosts: Listing, j: nat, c: Cell): nat
    requires j < 5
  {
    |IdsAt(m, j, c)| + |InCell(ghosts, c)|
  }

  /** The clusters of a damaged layer: as many as its lists hold. */
  lemma HauntedClusters(geo: Geo, t: Tables, l: Layer, ghosts: Listing, j: nat, sel: Selection, c: Cell)
    requires j < 5 && t.Ok() && Lists(l, Exactly(PlacementOf(t.cells, j)) + ghosts) && c != 0
    ensures var clusters, count := ScannedClusters(geo, l, sel, true), HauntedCount(t.View(), ghosts, j, c);
      && (c in l.ids <==> count > 0)
      && (CellName(c) in clusters <==> c in CellsToCount(l, sel) && count > 0)
      && (CellName(c) in clusters ==> clusters[CellName(c)] == ClusterAt(geo, c, count))
  {
    CountWithGhosts(l, PlacementOf(t.cells, j), ghosts, c);
    MembersNames(t, j, c);
    ListedIfCounted(l, Exactly(PlacementOf(t.cells, j)) + ghosts, c);
    hide Lists;
    hide Exactly;
    hide Tables.Ok;
    hide Tables.View;
    hide PlacementOf;
    hide IdsAt;
    hide InCell;
    hide Members;
    NamedExactly(geo, Counted(l, true, CellsToCount(l, sel)), c);
    hide Named;
    hide CellName;
    hide ClusterAt;
  }

  lemma ListedIfCounted(l: Layer, all: Listing, c: Cell)
    requires Lists(l, all)
    ensures c in l.ids <==> Lookup(l.counts, c, 0) > 0
  {
  }

  lemma NamedExactly(geo: Geo, counts: map<Cell, int>, c: Cell)
    ensures CellName(c) in Named(geo, counts) <==> c in counts && counts[c] > 0
    ensures CellName(c) in Named(geo, counts) ==> Named(geo, counts)[CellName(c)] == ClusterAt(geo, c, counts[c])
  {
    NamesDiffer();
    NamedIs(geo, counts);
    hide CellName;
    hide Named;
    hide ClusterAt;
  }

  /** The out-of-view entry of a damaged layer: every ghost is in the total, and an id is met once. */
  lemma HauntedOutOfView(geo: Geo, t: Tables, l: Layer, ghosts: Listing, j: nat, sel: Selection)
    requires j < 5 && t.Ok() && Lists(l, Exactly(PlacementOf(t.cells, j)) + ghosts)
    ensures ScannedClusters(geo, l, sel, false) ==
      OutOfView(|InView(t.View(), j, Everywhere)| + |ghosts| - |SeenIds(PlacementOf(t.cells, j), sel) + GhostIds(ghosts, sel)|)
  {
    hide Lists;
    hide Exactly;
    hide LayerInv;
    hide Tables.Ok;
    hide Tables.View;
    hide PlacementOf;
    hide SeenIds;
    hide SeenBy;
    hide GhostIds;
    hide InView;
    hide OutOfView;
    var at := PlacementOf(t.cells, j);
    NoZeroCell(t.cells, j);
    TotalDrift(l, at, ghosts);
    HauntedSees(l, at, ghosts, sel);
    SeenNames(t, j, Everywhere);
    EverySeen(t, j);
  }

  lemma NoZeroCell(cells: map<Id, Cells>, j: nat)
    requires j < 5
    ensures 0 !in PlacementOf(cells, j).Values
  {
  }

  lemma ScannedNames(geo: Geo, l: Layer, sel: Selection, onlyClusters: bool)
    ensures forall name :: name in ScannedClusters(geo, l, sel, onlyClusters) ==> IsClusterName(name)
  {
    if onlyClusters {
      NamedIs(geo, Counted(l, true, CellsToCount(l, sel)));
    }
    hide CellName;
  }

  lemma EverySeen(t: Tables, j: nat)
    requires j < 5
    ensures |SeenIds(PlacementOf(t.cells, j), Everywhere)| == |PlacementOf(t.cells, j)|
  {
    var at := PlacementOf(t.cells, j);
    assert SeenIds(at, Everywhere) == at.Keys;
  }

  lemma ClustersAreSpecified(geo: Geo, t: Tables, l: Layer, j: nat, sel: Selection)
    requires j < 5 && t.Ok() && LayerInv(l, PlacementOf(t.cells, j))
    ensures Named(geo, Counted(l, true, CellsToCount(l, sel))) ==
      Named(geo, CountsOf(t.View(), j, Reported(t.View(), j, sel)))
  {
    hide Named;
    hide LayerInv;
    hide Tables.Ok;
    hide Tables.View;
    hide PlacementOf;
    hide Counted;
    hide CountsOf;
    CountedNames(geo, t, l, j, CellsToCount(l, sel));
    PopulatedCells(t, l, j);
    CellsReported(l, t.View(), j, sel);
  }

  lemma CellsReported(l: Layer, m: Content, j: nat, sel: Selection)
    requires j < 5 && l.ids.Keys == Populated(m, j)
    ensures CellsToCount(l, sel) - {0} == Reported(m, j, sel)
  {
    assert |l.ids| == |l.ids.Keys|;
  }

  // ---- What the answers mean ----

  /** Zoom 4 asks for a resolution nobody maintains: nothing is listed, nothing is counted. */
  lemma NothingToScan(geo: Geo, m: Content, zoom: int, sel: Selection, out: map<string, Cluster>)
    requires LayerIndex(zoom).None?
    ensures AnsweredEntities(m, zoom, sel) == {} && AnsweredClusters(geo, m, zoom, sel) == map[]
    ensures out + AnsweredClusters(geo, m, zoom, sel) == out
  {
  }

  /** The entity stands on the viewport's map: the engine accepts its position, and its own cell, at
      resolution 6 for zooms 5 to 7 and at resolution 7 from zoom 8 on, is in view. */
  ghost predicate OnView(geo: Geo, vp: Viewport, e: Entity) {
    var p := LatLng(e.lat, e.lng);
    geo.accepts(p) &&
    if vp.zoom < 5 then false
    else if vp.zoom < 8 then Encloses(geo, vp, 6, geo.cellAt(p, 6))
    else Encloses(geo, vp, 7, geo.cellAt(p, 7))
  }

  /** The listing, entity by entity. */
  ghost predicate ListsByPosition(geo: Geo, m: Content, vp: Viewport, visible: seq<Entity>) {
    && (forall s :: s in m ==> (m[s].entity in visible <==> OnView(geo, vp, m[s].entity)))
    && (forall e :: e in visible ==> e.id in m && m[e.id].entity == e)
  }

  lemma SeesIs(geo: Geo, vp: Viewport, res: int, c: Cell)
    requires SelectionOf(geo, vp).Ok? && res == ZoomToResolution(vp.zoom)
    ensures Sees(SelectionOf(geo, vp).value, c) <==> c != 0 && Encloses(geo, vp, res, c)
  {
    ViewportCellsAre(geo, vp, res);
    hide ViewportCells;
  }

  lemma SeenAtPosition(geo: Geo, m: Content, vp: Viewport, s: string)
    requires Located(geo, m) && SelectionOf(geo, vp).Ok? && vp.zoom >= 5 && s in m
    ensures Sees(SelectionOf(geo, vp).value, m[s].cells[LayerIndex(vp.zoom).value]) <==> OnView(geo, vp, m[s].entity)
  {
    assert LocatedAt(geo, s, m[s]);
    SeesIs(geo, vp, if vp.zoom < 8 then 6 else 7, m[s].cells[LayerIndex(vp.zoom).value]);
    hide SelectionOf;
    hide Encloses;
  }

  /** From zoom 5 on an answer lists exactly the entities that stand on the viewport's map, and below
      none. */
  lemma AnswerListsByPosition(geo: Geo, m: Content, vp: Viewport, visible: seq<Entity>, clusters: map<string, Cluster>)
    requires Located(geo, m) && Answers(geo, m, vp, visible, clusters)
    ensures ListsByPosition(geo, m, vp, visible)
  {
    hide SelectionOf;
    hide OnView;
    hide AnsweredClusters;
    assert forall s :: s in m ==> LocatedAt(geo, s, m[s]);
    hide Located;
    forall e ensures e in visible <==> e in Elements(visible) {
    }
    if vp.zoom < 5 {
      NotOnView(geo, vp);
    } else {
      forall s | s in m
        ensures Sees(SelectionOf(geo, vp).value, m[s].cells[LayerIndex(vp.zoom).value]) <==> OnView(geo, vp, m[s].entity)
      {
        SeenAtPosition(geo, m, vp, s);
      }
      VisibleByPosition(geo, m, vp, visible);
    }
  }

  lemma NotOnView(geo: Geo, vp: Viewport)
    requires vp.zoom < 5
    ensures forall e :: !OnView(geo, vp, e)
  {
  }

  lemma VisibleByPosition(geo: Geo, m: Content, vp: Viewport, visible: seq<Entity>)
    requires SelectionOf(geo, vp).Ok? && vp.zoom >= 5 && forall s :: s in m ==> m[s].entity.id == s
    requires forall s :: s in m ==>
      (Sees(SelectionOf(geo, vp).value, m[s].cells[LayerIndex(vp.zoom).value]) <==> OnView(geo, vp, m[s].entity))
    requires forall e :: e in visible <==> e in Visible(m, LayerIndex(vp.zoom).value, SelectionOf(geo, vp).value)
    ensures ListsByPosition(geo, m, vp, visible)
  {
    hide SelectionOf;
    hide OnView;
    hide Sees;
  }

  // ---- What the cluster map says, position by position ----

  /** The entities whose position lies in a cell at resolution 3. */
  function Around(geo: Geo, m: Content, c: Cell): set<string> {
    set s | s in m && geo.accepts(LatLng(m[s].entity.lat, m[s].entity.lng))
            && geo.cellAt(LatLng(m[s].entity.lat, m[s].entity.lng), 3) == c
  }

  /** The cells at resolution 3 that have entities. */
  function Inhabited(geo: Geo, m: Content): set<Cell> {
    set s | s in m && geo.accepts(LatLng(m[s].entity.lat, m[s].entity.lng)) ::
      geo.cellAt(LatLng(m[s].entity.lat, m[s].entity.lng), 3)
  }

  /** A cell at resolution 3 is looked at: it is in view, or the viewport has no fewer cells than are
      inhabited, or it is the whole world. */
  ghost predicate InScope(geo: Geo, vp: Viewport, inhabited: nat, c: Cell) {
    if vp.north >= 90.0 && vp.south <= -90.0 && vp.east >= 180.0 && vp.west <= -180.0 then true
    else
      var cells := ViewportCells(geo, vp, 3);
      cells.Ok? && (|cells.value| >= inhabited || Encloses(geo, vp, 3, c))
  }

  /** The clusters below zoom 4: one for each inhabited cell, counting its entities and standing at its
      centre. Only cells in view are reported when the viewport has fewer cells than are inhabited. */
  ghost predicate ClustersByPosition(geo: Geo, m: Content, vp: Viewport, clusters: map<string, Cluster>) {
    && (forall name :: name in clusters ==> exists c :: c != 0 && name == CellName(c))
    && forall c: Cell :: c != 0 ==>
      && (CellName(c) in clusters <==>
            Around(geo, m, c) != {} && InScope(geo, vp, |Inhabited(geo, m)|, c))
      && (CellName(c) in clusters ==>
            clusters[CellName(c)] == Cluster(geo.center(c).lat, geo.center(c).lng, |Around(geo, m, c)|))
  }

  lemma AroundIs(geo: Geo, m: Content)
    requires Located(geo, m)
    ensures forall c :: c != 0 ==> Around(geo, m, c) == IdsAt(m, 1, c)
    ensures Inhabited(geo, m) == Populated(m, 1)
  {
    forall s | s in m
      ensures var p := LatLng(m[s].entity.lat, m[s].entity.lng); m[s].cells[1] == if geo.accepts(p) then geo.cellAt(p, 3) else 0
    {
      assert LocatedAt(geo, s, m[s]);
    }
    hide Located;
  }

  lemma ReportedIs(geo: Geo, m: Content, vp: Viewport, c: Cell)
    requires SelectionOf(geo, vp).Ok? && vp.zoom < 4 && c != 0
    ensures c in Reported(m, 1, SelectionOf(geo, vp).value) && IdsAt(m, 1, c) != {} <==>
      IdsAt(m, 1, c) != {} && InScope(geo, vp, |Populated(m, 1)|, c)
  {
    ViewportCellsAre(geo, vp, 3);
    hide ViewportCells;
    if s :| s in IdsAt(m, 1, c) {
      assert c in Populated(m, 1);
    }
  }

  lemma NamesOfCells(geo: Geo, m: Content, zoom: int, sel: Selection, name: string)
    requires zoom < 4 && name in AnsweredClusters(geo, m, zoom, sel)
    ensures exists c :: c != 0 && name == CellName(c)
  {
    hide CellName;
    var counts := CountsOf(m, 1, Reported(m, 1, sel));
    NamedIs(geo, counts);
    hide Named;
    var c :| c in counts && counts[c] > 0 && name == CellName(c);
    assert c != 0;
  }

  lemma AnswerClustersByPosition(geo: Geo, m: Content, vp: Viewport, visible: seq<Entity>, clusters: map<string, Cluster>)
    requires Located(geo, m) && Answers(geo, m, vp, visible, clusters) && vp.zoom < 4
    ensures ClustersByPosition(geo, m, vp, clusters)
  {
    hide SelectionOf;
    hide ViewportCells;
    hide Located;
    hide AnsweredClusters;
    hide AnsweredEntities;
    hide CellName;
    hide InScope;
    hide Reported;
    hide IdsAt;
    hide Around;
    hide Inhabited;
    hide Populated;
    var sel := SelectionOf(geo, vp).value;
    AroundIs(geo, m);
    forall name | name in clusters ensures exists c :: c != 0 && name == CellName(c) {
      NamesOfCells(geo, m, vp.zoom, sel, name);
    }
    forall c: Cell | c != 0
      ensures (CellName(c) in clusters <==> c in Reported(m, 1, sel) && IdsAt(m, 1, c) != {})
        && (CellName(c) in clusters ==>
              clusters[CellName(c)] == Cluster(geo.center(c).lat, geo.center(c).lng, |IdsAt(m, 1, c)|))
    {
      ClusterPerCell(geo, m, vp.zoom, sel, c);
    }
    forall c: Cell | c != 0
      ensures c in Reported(m, 1, sel) && IdsAt(m, 1, c) != {} <==> Around(geo, m, c) != {} && InScope(geo, vp, |Inhabited(geo, m)|, c)
    {
      ReportedIs(geo, m, vp, c);
    }
  }

  /** The entities whose position the engine accepts. */
  function Accepted(geo: Geo, m: Content): set<string> {
    set s | s in m && geo.accepts(LatLng(m[s].entity.lat, m[s].entity.lng))
  }

  /** The one entry from zoom 5 on: how many of these are not listed, if any. */
  ghost predicate CountsOutside(geo: Geo, m: Content, visible: seq<Entity>, clusters: map<string, Cluster>) {
    clusters ==
      if |Accepted(geo, m)| > |visible| then map["out_of_view" := Cluster(0.0, 0.0, |Accepted(geo, m)| - |visible|)]
      else map[]
  }

  lemma AcceptedInView(geo: Geo, m: Content, j: nat)
    requires Located(geo, m) && j < 5
    ensures InView(m, j, Everywhere) == Accepted(geo, m)
  {
    forall s | s in m ensures m[s].cells[j] != 0 <==> geo.accepts(LatLng(m[s].entity.lat, m[s].entity.lng)) {
      assert LocatedAt(geo, s, m[s]);
    }
    hide Located;
  }

  lemma AnswerCountsOutside(geo: Geo, m: Content, vp: Viewport, visible: seq<Entity>, clusters: map<string, Cluster>)
    requires Located(geo, m) && Answers(geo, m, vp, visible, clusters) && vp.zoom >= 5
    ensures CountsOutside(geo, m, visible, clusters)
  {
    hide SelectionOf;
    hide AnsweredEntities;
    hide AnsweredClusters;
    hide InView;
    hide Accepted;
    assert forall s :: s in m ==> LocatedAt(geo, s, m[s]);
    DetailConserves(geo, m, vp.zoom, SelectionOf(geo, vp).value, visible);
    AcceptedInView(geo, m, LayerIndex(vp.zoom).value);
    OneEntry(geo, m, vp.zoom, SelectionOf(geo, vp).value);
  }

  lemma OneEntry(geo: Geo, m: Content, zoom: int, sel: Selection)
    requires zoom >= 5
    ensures var clusters := AnsweredClusters(geo, m, zoom, sel);
      clusters == map[] || (clusters == map["out_of_view" := Cluster(0.0, 0.0, clusters["out_of_view"].count)] && clusters["out_of_view"].count > 0)
  {
  }

  lemma AnswerByPosition(geo: Geo, m: Content, vp: Viewport, visible: seq<Entity>, clusters: map<string, Cluster>)
    requires Located(geo, m) && Answers(geo, m, vp, visible, clusters)
    ensures ListsByPosition(geo, m, vp, visible)
    ensures vp.zoom < 4 ==> ClustersByPosition(geo, m, vp, clusters)
    ensures vp.zoom == 4 ==> clusters == map[]
    ensures vp.zoom >= 5 ==> CountsOutside(geo, m, visible, clusters)
  {
    NothingAtFour(geo, m, vp, visible, clusters);
    hide Answers;
    hide ListsByPosition;
    hide ClustersByPosition;
    AnswerListsByPosition(geo, m, vp, visible, clusters);
    if vp.zoom < 4 {
      AnswerClustersByPosition(geo, m, vp, visible, clusters);
    } else if vp.zoom >= 5 {
      AnswerCountsOutside(geo, m, vp, visible, clusters);
    }
  }

  lemma NothingAtFour(geo: Geo, m: Content, vp: Viewport, visible: seq<Entity>, clusters: map<string, Cluster>)
    requires Answers(geo, m, vp, visible, clusters)
    ensures vp.zoom == 4 ==> clusters == map[]
  {
  }

  /** The cells' names are their numbers in hexadecimal, in lower case and without leading zeros. */
  lemma CellNameReads(c: Cell)
    ensures Numerals.Value(CellName(c), 16) == c
    ensures forall i :: 0 <= i < |CellName(c)| ==> CellName(c)[i] in "0123456789abcdef"
    ensures c > 0 ==> CellName(c)[0] != '0'
  {
    Numerals.DigitsRoundTrip(c, 16);
    Numerals.LowerCase(c);
  }

  /** In detail mode the listed and the out-of-view entities together are all the placed ones,
      whichever scan was chosen. */
  lemma DetailConserves(geo: Geo, m: Content, zoom: int, sel: Selection, visible: seq<Entity>)
    requires zoom >= 5 && forall s :: s in m ==> m[s].entity.id == s
    requires DistinctIds(visible) && Elements(visible) == AnsweredEntities(m, zoom, sel)
    ensures var clusters := AnsweredClusters(geo, m, zoom, sel);
      && clusters.Keys <= {"out_of_view"} && (clusters != map[] ==> clusters["out_of_view"].lat == 0.0 && clusters["out_of_view"].lng == 0.0)
      && |visible| + (if clusters == map[] then 0 else clusters["out_of_view"].count)
         == |InView(m, LayerIndex(zoom).value, Everywhere)|
  {
    var j := LayerIndex(zoom).value;
    var seen, all := InView(m, j, sel), InView(m, j, Everywhere);
    IdsOfDistinct(visible);
    forall s | s in seen ensures s in Ids(visible) {
      assert m[s].entity in Elements(visible);
    }
    forall s | s in Ids(visible) ensures s in seen {
      var e :| e in visible && e.id == s;
      assert e in Visible(m, j, sel);
    }
    assert Ids(visible) == seen;
    assert seen <= all;
    SubsetSize(seen, all);
    assert |all| > |seen| ==> "out_of_view" in AnsweredClusters(geo, m, zoom, sel);
  }

  lemma SubsetSize<T>(a: set<T>, b: set<T>)
    requires a <= b
    ensures |a| <= |b|
  {
    assert b == a + (b - a);
  }

  lemma {:induction false} IdsOfDistinct(es: seq<Entity>)
    requires DistinctIds(es)
    ensures |Ids(es)| == |es|
  {
    if es != [] {
      var front, last := es[..|es| - 1], es[|es| - 1];
      IdsOfDistinct(front);
      assert es == front + [last];
      assert Ids(es) == Ids(front) + {last.id};
      assert last.id !in Ids(front);
    }
  }

  ghost function TotalCount(clusters: map<string, Cluster>): int {
    if clusters == map[] then 0 else
      var k :| k in clusters;
      clusters[k].count + TotalCount(clusters - {k})
  }

  function IdsIn(m: Content, j: nat, cells: set<Cell>): set<string>
    requires j < 5
  {
    set s | s in m && m[s].cells[j] in cells
  }

  /** Cluster counts are positive and sum to the number of entities in the counted cells. */
  lemma {:induction false} ClusterCountsSum(geo: Geo, m: Content, j: nat, cells: set<Cell>)
    requires j < 5
    ensures TotalCount(Named(geo, CountsOf(m, j, cells))) == |IdsIn(m, j, cells)|
    decreases cells
  {
    hide CellName;
    hide Named;
    hide IdsIn;
    hide IdsAt;
    var counts := CountsOf(m, j, cells);
    var clusters := Named(geo, counts);
    NamedIs(geo, counts);
    if clusters == map[] {
      NothingCounted(m, j, cells);
    } else {
      var k :| k in clusters && TotalCount(clusters) == clusters[k].count + TotalCount(clusters - {k});
      var c :| c in counts && counts[c] > 0 && k == CellName(c);
      ClusterCountsSum(geo, m, j, cells - {c});
      NamedWithout(geo, m, j, cells, c);
      IdsInSplit(m, j, cells, c);
    }
  }

  /** The viewport scan's counts sum to the population in view, the other scans' counts to the whole
      population: in cluster mode the choice of scan shows in the answer. */
  lemma ClusterScansSum(geo: Geo, m: Content, zoom: int, sel: Selection)
    requires zoom < 4
    ensures TotalCount(AnsweredClusters(geo, m, zoom, sel)) ==
      if sel.Within? && |sel.cells| < |Populated(m, 1)| then |InView(m, 1, sel)| else |InView(m, 1, Everywhere)|
  {
    hide Named;
    hide TotalCount;
    hide CountsOf;
    ClusterCountsSum(geo, m, 1, Reported(m, 1, sel));
    if sel.Within? && |sel.cells| < |Populated(m, 1)| {
      assert IdsIn(m, 1, sel.cells - {0}) == InView(m, 1, sel);
    } else {
      assert IdsIn(m, 1, Populated(m, 1)) == InView(m, 1, Everywhere);
    }
  }

  /** A cluster stands under the name of a cell exactly when the cell is reported and populated, and
      it counts the entities of that cell. */
  lemma ClusterPerCell(geo: Geo, m: Content, zoom: int, sel: Selection, c: Cell)
    requires zoom < 4
    ensures var clusters := AnsweredClusters(geo, m, zoom, sel);
      && (CellName(c) in clusters <==> c in Reported(m, 1, sel) && IdsAt(m, 1, c) != {})
      && (CellName(c) in clusters ==>
            clusters[CellName(c)] == Cluster(geo.center(c).lat, geo.center(c).lng, |IdsAt(m, 1, c)|))
  {
    hide CellName;
    hide Named;
    hide Reported;
    hide IdsAt;
    NamedIs(geo, CountsOf(m, 1, Reported(m, 1, sel)));
    NamesDiffer();
  }

  lemma NothingCounted(m: Content, j: nat, cells: set<Cell>)
    requires j < 5 && forall c :: c in CountsOf(m, j, cells) ==> CountsOf(m, j, cells)[c] == 0
    ensures IdsIn(m, j, cells) == {}
  {
    forall s | s in m && m[s].cells[j] in cells ensures m[s].cells[j] in CountsOf(m, j, cells) {
      assert s in IdsAt(m, j, m[s].cells[j]);
    }
  }

  lemma IdsInSplit(m: Content, j: nat, cells: set<Cell>, c: Cell)
    requires j < 5 && c in cells
    ensures |IdsIn(m, j, cells)| == |IdsAt(m, j, c)| + |IdsIn(m, j, cells - {c})|
  {
    assert IdsIn(m, j, cells) == IdsAt(m, j, c) + IdsIn(m, j, cells - {c});
    assert IdsAt(m, j, c) !! IdsIn(m, j, cells - {c});
  }

  lemma NamedWithout(geo: Geo, m: Content, j: nat, cells: set<Cell>, c: Cell)
    requires j < 5 && c in CountsOf(m, j, cells)
    ensures Named(geo, CountsOf(m, j, cells)) - {CellName(c)} == Named(geo, CountsOf(m, j, cells - {c}))
  {
    hide CellName;
    var rest := CountsOf(m, j, cells - {c});
    assert CountsOf(m, j, cells) == rest[c := |IdsAt(m, j, c)|];
    NamedOneMore(geo, rest, c, |IdsAt(m, j, c)|);
    NamedSkips(geo, rest, c);
    hide Named;
    UndoUpdate(Named(geo, rest), CellName(c), ClusterAt(geo, c, |IdsAt(m, j, c)|));
  }

  lemma UndoUpdate<K, V>(m: map<K, V>, k: K, v: V)
    requires k !in m
    ensures m[k := v] - {k} == m
  {
  }
}
