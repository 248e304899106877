/** One resolution of the spatial index: the id list of every populated cell, the count kept
    for every cell ever touched, and the running total. */
module Layers {
  import opened Entities

  type Id = nat
  type Cell = nat
  datatype Layer = Layer(ids: map<Cell, seq<Id>>, counts: map<Cell, int>, total: int)

  /** Where every live, placed id sits. */
  type Placement = map<Id, Cell>

  function Members(at: Placement, c: Cell): set<Id> {
    set id | id in at && at[id] == c
  }

  function PlacedIn(at: Placement, cells: set<Cell>): set<Id> {
    set id | id in at && at[id] in cells
  }

  /** The id lists are exactly the placement: no empty list, no id twice, each id in its cell. */
  ghost predicate ListsInv(ids: map<Cell, seq<Id>>, at: Placement) {
    && (forall c :: c in ids ==> ids[c] != [] && NoDuplicates(ids[c]))
    && (forall c, id :: id in Lookup(ids, c, []) <==> id in at && at[id] == c)
  }

  /** Every count is the length of its list, and a cell that was emptied counts zero. */
  ghost predicate CountsInv(l: Layer) {
    && l.ids.Keys <= l.counts.Keys
    && forall c :: c in l.counts ==> l.counts[c] == |Lookup(l.ids, c, [])|
  }

  /** The layer lists exactly the placement `at`. */
  ghost predicate LayerInv(l: Layer, at: Placement) {
    && ListsInv(l.ids, at)
    && CountsInv(l)
    && 0 !in l.ids
    && l.total == |at|
  }

  function SwapRemove<T>(s: seq<T>, k: nat): seq<T>
    requires k < |s|
  {
    s[k := s[|s| - 1]][..|s| - 1]
  }

  function FirstIndex<T(==)>(s: seq<T>, x: T): (k: nat)
    requires x in s
    ensures k < |s| && s[k] == x && x !in s[..k]
  {
    if s[0] == x then 0 else 1 + FirstIndex(s[1..], x)
  }

  lemma FirstIndexIs<T>(s: seq<T>, x: T, k: nat)
    requires k < |s| && s[k] == x && x !in s[..k]
    ensures FirstIndex(s, x) == k
  {
    if k > 0 {
      assert s[0] == s[..k][0];
      assert s[1..][..k - 1] == s[..k][1..];
      FirstIndexIs(s[1..], x, k - 1);
    }
  }

  lemma SwapRemoveContents<T>(s: seq<T>, k: nat)
    requires k < |s|
    ensures multiset(SwapRemove(s, k)) == multiset(s) - multiset{s[k]}
  {
    var n := |s| - 1;
    assert s == s[..n] + [s[n]];
    if k < n {
      var front, back := s[..k], s[k + 1..n];
      assert SwapRemove(s, k) == front + [s[n]] + back;
      assert s[..n] == front + [s[k]] + back;
    } else {
      assert SwapRemove(s, k) == s[..n];
    }
  }

  /** What swap-removing the first `id` from the list of cell `c` does to the layer. */
  function TakeOut(l: Layer, c: Cell, id: Id): Layer {
    var ids := Lookup(l.ids, c, []);
    if id !in ids then l else
      var rest := SwapRemove(ids, FirstIndex(ids, id));
      Layer(if rest == [] then l.ids - {c} else l.ids[c := rest],
            l.counts[c := Lookup(l.counts, c, 0) - 1],
            l.total - 1)
  }

  /** What appending `id` to the list of cell `c` does to the layer. */
  function PutIn(l: Layer, c: Cell, id: Id): Layer {
    Layer(l.ids[c := Lookup(l.ids, c, []) + [id]],
          l.counts[c := Lookup(l.counts, c, 0) + 1],
          l.total + 1)
  }

  // ---- The listing: what a layer contains, placed or not ----

  /** One place in the id lists. */
  datatype Entry = Entry(cell: Cell, id: Id)
  /** How often each id stands in the list of each cell. */
  type Listing = multiset<Entry>

  /** How often an id stands in the list of a cell. */
  function Times(l: Layer, c: Cell, id: Id): nat {
    multiset(Lookup(l.ids, c, []))[id]
  }

  /** The layer lists exactly `all`, and its counts and total agree with its lists. */
  ghost predicate Lists(l: Layer, all: Listing) {
    && (forall c, id :: Times(l, c, id) == all[Entry(c, id)])
    && (forall c :: c in l.ids ==> l.ids[c] != [])
    && CountsInv(l)
    && 0 !in l.ids
    && l.total == |all|
  }

  /** The listing a placement asks for: each placed id once, in its cell. */
  function Exactly(at: Placement): Listing {
    multiset(set id | id in at :: Entry(at[id], id))
  }

  lemma ExactlyAt(at: Placement, c: Cell, id: Id)
    ensures Exactly(at)[Entry(c, id)] == if id in at && at[id] == c then 1 else 0
  {
    assert Entry(c, id) in Exactly(at) <==> id in at && at[id] == c;
  }

  lemma ListsOnce(l: Layer, all: Listing, other: Listing)
    requires Lists(l, all) && Lists(l, other)
    ensures all == other
  {
    forall x: Entry ensures all[x] == other[x] {
      assert all[Entry(x.cell, x.id)] == Times(l, x.cell, x.id) == other[Entry(x.cell, x.id)];
    }
  }

  lemma {:induction false} ExactlySize(at: Placement)
    ensures |Exactly(at)| == |at|
    decreases |at|
  {
    if at == map[] {
      assert Exactly(at) == multiset{};
    } else {
      var id :| id in at;
      var rest := at - {id};
      assert |rest| < |at| by {
        assert at.Keys == rest.Keys + {id};
      }
      ExactlySize(rest);
      assert at == rest[id := at[id]];
      ExactlyWith(rest, id, at[id]);
    }
  }

  lemma ExactlyWith(at: Placement, id: Id, c: Cell)
    requires id !in at
    ensures Exactly(at[id := c]) == Exactly(at) + multiset{Entry(c, id)}
  {
    var more := at[id := c];
    forall x: Entry ensures Exactly(more)[x] == (Exactly(at) + multiset{Entry(c, id)})[x] {
      ExactlyAt(more, x.cell, x.id);
      ExactlyAt(at, x.cell, x.id);
    }
  }

  lemma ExactlyWithout(at: Placement, id: Id)
    ensures Exactly(at - {id}) == Exactly(at) - if id in at then multiset{Entry(at[id], id)} else multiset{}
  {
    if id in at {
      ExactlyWith(at - {id}, id, at[id]);
      assert (at - {id})[id := at[id]] == at;
    } else {
      assert at - {id} == at;
    }
  }

  /** The invariant of a sound layer is that it lists exactly the placement. */
  lemma LayerInvIs(l: Layer, at: Placement)
    ensures LayerInv(l, at) <==> Lists(l, Exactly(at))
  {
    ExactlySize(at);
    if LayerInv(l, at) {
      forall c, id ensures Times(l, c, id) == Exactly(at)[Entry(c, id)] {
        SoundTimes(l, at, c, id);
      }
    }
    if Lists(l, Exactly(at)) {
      ExactLists(l, at);
    }
  }

  lemma SoundTimes(l: Layer, at: Placement, c: Cell, id: Id)
    requires ListsInv(l.ids, at)
    ensures Times(l, c, id) == Exactly(at)[Entry(c, id)]
  {
    ExactlyAt(at, c, id);
    OnceEach(Lookup(l.ids, c, []), id);
  }

  lemma ExactLists(l: Layer, at: Placement)
    requires Lists(l, Exactly(at))
    ensures ListsInv(l.ids, at)
  {
    forall c, id ensures id in Lookup(l.ids, c, []) <==> id in at && at[id] == c {
      ExactlyAt(at, c, id);
      assert id in Lookup(l.ids, c, []) <==> Times(l, c, id) > 0;
    }
    forall c | c in l.ids ensures NoDuplicates(l.ids[c]) {
      forall id ensures multiset(l.ids[c])[id] <= 1 {
        ExactlyAt(at, c, id);
        assert multiset(l.ids[c])[id] == Times(l, c, id);
      }
      NeverTwice(l.ids[c]);
    }
  }

  lemma OnceEach<T>(s: seq<T>, x: T)
    requires NoDuplicates(s)
    ensures multiset(s)[x] == if x in s then 1 else 0
  {
    if x in s {
      var k :| 0 <= k < |s| && s[k] == x;
      assert s == s[..k] + [x] + s[k + 1..];
      assert x !in s[..k] && x !in s[k + 1..];
    }
  }

  lemma NeverTwice<T>(s: seq<T>)
    requires forall x :: multiset(s)[x] <= 1
    ensures NoDuplicates(s)
  {
    forall i, j | 0 <= i < j < |s| ensures s[i] != s[j] {
      assert s == s[..j] + s[j..];
      assert s[i] in s[..j] && s[j] in s[j..];
      assert multiset(s)[s[i]] == multiset(s[..j])[s[i]] + multiset(s[j..])[s[i]];
    }
  }

  lemma TakeOutList(l: Layer, c: Cell, id: Id, d: Cell)
    ensures var ids := Lookup(l.ids, c, []);
      Lookup(TakeOut(l, c, id).ids, d, []) ==
        if d == c && id in ids then SwapRemove(ids, FirstIndex(ids, id)) else Lookup(l.ids, d, [])
  {
  }

  lemma TakeOutTimes(l: Layer, c: Cell, id: Id, d: Cell, i: Id)
    ensures Times(TakeOut(l, c, id), d, i) ==
      Times(l, d, i) - if d == c && i == id && Times(l, d, i) > 0 then 1 else 0
  {
    hide TakeOut;
    var ids := Lookup(l.ids, c, []);
    TakeOutList(l, c, id, d);
    assert id in ids <==> multiset(ids)[id] > 0;
    if id in ids {
      SwapRemoveContents(ids, FirstIndex(ids, id));
    }
  }

  lemma TakeOutCounts(l: Layer, c: Cell, id: Id)
    requires CountsInv(l)
    ensures CountsInv(TakeOut(l, c, id))
  {
    var ids := Lookup(l.ids, c, []);
    var l' := TakeOut(l, c, id);
    if id in ids {
      assert c in l.ids;
      assert |SwapRemove(ids, FirstIndex(ids, id))| == |ids| - 1;
    }
  }

  /** Swap-removing an id takes one entry of it out of its cell, and nothing else; where there is no
      such entry it does nothing. Counts and total follow. */
  lemma TakeOutKeeps(l: Layer, all: Listing, c: Cell, id: Id)
    requires Lists(l, all)
    ensures Lists(TakeOut(l, c, id), all - multiset{Entry(c, id)})
  {
    hide CountsInv;
    var l', all' := TakeOut(l, c, id), all - multiset{Entry(c, id)};
    TakeOutCounts(l, c, id);
    assert Times(l, c, id) == all[Entry(c, id)];
    assert id in Lookup(l.ids, c, []) <==> Times(l, c, id) > 0;
    assert l'.total == |all'|;
    assert forall d :: d in l'.ids ==> l'.ids[d] != [];
    hide TakeOut;
    hide Times;
    forall d, i ensures Times(l', d, i) == all'[Entry(d, i)] {
      TakeOutTimes(l, c, id, d, i);
      assert Times(l, d, i) == all[Entry(d, i)];
    }
  }

  lemma PutInTimes(l: Layer, c: Cell, id: Id, d: Cell, i: Id)
    ensures Times(PutIn(l, c, id), d, i) == Times(l, d, i) + if d == c && i == id then 1 else 0
  {
  }

  lemma PutInCounts(l: Layer, c: Cell, id: Id)
    requires CountsInv(l)
    ensures CountsInv(PutIn(l, c, id))
  {
    assert c !in l.counts ==> c !in l.ids;
  }

  /** Appending puts one entry in. */
  lemma PutInKeeps(l: Layer, all: Listing, c: Cell, id: Id)
    requires Lists(l, all) && c != 0
    ensures Lists(PutIn(l, c, id), all + multiset{Entry(c, id)})
  {
    hide CountsInv;
    var l', all' := PutIn(l, c, id), all + multiset{Entry(c, id)};
    PutInCounts(l, c, id);
    assert l'.total == |all'|;
    assert forall d :: d in l'.ids ==> l'.ids[d] != [];
    hide PutIn;
    hide Times;
    forall d, i ensures Times(l', d, i) == all'[Entry(d, i)] {
      PutInTimes(l, c, id, d, i);
      assert Times(l, d, i) == all[Entry(d, i)];
    }
  }

  /** One entity reported at cell `now`. `was` is the cell recorded for it, None when it is new.
      A zero cell leaves the layer alone, even if the entity is still listed in it. */
  function Relocate(l: Layer, was: Option<Cell>, now: Cell, id: Id): Layer {
    if now == 0 then l
    else match was
      case None => PutIn(l, now, id)
      case Some(c) => if c == now then l else PutIn(TakeOut(l, c, id), now, id)
  }

  /** The placement once `id` is recorded at `now`. */
  function Placed(at: Placement, id: Id, now: Cell): Placement {
    if now == 0 then at - {id} else at[id := now]
  }

  /** The recorded cell and the placement tell the same story about `id`. */
  ghost predicate Records(at: Placement, was: Option<Cell>, id: Id) {
    match was
    case None => id !in at
    case Some(c) => if c == 0 then id !in at else id in at && at[id] == c
  }

  /** The update the layers do not follow: a placed entity whose new cell is zero. */
  predicate Vanishes(was: Option<Cell>, now: Cell) {
    was.Some? && was.value != 0 && now == 0
  }

  /** The entry an update leaves behind as a ghost: listed, but no longer recorded. */
  function Lost(was: Option<Cell>, now: Cell, id: Id): Listing {
    if Vanishes(was, now) then multiset{Entry(was.value, id)} else multiset{}
  }

  /** A layer follows the placement up to its ghosts, and an update adds a ghost exactly when the
      entity vanishes. No update takes a ghost away. */
  lemma RelocateKeeps(l: Layer, at: Placement, ghosts: Listing, was: Option<Cell>, now: Cell, id: Id)
    requires Lists(l, Exactly(at) + ghosts) && Records(at, was, id)
    ensures Lists(Relocate(l, was, now, id), Exactly(Placed(at, id, now)) + (ghosts + Lost(was, now, id)))
  {
    hide Lists;
    hide TakeOut;
    hide PutIn;
    hide Exactly;
    var all := Exactly(at) + ghosts;
    if now == 0 {
      ExactlyWithout(at, id);
      LeftBehind(at, ghosts, was, id);
    } else if was.None? {
      PutInKeeps(l, all, now, id);
      ExactlyWith(at, id, now);
      assert all + multiset{Entry(now, id)} == Exactly(at[id := now]) + (ghosts + multiset{});
    } else if was.value == now {
      assert at[id := now] == at;
      assert ghosts + multiset{} == ghosts;
    } else {
      Moves(l, at, ghosts, was.value, now, id);
    }
  }

  lemma LeftBehind(at: Placement, ghosts: Listing, was: Option<Cell>, id: Id)
    requires Records(at, was, id)
    ensures Exactly(at - {id}) + (ghosts + Lost(was, 0, id)) == Exactly(at) + ghosts
  {
    ExactlyWithout(at, id);
    if id in at {
      ExactlyAt(at, at[id], id);
    }
  }

  lemma Moves(l: Layer, at: Placement, ghosts: Listing, was: Cell, now: Cell, id: Id)
    requires Lists(l, Exactly(at) + ghosts) && Records(at, Some(was), id) && now != 0
    ensures Lists(PutIn(TakeOut(l, was, id), now, id), Exactly(at[id := now]) + (ghosts + multiset{}))
  {
    hide Exactly;
    hide TakeOut;
    hide PutIn;
    hide Times;
    var all := Exactly(at) + ghosts;
    ZeroUnlisted(l, all, id);
    hide Lists;
    TakeOutKeeps(l, all, was, id);
    PutInKeeps(TakeOut(l, was, id), all - multiset{Entry(was, id)}, now, id);
    MovedExactly(at, was, now, id);
    hide Records;
    Rearranged(Exactly(at), ghosts, Entry(was, id), Entry(now, id));
  }

  /** Moving an entry that is there, or none, moves it within the part that has it. */
  lemma Rearranged(exact: Listing, ghosts: Listing, out: Entry, into: Entry)
    requires exact[out] >= 1 || (exact + ghosts)[out] == 0
    ensures (exact + ghosts) - multiset{out} + multiset{into} ==
      ((if exact[out] == 0 then exact else exact - multiset{out}) + multiset{into}) + (ghosts + multiset{})
  {
  }

  lemma ZeroUnlisted(l: Layer, all: Listing, id: Id)
    requires Lists(l, all)
    ensures all[Entry(0, id)] == 0
  {
    assert Times(l, 0, id) == all[Entry(0, id)];
  }

  lemma MovedExactly(at: Placement, was: Cell, now: Cell, id: Id)
    requires Records(at, Some(was), id)
    ensures Exactly(at[id := now]) ==
      (if Exactly(at)[Entry(was, id)] == 0 then Exactly(at) else Exactly(at) - multiset{Entry(was, id)}) + multiset{Entry(now, id)}
    ensures was != 0 ==> Exactly(at)[Entry(was, id)] == 1
  {
    hide Exactly;
    ExactlyAt(at, was, id);
    ExactlyWithout(at, id);
    ExactlyWith(at - {id}, id, now);
    assert (at - {id})[id := now] == at[id := now];
  }

  /** The total exceeds the number of placed entities by the number of ghosts. */
  lemma TotalDrift(l: Layer, at: Placement, ghosts: Listing)
    requires Lists(l, Exactly(at) + ghosts)
    ensures l.total == |at| + |ghosts|
    ensures LayerInv(l, at) <==> ghosts == multiset{}
  {
    ExactlySize(at);
    LayerInvIs(l, at);
    if LayerInv(l, at) {
      ListsOnce(l, Exactly(at) + ghosts, Exactly(at));
      assert |ghosts| == 0;
    } else {
      assert ghosts == multiset{} ==> Exactly(at) + ghosts == Exactly(at);
    }
  }

  /** The ids of the entries of one cell, with repetitions. */
  ghost function InCell(all: Listing, c: Cell): (ids: multiset<Id>)
    ensures forall id :: ids[id] == all[Entry(c, id)]
    decreases |all|
  {
    if all == multiset{} then multiset{} else
      var x :| x in all;
      InCell(all - multiset{x}, c) + if x.cell == c then multiset{x.id} else multiset{}
  }

  lemma InList(l: Layer, at: Placement, c: Cell, id: Id)
    requires LayerInv(l, at)
    ensures id in Lookup(l.ids, c, []) <==> id in at && at[id] == c
  {
  }

  lemma CountIsLength(l: Layer, c: Cell)
    requires CountsInv(l)
    ensures Lookup(l.counts, c, 0) == |Lookup(l.ids, c, [])|
  {
  }

  lemma ListInCell(l: Layer, at: Placement, ghosts: Listing, c: Cell, id: Id)
    requires Lists(l, Exactly(at) + ghosts)
    ensures Times(l, c, id) == multiset(Members(at, c))[id] + InCell(ghosts, c)[id]
  {
    ExactlyAt(at, c, id);
    assert Times(l, c, id) == (Exactly(at) + ghosts)[Entry(c, id)];
  }

  lemma LengthOfBoth<T>(s: seq<T>, a: multiset<T>, b: multiset<T>)
    requires forall x :: multiset(s)[x] == a[x] + b[x]
    ensures |s| == |a| + |b|
  {
    assert multiset(s) == a + b;
  }

  /** In any layer the count kept for a cell is the number of its members and its ghosts. */
  lemma CountWithGhosts(l: Layer, at: Placement, ghosts: Listing, c: Cell)
    requires Lists(l, Exactly(at) + ghosts)
    ensures Lookup(l.counts, c, 0) == |Members(at, c)| + |InCell(ghosts, c)|
  {
    CountIsLength(l, c);
    hide CountsInv;
    hide Exactly;
    hide Members;
    hide InCell;
    forall id ensures multiset(Lookup(l.ids, c, []))[id] == multiset(Members(at, c))[id] + InCell(ghosts, c)[id] {
      ListInCell(l, at, ghosts, c, id);
    }
    hide Lists;
    LengthOfBoth(Lookup(l.ids, c, []), multiset(Members(at, c)), InCell(ghosts, c));
  }

  /** The listed ids of a cell are its members, so its length is their number. */
  lemma ListLength(l: Layer, at: Placement, c: Cell)
    requires LayerInv(l, at)
    ensures |Lookup(l.ids, c, [])| == |Members(at, c)|
  {
    var ids := Lookup(l.ids, c, []);
    assert NoDuplicates(ids);
    NoDupLength(ids);
    var listed := Elements(ids);
    assert forall x :: x in listed <==> x in Members(at, c);
    assert listed == Members(at, c);
  }

  /** The count kept for a cell is the number of its members, zero for a cell never touched. */
  lemma CountOfMembers(l: Layer, at: Placement, c: Cell)
    requires LayerInv(l, at)
    ensures Lookup(l.counts, c, 0) == |Members(at, c)|
  {
    ListLength(l, at, c);
    hide ListsInv;
    hide Members;
  }

  lemma {:induction false} NoDupLength<T>(s: seq<T>)
    requires NoDuplicates(s)
    ensures |Elements(s)| == |s|
  {
    if s != [] {
      var t := s[..|s| - 1];
      NoDupLength(t);
      var last := s[|s| - 1];
      assert s == t + [last];
      assert Elements(s) == Elements(t) + {last};
      assert last !in t;
    }
  }

  /** Sum of the counts kept for a set of cells. */
  ghost function CountSum(l: Layer, cells: set<Cell>): int {
    if cells == {} then 0 else
      var c :| c in cells;
      Lookup(l.counts, c, 0) + CountSum(l, cells - {c})
  }

  /** The counts of any set of cells sum to the number of entities placed in those cells. */
  lemma {:induction false} CountSumIs(l: Layer, at: Placement, cells: set<Cell>)
    requires LayerInv(l, at)
    ensures CountSum(l, cells) == |PlacedIn(at, cells)|
    decreases cells
  {
    hide LayerInv;
    if cells == {} {
      assert PlacedIn(at, cells) == {};
    } else {
      var c :| c in cells && CountSum(l, cells) == Lookup(l.counts, c, 0) + CountSum(l, cells - {c});
      CountSumIs(l, at, cells - {c});
      CountOfMembers(l, at, c);
      PlacedInSplit(at, cells, c);
    }
  }

  /** The maintained total is the sum of the counts of the populated cells. */
  lemma TotalIsSum(l: Layer, at: Placement)
    requires LayerInv(l, at)
    ensures CountSum(l, l.ids.Keys) == l.total
  {
    CountSumIs(l, at, l.ids.Keys);
    forall id | id in at ensures at[id] in l.ids.Keys {
      assert id in Lookup(l.ids, at[id], []);
    }
    assert PlacedIn(at, l.ids.Keys) == at.Keys;
  }

  lemma PlacedInSplit(at: Placement, cells: set<Cell>, c: Cell)
    requires c in cells
    ensures |PlacedIn(at, cells)| == |Members(at, c)| + |PlacedIn(at, cells - {c})|
  {
    var others := PlacedIn(at, cells - {c});
    assert PlacedIn(at, cells) == Members(at, c) + others;
    assert Members(at, c) !! others;
  }
}
