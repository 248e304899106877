/** The store after any number of polls, in closed form: it depends on the last two polls only. */
module History {
  import opened Entities
  import opened Geography
  import opened Contents
  import opened Polls

  predicate InPoll(polls: seq<Poll>, k: nat, id: string) {
    1 <= k <= |polls| && id in Ids(polls[k - 1])
  }

  /** The ids of the last poll and of the one before. */
  function Tracked(polls: seq<Poll>): set<string> {
    (if |polls| >= 1 then Ids(polls[|polls| - 1]) else {}) + (if |polls| >= 2 then Ids(polls[|polls| - 2]) else {})
  }

  /** The newer of the last two polls that contain the id. */
  function Newest(polls: seq<Poll>, id: string): (k: nat)
    requires id in Tracked(polls)
    ensures InPoll(polls, k, id) && |polls| - 1 <= k
  {
    if id in Ids(polls[|polls| - 1]) then |polls| else |polls| - 1
  }

  /** What poll `k` published under an id: its last occurrence, stamped with the poll number. */
  function Published(polls: seq<Poll>, k: nat, id: string): (e: Entity)
    requires InPoll(polls, k, id)
    ensures e.id == id && e.version == k
  {
    StampedIds(polls[k - 1], k);
    LastOf(Stamped(polls[k - 1], k), id)
  }

  function Current(polls: seq<Poll>, id: string): Entity
    requires id in Tracked(polls)
  {
    Published(polls, Newest(polls, id), id)
  }

  /** The last-seen table: the poll number for the ids of the last poll; an id missed once is marked
      two below it. */
  function SeenTable(polls: seq<Poll>): map<string, int> {
    map id | id in Tracked(polls) :: if id in Ids(polls[|polls| - 1]) then |polls| else |polls| - 2
  }

  function CurrentContent(geo: Geo, polls: seq<Poll>): Content {
    map id | id in Tracked(polls) :: Rec(Current(polls, id), CellsOf(geo, Current(polls, id)))
  }

  /** The closed form of the store. */
  function Closed(geo: Geo, polls: seq<Poll>): StoreState {
    StoreState(|polls|, SeenTable(polls), CurrentContent(geo, polls))
  }

  /** Whatever was polled before, the store is a function of the last two polls. */
  lemma {:induction false} StoreHistory(geo: Geo, polls: seq<Poll>)
    ensures After(geo, polls) == Closed(geo, polls)
  {
    if polls == [] {
      assert Tracked(polls) == {};
    } else {
      StoreHistory(geo, polls[..|polls| - 1]);
      SeenStep(polls);
      ContentStep(geo, polls);
    }
  }

  lemma {:induction false} LastOfAt(es: seq<Entity>, id: string) returns (i: nat)
    requires id in Ids(es)
    ensures i < |es| && es[i].id == id && LastOf(es, id) == es[i] && forall k :: i < k < |es| ==> es[k].id != id
  {
    var front, e := es[..|es| - 1], es[|es| - 1];
    LastOfStep(es);
    if e.id == id {
      i := |es| - 1;
    } else {
      i := LastOfAt(front, id);
    }
  }

  /** The last entity of an id in a poll stands at index `i`. */
  ghost predicate IsLast(poll: Poll, i: nat, id: string) {
    i < |poll| && poll[i].id == id && forall x :: i < x < |poll| ==> poll[x].id != id
  }

  lemma StampedLast(poll: Poll, k: nat, id: string, i: nat)
    requires IsLast(Stamped(poll, k), i, id)
    ensures IsLast(poll, i, id) && Stamped(poll, k)[i] == poll[i].(version := k)
  {
    forall x | i < x < |poll| ensures poll[x].id != id {
      assert Stamped(poll, k)[x].id != id;
    }
  }

  /** What a poll published under an id is its last entity of that id, untouched but for the version. */
  lemma PublishedAt(polls: seq<Poll>, k: nat, id: string) returns (i: nat)
    requires InPoll(polls, k, id)
    ensures IsLast(polls[k - 1], i, id) && Published(polls, k, id) == polls[k - 1][i].(version := k)
  {
    hide LastOf;
    hide Stamped;
    StampedIds(polls[k - 1], k);
    i := LastOfAt(Stamped(polls[k - 1], k), id);
    StampedLast(polls[k - 1], k, id, i);
  }

  /** Some entity of a poll has the id. */
  ghost predicate Names(poll: Poll, id: string) {
    exists i :: 0 <= i < |poll| && poll[i].id == id
  }

  /** The poll with this number names the id. */
  ghost predicate Reports(polls: seq<Poll>, k: int, id: string) {
    1 <= k <= |polls| && Names(polls[k - 1], id)
  }

  lemma ReportsIs(polls: seq<Poll>, k: nat, id: string)
    ensures Reports(polls, k, id) <==> InPoll(polls, k, id)
  {
    if InPoll(polls, k, id) {
      var e :| e in polls[k - 1] && e.id == id;
      var i :| 0 <= i < |polls[k - 1]| && polls[k - 1][i] == e;
    }
  }

  lemma TrackedIs(polls: seq<Poll>, id: string)
    ensures id in Tracked(polls) <==> Reports(polls, |polls|, id) || Reports(polls, |polls| - 1, id)
    ensures id in Tracked(polls) ==> Newest(polls, id) == if Reports(polls, |polls|, id) then |polls| else |polls| - 1
  {
    ReportsIs(polls, |polls|, id);
    if |polls| >= 1 {
      ReportsIs(polls, |polls| - 1, id);
    }
    hide Reports;
  }

  /** What the store holds under an id: something if and only if one of the last two polls reported the
      id, and then the last entity of the newer of these polls, stamped with its number, in the cells of
      its own position. */
  lemma StoreHolds(geo: Geo, polls: seq<Poll>, id: string) returns (k: nat, i: nat)
    ensures var n, m := |polls|, After(geo, polls).content;
      && (id in m <==> Reports(polls, n, id) || Reports(polls, n - 1, id))
      && (id in m ==>
            && k == (if Reports(polls, n, id) then n else n - 1) && 1 <= k <= n
            && IsLast(polls[k - 1], i, id) && m[id].entity == polls[k - 1][i].(version := k)
            && LocatedAt(geo, id, m[id]))
  {
    hide Published;
    hide CellsOf;
    hide Reports;
    hide IsLast;
    hide LocatedAt;
    hide Tracked;
    hide Newest;
    StoreHistory(geo, polls);
    hide After;
    TrackedIs(polls, id);
    k, i := 0, 0;
    if id in Tracked(polls) {
      k := Newest(polls, id);
      i := PublishedAt(polls, k, id);
      CellsLocated(geo, Current(polls, id));
    }
  }

  lemma CurrentLocated(geo: Geo, polls: seq<Poll>)
    ensures Located(geo, CurrentContent(geo, polls))
  {
    hide CellsOf;
    hide LocatedAt;
    forall id | id in Tracked(polls) ensures LocatedAt(geo, id, CurrentContent(geo, polls)[id]) {
      CellsLocated(geo, Current(polls, id));
    }
  }

  /** The ids missed by the last two polls after being in the one before. */
  function MissedTwice(polls: seq<Poll>): set<string> {
    var n := |polls|;
    if n < 3 then {} else Ids(polls[n - 3]) - Ids(polls[n - 2]) - Ids(polls[n - 1])
  }

  /** Eviction in closed form: an id goes exactly when its second consecutive poll misses it. */
  lemma EvictedIs(polls: seq<Poll>)
    requires polls != []
    ensures var n := |polls|;
      Evicted(SeenTable(polls[..n - 1]), polls[n - 1], n) == MissedTwice(polls)
  {
    hide Ids;
    var n := |polls|;
    var front := polls[..n - 1];
    if n == 1 {
      assert Tracked(front) == {};
    } else {
      assert front[n - 2] == polls[n - 2];
      assert n >= 3 ==> front[n - 3] == polls[n - 3];
    }
  }

  /** What is tracked grows by the new poll and shrinks by what it evicts. */
  lemma TrackedStep(polls: seq<Poll>)
    requires polls != []
    ensures var n := |polls|;
      (Tracked(polls[..n - 1]) + Ids(polls[n - 1])) - MissedTwice(polls) == Tracked(polls)
  {
    hide Ids;
    var n := |polls|;
    var front := polls[..n - 1];
    assert n >= 2 ==> front[n - 2] == polls[n - 2];
    assert n >= 3 ==> front[n - 3] == polls[n - 3];
  }

  lemma SeenStep(polls: seq<Poll>)
    requires polls != []
    ensures var n := |polls|;
      NextSeen(SeenTable(polls[..n - 1]), polls[n - 1], n) == SeenTable(polls)
  {
    hide Ids;
    hide Evicted;
    hide MissedTwice;
    hide Tracked;
    EvictedIs(polls);
    TrackedStep(polls);
  }

  /** An id the last poll misses still shows what the poll before published. */
  lemma CurrentStays(polls: seq<Poll>, id: string)
    requires polls != [] && id in Tracked(polls) && id !in Ids(polls[|polls| - 1])
    ensures id in Tracked(polls[..|polls| - 1]) && Current(polls[..|polls| - 1], id) == Current(polls, id)
  {
    var n := |polls|;
    assert polls[..n - 1][n - 2] == polls[n - 2];
  }

  lemma ContentStep(geo: Geo, polls: seq<Poll>)
    requires polls != []
    ensures var n := |polls|;
      Applied(geo, Closed(geo, polls[..n - 1]), polls[n - 1]).content == CurrentContent(geo, polls)
  {
    hide Ids;
    hide Evicted;
    hide MissedTwice;
    hide Tracked;
    hide Inserted;
    hide Added;
    hide Updated;
    hide CellsOf;
    hide Stamped;
    hide LastOf;
    hide SeenTable;
    var n := |polls|;
    var front, poll := polls[..n - 1], polls[n - 1];
    var kept := CurrentContent(geo, front) - MissedTwice(polls);
    EvictedIs(polls);
    EvictedMissed(SeenTable(front), poll, n);
    TrackedStep(polls);
    StampedIds(poll, n);
    SplitKeepsContent(geo, kept, SeenTable(front).Keys, Stamped(poll, n));
    WrittenIs(geo, kept, poll, n);
    forall id | id in Tracked(polls) && id !in Ids(poll)
      ensures id in Tracked(front) && Current(front, id) == Current(polls, id)
    {
      CurrentStays(polls, id);
    }
    var r := Inserted(geo, kept, Stamped(poll, n));
    assert Applied(geo, Closed(geo, front), poll).content == r;
    assert r.Keys == Tracked(polls);
    forall id | id in r ensures r[id] == CurrentContent(geo, polls)[id] {
    }
  }

  lemma WrittenIs(geo: Geo, m: Content, poll: Poll, n: nat)
    ensures var r := Inserted(geo, m, Stamped(poll, n));
      && r.Keys == m.Keys + Ids(poll) && Ids(Stamped(poll, n)) == Ids(poll)
      && forall id :: id in r ==>
           r[id] == if id in Ids(poll) then var e := LastOf(Stamped(poll, n), id); Rec(e, CellsOf(geo, e)) else m[id]
  {
    StampedIds(poll, n);
    InsertedIs(geo, m, Stamped(poll, n));
  }

  // ---- Eviction over a whole run ----

  /** The ids in the Removed list of the n-th event of a run. */
  function RemovedAt(geo: Geo, polls: seq<Poll>, n: nat): set<string>
    requires 1 <= n <= |polls|
  {
    Evicted(After(geo, polls[..n - 1]).lastSeen, polls[n - 1], n)
  }

  /** An id is reported removed at exactly the second consecutive poll that misses it. */
  lemma RemovedExactly(geo: Geo, polls: seq<Poll>, n: nat, id: string)
    requires 1 <= n <= |polls|
    ensures id in RemovedAt(geo, polls, n) <==>
      n >= 3 && InPoll(polls, n - 2, id) && !InPoll(polls, n - 1, id) && !InPoll(polls, n, id)
  {
    hide Evicted;
    hide Ids;
    StoreHistory(geo, polls[..n - 1]);
    EvictedIs(polls[..n]);
    assert polls[..n][..n - 1] == polls[..n - 1];
  }

  /** The Changed list of the n-th event of a run. */
  function ChangedAt(geo: Geo, polls: seq<Poll>, n: nat): seq<string>
    requires 1 <= n <= |polls|
  {
    Changed(After(geo, polls[..n - 1]).lastSeen.Keys, polls[n - 1], n)
  }

  /** An event reports changed exactly the ids of its poll. */
  lemma ChangedExactly(geo: Geo, polls: seq<Poll>, n: nat, id: string)
    requires 1 <= n <= |polls|
    ensures id in ChangedAt(geo, polls, n) <==> InPoll(polls, n, id)
  {
    ChangedIs(After(geo, polls[..n - 1]).lastSeen.Keys, polls[n - 1], n, id);
  }

  /** Between two removals of an id some event reports it changed; no event reports it both ways. */
  lemma RemovedAlternates(geo: Geo, polls: seq<Poll>, m: nat, n: nat, id: string)
    requires 1 <= m < n <= |polls| && id in RemovedAt(geo, polls, m) && id in RemovedAt(geo, polls, n)
    ensures exists k :: m < k < n && id in ChangedAt(geo, polls, k)
    ensures id !in ChangedAt(geo, polls, m) && id !in ChangedAt(geo, polls, n)
  {
    hide RemovedAt;
    hide ChangedAt;
    RemovedExactly(geo, polls, m, id);
    RemovedExactly(geo, polls, n, id);
    ChangedExactly(geo, polls, m, id);
    ChangedExactly(geo, polls, n, id);
    ChangedExactly(geo, polls, n - 2, id);
    assert id in ChangedAt(geo, polls, n - 2);
  }
}
