/** One connection: the poller, the broadcaster, the viewport handler and the browser, interleaved
    in every possible way. Queries happen outside the client's lock, so they may be stale when their
    answer is pushed. */
module Protocol {
  import opened Entities
  import opened Geography
  import opened Contents
  import opened Polls
  import opened History
  import opened Queries
  import opened Deltas
  import opened Reading
  import opened Json
  import opened Engine
  import opened Browser
  import opened Hub
  import Store

  /** The broadcaster's progress through one store event, as far as this client is concerned. */
  datatype Broadcaster =
    | Idling
    | WithEvent(n: nat)
    | WithViewport(n: nat, vp: Viewport)
    | Cleared(n: nat, vp: Viewport)
    | WithAnswer(n: nat, visible: seq<Entity>, clusters: map<string, Cluster>)

  /** The poller's progress through one poll, under the store's lock. */
  datatype Poller = Resting | Counted | Stored

  datatype Handler =
    | Waiting
    | ViewportSet(vp: Viewport)
    | Answered(vp: Viewport, visible: seq<Entity>, clusters: map<string, Cluster>)

  /** `wire` holds the messages written to the socket and not yet received; `pushes` records when
      broadcast pushes were accepted. */
  datatype System = System(
    polls: seq<Poll>,
    poller: Poller,
    event: Option<nat>,
    client: ClientState,
    b: Broadcaster,
    h: Handler,
    wire: seq<string>,
    replica: Replica,
    clock: int,
    pushes: seq<int>
  )

  datatype Step =
    | CountPoll
    | Apply(poll: Poll)
    | Publish
    | TakeEvent
    | ReadViewport
    | CheckEligible
    | BroadcastQuery
    | BroadcastPush(d: Delta, outcome: Outcome)
    | SetViewport(vp: Viewport)
    | ViewportQuery
    | ViewportPush(d: Delta, outcome: Outcome)
    | Write
    | Receive(now: real)
    | Animate(now: real, interval: Interval)
    | Elapse(to: int)

  datatype Config = Config(geo: Geo, minPushInterval: int)

  predicate Initial(s: System) {
    s == System([], Resting, None, NEW_CLIENT, Idling, Waiting, [], EMPTY, 0, [])
  }

  /** Polls this model is about: their strings need no escape. */
  ghost predicate PollOk(poll: Poll) {
    forall e :: e in poll ==> CleanEntity(e)
  }

  /** The poll counter, which runs ahead of the index while a poll is being stored. */
  function CounterOf(s: System): nat {
    |s.polls| + if s.poller.Counted? then 1 else 0
  }

  /** What a query may find: an answer, or once the index is damaged, whatever still covers the viewport. */
  ghost predicate Finds(geo: Geo, polls: seq<Poll>, vp: Viewport, visible: seq<Entity>, clusters: map<string, Cluster>) {
    Replies(Source(geo, After(geo, polls).content, Intact(geo, polls)), vp, visible, clusters)
  }

  /** A store that the polls have driven answers its queries so. */
  lemma StoreFinds(store: Store.Store, polls: seq<Poll>, vp: Viewport, visible: seq<Entity>, clusters: map<string, Cluster>)
    requires store.Follows(polls) && Replies(store.SourceFor(vp.zoom), vp, visible, clusters)
    ensures Finds(store.index.geo, polls, vp, visible, clusters)
  {
    hide After;
    hide Intact;
    hide Answers;
    hide Covers;
  }

  ghost predicate Next(cfg: Config, s: System, step: Step, s': System) {
    match step
    case CountPoll =>
      s.poller.Resting? && s' == s.(poller := Counted)
    case Apply(poll) =>
      s.poller.Counted? && PollOk(poll) && s' == s.(polls := s.polls + [poll], poller := Stored)
    case Publish =>
      s.poller.Stored? && s' == s.(poller := Resting, event := if s.event.None? then Some(|s.polls|) else s.event)
    case TakeEvent =>
      s.b.Idling? && s.event.Some? && s' == s.(b := WithEvent(s.event.value), event := None)
    case ReadViewport =>
      s.b.WithEvent? && s' == s.(b := WithViewport(s.b.n, s.client.viewport))
    case CheckEligible =>
      && s.b.WithViewport?
      && s' == s.(b := if Eligible(s.client, s.clock, cfg.minPushInterval) then Cleared(s.b.n, s.b.vp) else Idling)
    case BroadcastQuery =>
      && s.b.Cleared?
      && (SelectionOf(cfg.geo, s.b.vp).Err? ==> s' == s.(b := Idling))
      && (SelectionOf(cfg.geo, s.b.vp).Ok? ==>
            && s'.b.WithAnswer? && s'.b.n == s.b.n && s' == s.(b := s'.b)
            && Finds(cfg.geo, s.polls, s.b.vp, s'.b.visible, s'.b.clusters))
    case BroadcastPush(d, outcome) =>
      && s.b.WithAnswer? && PartOf(d.clusters, s.b.clusters)
      && Pushes(s.client, s.b.visible, d.clusters, s.b.n, s.clock, d, s'.client, outcome)
      && s' == s.(b := Idling, client := s'.client, pushes := if outcome == Queued then s.pushes + [s.clock] else s.pushes)
    case SetViewport(vp) =>
      s.h.Waiting? && s' == s.(h := ViewportSet(vp), client := s.client.(viewport := vp))
    case ViewportQuery =>
      && s.h.ViewportSet?
      && (SelectionOf(cfg.geo, s.h.vp).Err? ==> s' == s.(h := Waiting))
      && (SelectionOf(cfg.geo, s.h.vp).Ok? ==>
            && s'.h.Answered? && s'.h.vp == s.h.vp && s' == s.(h := s'.h)
            && Finds(cfg.geo, s.polls, s.h.vp, s'.h.visible, s'.h.clusters))
    case ViewportPush(d, outcome) =>
      && s.h.Answered? && PartOf(d.clusters, s.h.clusters)
      && Pushes(s.client, s.h.visible, d.clusters, CounterOf(s), s.clock, d, s'.client, outcome)
      && s' == s.(h := Waiting, client := s'.client)
    case Write =>
      && s.h.Waiting? && s.client.ch != []
      && s' == s.(client := s.client.(ch := s.client.ch[1..]), wire := s.wire + [s.client.ch[0]])
    case Receive(now) =>
      s.wire != [] && s' == s.(wire := s.wire[1..], replica := Received(s.replica, s.wire[0], now))
    case Animate(now, interval) =>
      s' == s.(replica := s.replica.(targets := AllTicked(s.replica.targets, now, interval)))
    case Elapse(to) =>
      s.clock <= to && s' == s.(clock := to)
  }

  /** The only step that loses information. */
  predicate Drops(step: Step) {
    (step.BroadcastPush? || step.ViewportPush?) && step.outcome == Dropped
  }

  // ---- The replica up to the animation ----

  ghost predicate SameGoals(t: Targets, u: Targets) {
    t.Keys == u.Keys && forall id :: id in t ==> GoalOf(t[id]) == GoalOf(u[id])
  }

  ghost predicate SameKnowledge(a: Replica, b: Replica) {
    a.markers == b.markers && SameGoals(a.targets, b.targets)
  }

  lemma {:induction false} AppearedGoals(t: Targets, u: Targets, added: seq<Aircraft>, now1: real, now2: real)
    requires SameGoals(t, u)
    ensures SameGoals(AllAppeared(t, added, now1), AllAppeared(u, added, now2))
  {
    if added != [] {
      AppearedGoals(t, u, added[..|added| - 1], now1, now2);
    }
  }

  lemma {:induction false} RetargetedGoals(t: Targets, u: Targets, updated: seq<Aircraft>, now1: real, now2: real)
    requires SameGoals(t, u)
    ensures SameGoals(AllRetargeted(t, updated, now1), AllRetargeted(u, updated, now2))
  {
    if updated != [] {
      RetargetedGoals(t, u, updated[..|updated| - 1], now1, now2);
    }
  }

  /** When a message is received does not matter for what the replica knows. */
  lemma ReceivedSame(a: Replica, b: Replica, text: string, now1: real, now2: real)
    requires SameKnowledge(a, b)
    ensures SameKnowledge(Received(a, text, now1), Received(b, text, now2))
  {
    hide AllAppeared;
    hide AllRetargeted;
    hide Marked;
    hide GoalOf;
    hide Aircrafts;
    hide ReadText;
    match ReadText(text)
    case None =>
    case Some(d) =>
      AppearedGoals(a.targets, b.targets, Aircrafts(d.added), now1, now2);
      RetargetedGoals(AllAppeared(a.targets, Aircrafts(d.added), now1), AllAppeared(b.targets, Aircrafts(d.added), now2),
                      Aircrafts(d.updated), now1, now2);
  }

  /** The replica once all pending messages have arrived. */
  function Drained(b: Replica, texts: seq<string>): Replica
    decreases |texts|
  {
    if texts == [] then b else Drained(Received(b, texts[0], 0.0), texts[1..])
  }

  lemma {:induction false} DrainedSame(a: Replica, b: Replica, texts: seq<string>)
    requires SameKnowledge(a, b)
    ensures SameKnowledge(Drained(a, texts), Drained(b, texts))
    decreases |texts|
  {
    hide Received;
    hide SameKnowledge;
    if texts != [] {
      ReceivedSame(a, b, texts[0], 0.0, 0.0);
      DrainedSame(Received(a, texts[0], 0.0), Received(b, texts[0], 0.0), texts[1..]);
    }
  }

  lemma {:induction false} DrainedSnoc(b: Replica, texts: seq<string>, text: string)
    ensures Drained(b, texts + [text]) == Received(Drained(b, texts), text, 0.0)
    decreases |texts|
  {
    hide Received;
    if texts == [] {
      assert [] + [text] == [text];
      assert [text][1..] == [];
    } else {
      assert (texts + [text])[1..] == texts[1..] + [text];
      DrainedSnoc(Received(b, texts[0], 0.0), texts[1..], text);
    }
  }

  lemma AgreesSame(polls: seq<Poll>, seen: Seen, a: Replica, b: Replica)
    requires SameKnowledge(a, b) && Agrees(polls, seen, a)
    ensures Agrees(polls, seen, b)
  {
  }

  /** The replica after everything queued and under way has arrived. */
  function Settled(s: System): Replica {
    Drained(s.replica, s.wire + s.client.ch)
  }

  // ---- The invariant ----

  ghost predicate CleanPolls(polls: seq<Poll>) {
    forall k, e :: 0 <= k < |polls| && e in polls[k] ==> CleanEntity(e)
  }

  ghost predicate CleanKeys(clusters: map<string, Cluster>) {
    forall k :: k in clusters ==> Clean(k)
  }

  /** Listings in flight are genuine, and with every pending message received the replica is what
      the server recorded as sent. */
  ghost predicate Inv(s: System) {
    && CleanPolls(s.polls)
    && |s.client.ch| <= 1
    && (s.b.WithAnswer? ==> Genuine(s.polls, s.b.visible) && CleanKeys(s.b.clusters))
    && (s.h.Answered? ==> Genuine(s.polls, s.h.visible) && CleanKeys(s.h.clusters))
    && Agrees(s.polls, s.client.seen, Settled(s))
  }

  // ---- Steps that push nothing ----

  /** More polls do not change what earlier ones published. */
  lemma MorePolls(polls: seq<Poll>, poll: Poll, seen: Seen, b: Replica, visible: seq<Entity>)
    ensures Agrees(polls, seen, b) ==> Agrees(polls + [poll], seen, b)
    ensures Genuine(polls, visible) ==> Genuine(polls + [poll], visible)
  {
    hide OnWire;
    hide GoalOf;
    hide GoalSet;
    forall k, id | InPoll(polls, k, id)
      ensures InPoll(polls + [poll], k, id) && Published(polls + [poll], k, id) == Published(polls, k, id)
    {
      assert (polls + [poll])[k - 1] == polls[k - 1];
    }
  }

  lemma {:induction false} HexClean(c: nat)
    ensures Clean(CellName(c))
  {
    if c >= 16 {
      HexClean(Queries.Numerals.Quot(c, 16));
    }
  }

  lemma NamesClean(clusters: map<string, Cluster>)
    requires forall name :: name in clusters ==> IsClusterName(name)
    ensures CleanKeys(clusters)
  {
    forall name | name in clusters ensures Clean(name) {
      if name != "out_of_view" {
        var c :| name == CellName(c);
        HexClean(c);
      }
    }
  }

  /** Whatever a query finds, even in a damaged index, was published by the poll its version names. */
  lemma AnswersAreGenuine(geo: Geo, polls: seq<Poll>, vp: Viewport, visible: seq<Entity>, clusters: map<string, Cluster>)
    requires Finds(geo, polls, vp, visible, clusters)
    ensures Genuine(polls, visible) && CleanKeys(clusters)
  {
    hide AnsweredEntities;
    hide AnsweredClusters;
    hide Answers;
    hide Published;
    hide Newest;
    hide After;
    hide Intact;
    hide IsClusterName;
    hide CellsOf;
    hide Tracked;
    StoreHistory(geo, polls);
    NamesClean(clusters);
    forall e | e in visible ensures InPoll(polls, e.version, e.id) && e == Published(polls, e.version, e.id) {
      assert e == CurrentContent(geo, polls)[e.id].entity == Current(polls, e.id);
    }
  }

  lemma ListedIsCurrent(geo: Geo, polls: seq<Poll>, zoom: int, sel: Selection, e: Entity)
    requires e in AnsweredEntities(CurrentContent(geo, polls), zoom, sel)
    ensures e.id in Tracked(polls) && e == Current(polls, e.id) && e.version == Newest(polls, e.id)
    ensures InPoll(polls, e.version, e.id) && e == Published(polls, e.version, e.id)
  {
    hide CellsOf;
    hide Tracked;
    var m := CurrentContent(geo, polls);
    var s :| s in m && m[s].entity == e;
    assert e == Current(polls, s);
  }

  // ---- Steps that push ----

  lemma PublishedIsClean(polls: seq<Poll>, k: nat, id: string)
    requires CleanPolls(polls) && InPoll(polls, k, id)
    ensures CleanEntity(Published(polls, k, id)) && Clean(id)
  {
    var poll := polls[k - 1];
    StampedIds(poll, k);
    var e := Published(polls, k, id);
    assert e in Stamped(poll, k);
    var i :| 0 <= i < |poll| && poll[i].(version := k) == e;
    assert CleanEntity(poll[i]);
  }

  lemma DeltaIsClean(polls: seq<Poll>, seen: Seen, b: Replica, visible: seq<Entity>, clusters: map<string, Cluster>, n: nat, d: Delta)
    requires CleanPolls(polls) && Agrees(polls, seen, b) && Genuine(polls, visible) && CleanKeys(clusters)
    requires IsDelta(seen, visible, clusters, n, d)
    ensures CleanDelta(d)
  {
    hide CleanEntity;
    hide Clean;
    hide Published;
    hide CleanPolls;
    ListsAre(seen, visible);
    DeltaIsTidy(seen, visible, clusters, n, d);
    forall e | e in visible ensures CleanEntity(e) {
      PublishedIsClean(polls, e.version, e.id);
    }
    forall id | id in seen ensures Clean(id) {
      PublishedIsClean(polls, seen[id], id);
    }
    assert forall id :: id in d.removed ==> id in Elements(d.removed);
  }

  /** A queued delta brings the replica up to the new table. */
  lemma QueuedAgrees(polls: seq<Poll>, seen: Seen, b: Replica, visible: seq<Entity>, clusters: map<string, Cluster>,
                     n: nat, d: Delta, text: string)
    requires CleanPolls(polls) && Agrees(polls, seen, b) && Genuine(polls, visible) && CleanKeys(clusters)
    requires IsDelta(seen, visible, clusters, n, d) && IsText(d, text)
    ensures Agrees(polls, SeenAfter(seen, visible), Received(b, text, 0.0))
  {
    hide Agrees;
    hide IsDelta;
    hide Replayed;
    hide ReadText;
    hide DeltaOnWire;
    DeltaIsClean(polls, seen, b, visible, clusters, n, d);
    WireRoundTrip(d, text);
    ReplayAgrees(polls, seen, b, visible, clusters, n, d, 0.0);
  }

  /** A delta without entities leaves the table as it was. */
  lemma IdleKeeps(seen: Seen, visible: seq<Entity>, clusters: map<string, Cluster>, n: nat, d: Delta)
    requires DistinctIds(visible) && IsDelta(seen, visible, clusters, n, d) && Idle(d)
    ensures SeenAfter(seen, visible) == seen
  {
    hide SeenAfter;
    hide AddedBy;
    hide UpdatedBy;
    ListsAre(seen, visible);
    SeenAfterIs(seen, visible);
    DeltaIsTidy(seen, visible, clusters, n, d);
    assert Elements(d.removed) == {};
    forall id | id in Ids(visible) ensures id in seen && SeenAfter(seen, visible)[id] == seen[id] {
      var e :| e in visible && e.id == id;
    }
    forall id | id in seen ensures id in Ids(visible) {
      assert id !in seen.Keys - Ids(visible);
    }
    assert SeenAfter(seen, visible).Keys == seen.Keys;
  }

  /** Pushing a genuine listing keeps agreement, unless the channel was full. */
  lemma PushKeeps(s: System, visible: seq<Entity>, clusters: map<string, Cluster>, n: nat, d: Delta, c': ClientState, outcome: Outcome)
    requires Inv(s) && Genuine(s.polls, visible) && CleanKeys(clusters)
    requires Pushes(s.client, visible, clusters, n, s.clock, d, c', outcome) && outcome != Dropped
    ensures |c'.ch| <= 1 && Agrees(s.polls, c'.seen, Drained(s.replica, s.wire + c'.ch))
  {
    hide Agrees;
    hide Genuine;
    hide IsDelta;
    hide IsText;
    hide Drained;
    if outcome == Queued {
      var text := c'.ch[|s.client.ch|];
      assert c'.ch == s.client.ch + [text];
      assert s.wire + c'.ch == (s.wire + s.client.ch) + [text];
      DrainedSnoc(s.replica, s.wire + s.client.ch, text);
      QueuedAgrees(s.polls, s.client.seen, Settled(s), visible, clusters, n, d, text);
    } else {
      GenuineDistinct(s.polls, visible);
      IdleKeeps(s.client.seen, visible, clusters, n, d);
    }
  }

  lemma PartClean(some: map<string, Cluster>, all: map<string, Cluster>)
    requires PartOf(some, all) && CleanKeys(all)
    ensures CleanKeys(some)
  {
  }

  lemma GenuineDistinct(polls: seq<Poll>, visible: seq<Entity>)
    requires Genuine(polls, visible)
    ensures DistinctIds(visible)
  {
  }

  // ---- Runs ----

  predicate IsPush(step: Step) {
    step.BroadcastPush? || step.ViewportPush?
  }

  lemma SameIsReflexive(b: Replica)
    ensures SameKnowledge(b, b)
  {
  }

  lemma ReceiveSettles(b: Replica, texts: seq<string>, now: real)
    requires texts != []
    ensures SameKnowledge(Drained(b, texts), Drained(Received(b, texts[0], now), texts[1..]))
  {
    hide Received;
    hide SameKnowledge;
    SameIsReflexive(b);
    ReceivedSame(b, b, texts[0], 0.0, now);
    DrainedSame(Received(b, texts[0], 0.0), Received(b, texts[0], now), texts[1..]);
  }

  lemma AnimateSettles(b: Replica, texts: seq<string>, now: real, interval: Interval)
    ensures SameKnowledge(Drained(b, texts), Drained(b.(targets := AllTicked(b.targets, now, interval)), texts))
  {
    hide Drained;
    hide AllTicked;
    TickKeepsGoal(b.targets, now, interval);
    DrainedSame(b, b.(targets := AllTicked(b.targets, now, interval)), texts);
  }

  /** Only pushes change what the browser will know in the end. */
  lemma SettledStays(cfg: Config, s: System, step: Step, s': System)
    requires Next(cfg, s, step, s') && !IsPush(step)
    ensures SameKnowledge(Settled(s), Settled(s')) && s'.client.seen == s.client.seen
  {
    hide Drained;
    hide Finds;
    hide PollOk;
    hide Received;
    hide AllTicked;
    hide SameKnowledge;
    SameIsReflexive(Settled(s));
    match step
    case Write =>
      assert (s.wire + [s.client.ch[0]]) + s.client.ch[1..] == s.wire + s.client.ch;
    case Receive(now) =>
      var texts := s.wire + s.client.ch;
      assert texts[0] == s.wire[0] && texts[1..] == s.wire[1..] + s.client.ch;
      ReceiveSettles(s.replica, texts, now);
    case Animate(now, interval) =>
      AnimateSettles(s.replica, s.wire + s.client.ch, now, interval);
    case _ =>
  }

  /** Every step that drops nothing keeps the invariant. */
  lemma StepKeepsInv(cfg: Config, s: System, step: Step, s': System)
    requires Inv(s) && Next(cfg, s, step, s') && !Drops(step)
    ensures Inv(s')
  {
    hide Agrees;
    hide Genuine;
    hide Drained;
    hide Finds;
    hide Pushes;
    hide Received;
    hide AllTicked;
    hide SameKnowledge;
    if !IsPush(step) {
      SettledStays(cfg, s, step, s');
      AgreesSame(s.polls, s.client.seen, Settled(s), Settled(s'));
    }
    match step
    case Apply(poll) =>
      ApplyKeeps(s, poll);
    case BroadcastQuery =>
      if s'.b.WithAnswer? {
        AnswersAreGenuine(cfg.geo, s.polls, s.b.vp, s'.b.visible, s'.b.clusters);
      }
    case ViewportQuery =>
      if s'.h.Answered? {
        AnswersAreGenuine(cfg.geo, s.polls, s.h.vp, s'.h.visible, s'.h.clusters);
      }
    case BroadcastPush(d, outcome) =>
      PartClean(d.clusters, s.b.clusters);
      PushKeeps(s, s.b.visible, d.clusters, s.b.n, d, s'.client, outcome);
    case ViewportPush(d, outcome) =>
      PartClean(d.clusters, s.h.clusters);
      PushKeeps(s, s.h.visible, d.clusters, CounterOf(s), d, s'.client, outcome);
    case _ =>
  }

  lemma ApplyKeeps(s: System, poll: Poll)
    requires Inv(s) && forall e :: e in poll ==> CleanEntity(e)
    ensures var polls := s.polls + [poll];
      && CleanPolls(polls) && Agrees(polls, s.client.seen, Settled(s))
      && (s.b.WithAnswer? ==> Genuine(polls, s.b.visible)) && (s.h.Answered? ==> Genuine(polls, s.h.visible))
  {
    hide Agrees;
    hide Genuine;
    hide CleanEntity;
    hide Drained;
    MorePolls(s.polls, poll, s.client.seen, Settled(s), if s.b.WithAnswer? then s.b.visible else []);
    MorePolls(s.polls, poll, s.client.seen, Settled(s), if s.h.Answered? then s.h.visible else []);
  }

  /** A run from the initial state. */
  ghost predicate IsRun(cfg: Config, states: seq<System>, steps: seq<Step>) {
    && |states| == |steps| + 1 && Initial(states[0])
    && forall i :: 0 <= i < |steps| ==> Next(cfg, states[i], steps[i], states[i + 1])
  }

  lemma InitialInv(s: System)
    requires Initial(s)
    ensures Inv(s)
  {
  }

  // ---- Skipped listings ----

  /** Agreement fixes what a replica knows. */
  lemma AgreementIsKnowledge(polls: seq<Poll>, seen: Seen, a: Replica, b: Replica)
    requires Agrees(polls, seen, a) && Agrees(polls, seen, b)
    ensures SameKnowledge(a, b)
  {
    hide OnWire;
    hide GoalOf;
    hide GoalSet;
    hide Published;
    hide InPoll;
  }

  /** Going through an older listing or straight to the newer one leaves the same table and the same
      replica: dropped store events and rounds skipped for the push interval cost nothing. */
  lemma SkippingIsHarmless(polls: seq<Poll>, seen: Seen, b: Replica, first: seq<Entity>, second: seq<Entity>,
                           clusters1: map<string, Cluster>, clusters2: map<string, Cluster>,
                           n1: nat, n2: nat, d1: Delta, d2: Delta, d: Delta, now1: real, now2: real)
    requires Agrees(polls, seen, b) && Genuine(polls, first) && Genuine(polls, second)
    requires forall e :: e in second && e.id in seen ==> seen[e.id] <= e.version
    requires forall e, f :: e in second && f in first && f.id == e.id ==> f.version <= e.version
    requires IsDelta(seen, first, clusters1, n1, d1)
    requires IsDelta(SeenAfter(seen, first), second, clusters2, n2, d2)
    requires IsDelta(seen, second, clusters2, n2, d)
    ensures SeenAfter(SeenAfter(seen, first), second) == SeenAfter(seen, second)
    ensures SameKnowledge(Replayed(Replayed(b, DeltaOnWire(d1), now1), DeltaOnWire(d2), now2), Replayed(b, DeltaOnWire(d), now2))
  {
    hide Agrees;
    hide IsDelta;
    hide SeenAfter;
    hide Replayed;
    hide SameKnowledge;
    hide DeltaOnWire;
    GenuineDistinct(polls, first);
    GenuineDistinct(polls, second);
    Coalescing(seen, first, second);
    ReplayAgrees(polls, seen, b, first, clusters1, n1, d1, now1);
    var mid := Replayed(b, DeltaOnWire(d1), now1);
    ReplayAgrees(polls, SeenAfter(seen, first), mid, second, clusters2, n2, d2, now2);
    ReplayAgrees(polls, seen, b, second, clusters2, n2, d, now2);
    AgreementIsKnowledge(polls, SeenAfter(seen, second), Replayed(mid, DeltaOnWire(d2), now2), Replayed(b, DeltaOnWire(d), now2));
  }

  // ---- What a dropped push costs ----

  /** The delta would not have changed what the browser knows: no id appears or goes, and every update
      repeats what was sent before. */
  ghost predicate Harmless(polls: seq<Poll>, seen: Seen, d: Delta) {
    && d.added == [] && d.removed == []
    && forall e :: e in d.updated ==>
         e.id in seen && InPoll(polls, seen[e.id], e.id) && OnWire(e) == Sent(polls, seen, e.id)
  }

  /** Losing a delta breaks agreement exactly when the delta was not harmless. */
  lemma DropCosts(polls: seq<Poll>, seen: Seen, b: Replica, visible: seq<Entity>, clusters: map<string, Cluster>, n: nat, d: Delta)
    requires Agrees(polls, seen, b) && Genuine(polls, visible) && IsDelta(seen, visible, clusters, n, d)
    ensures Agrees(polls, SeenAfter(seen, visible), b) <==> Harmless(polls, seen, d)
  {
    hide SeenAfter;
    hide SeenWith;
    hide AddedBy;
    hide UpdatedBy;
    hide OnWire;
    hide GoalOf;
    hide GoalSet;
    hide Published;
    hide InPoll;
    var seen' := SeenAfter(seen, visible);
    ListsAre(seen, visible);
    SeenAfterIs(seen, visible);
    DeltaIsTidy(seen, visible, clusters, n, d);
    if Harmless(polls, seen, d) {
      HarmlessKeeps(polls, seen, b, visible, d, seen');
    }
    if Agrees(polls, seen', b) {
      LossShows(polls, seen, b, visible, d, seen');
    }
  }

  /** In the state machine: a step that drops its delta keeps the invariant exactly when the delta was
      harmless. All other steps keep it. */
  lemma DroppingStep(cfg: Config, s: System, step: Step, s': System)
    requires Inv(s) && Next(cfg, s, step, s') && Drops(step)
    ensures Inv(s') <==> Harmless(s.polls, s.client.seen, step.d)
  {
    hide Agrees;
    hide Genuine;
    hide Harmless;
    hide Drained;
    hide IsDelta;
    hide SeenAfter;
    match step
    case BroadcastPush(d, _) => DropCosts(s.polls, s.client.seen, Settled(s), s.b.visible, d.clusters, s.b.n, d);
    case ViewportPush(d, _) => DropCosts(s.polls, s.client.seen, Settled(s), s.h.visible, d.clusters, CounterOf(s), d);
  }

  lemma SomeMember<T>(s: seq<T>)
    ensures s == [] || exists x :: x in s
  {
    if s != [] {
      assert s[0] in s;
    }
  }

  lemma HarmlessKeeps(polls: seq<Poll>, seen: Seen, b: Replica, visible: seq<Entity>, d: Delta, seen': Seen)
    requires Agrees(polls, seen, b) && Genuine(polls, visible) && Harmless(polls, seen, d)
    requires forall e :: e in d.added <==> e in visible && e.id !in seen
    requires forall e :: e in d.updated <==> e in visible && e.id in seen && seen[e.id] < e.version
    requires Elements(d.removed) == seen.Keys - Ids(visible)
    requires seen'.Keys == Ids(visible) && forall e :: e in visible ==> e.id in seen' && seen'[e.id] == Newer(seen, e)
    ensures Agrees(polls, seen', b)
  {
    hide OnWire;
    hide GoalOf;
    hide GoalSet;
    hide Published;
    hide InPoll;
    assert Elements(d.removed) == {};
    forall id | id in seen ensures id in Ids(visible) {
      assert id !in seen.Keys - Ids(visible);
    }
    forall id | id in seen' ensures IdAgrees(polls, seen', b, id) {
      var e :| e in visible && e.id == id;
      assert e !in d.added;
      AgreeingId(polls, seen, b, id);
      if e in d.updated {
        assert seen'[id] == e.version;
      } else {
        assert seen'[id] == seen[id];
      }
    }
    assert seen'.Keys == seen.Keys;
    AgreeById(polls, seen', b);
  }

  lemma LossShows(polls: seq<Poll>, seen: Seen, b: Replica, visible: seq<Entity>, d: Delta, seen': Seen)
    requires Agrees(polls, seen, b) && Agrees(polls, seen', b) && Genuine(polls, visible)
    requires forall e :: e in d.added <==> e in visible && e.id !in seen
    requires forall e :: e in d.updated <==> e in visible && e.id in seen && seen[e.id] < e.version
    requires Elements(d.removed) == seen.Keys - Ids(visible)
    requires seen'.Keys == Ids(visible) && forall e :: e in visible ==> e.id in seen' && seen'[e.id] == Newer(seen, e)
    ensures Harmless(polls, seen, d)
  {
    hide OnWire;
    hide GoalOf;
    hide GoalSet;
    hide Published;
    hide InPoll;
    assert seen'.Keys == seen.Keys;
    forall e: Entity ensures e !in d.added {
      assert e in visible ==> e.id in seen'.Keys;
    }
    SomeMember(d.added);
    assert Elements(d.removed) == {};
    assert forall id :: id in d.removed ==> id in Elements(d.removed);
    SomeMember(d.removed);
    forall e | e in d.updated
      ensures e.id in seen && InPoll(polls, seen[e.id], e.id) && OnWire(e) == Sent(polls, seen, e.id)
    {
      AgreeingId(polls, seen, b, e.id);
      AgreeingId(polls, seen', b, e.id);
      assert seen'[e.id] == e.version;
    }
  }

  // ---- Safety over whole runs ----

  /** Every dropped push of the run was harmless; a run without drops is one of them. */
  ghost predicate NoHarm(states: seq<System>, steps: seq<Step>) {
    |states| == |steps| + 1 && forall i :: 0 <= i < |steps| ==> HarmlessStep(states[i], steps[i])
  }

  ghost predicate HarmlessStep(s: System, step: Step) {
    Drops(step) ==> Harmless(s.polls, s.client.seen, step.d)
  }

  lemma HarmlessStepKeepsInv(cfg: Config, s: System, step: Step, s': System)
    requires Inv(s) && Next(cfg, s, step, s')
    ensures Inv(s') <==> HarmlessStep(s, step)
  {
    hide Next;
    hide Inv;
    hide Harmless;
    if Drops(step) {
      DroppingStep(cfg, s, step, s');
    } else {
      StepKeepsInv(cfg, s, step, s');
    }
  }

  /** Safety: on every interleaving in which no harmful push is dropped, in every state, replaying what
      is queued and under way makes the replica exactly what the server recorded as sent. */
  lemma {:induction false} RunsAgree(cfg: Config, states: seq<System>, steps: seq<Step>, i: nat)
    requires IsRun(cfg, states, steps) && NoHarm(states, steps) && i < |states|
    ensures Inv(states[i])
    decreases i
  {
    hide Next;
    hide Inv;
    hide Initial;
    hide HarmlessStep;
    if i == 0 {
      InitialInv(states[0]);
    } else {
      RunsAgree(cfg, states, steps, i - 1);
      assert Next(cfg, states[i - 1], steps[i - 1], states[i - 1 + 1]) && HarmlessStep(states[i - 1], steps[i - 1]);
      HarmlessStepKeepsInv(cfg, states[i - 1], steps[i - 1], states[i]);
    }
  }

  /** And only then: agreement holds throughout a run if and only if no harmful push was dropped. */
  lemma RunsAgreeExactly(cfg: Config, states: seq<System>, steps: seq<Step>)
    requires IsRun(cfg, states, steps)
    ensures NoHarm(states, steps) <==> forall i :: 0 <= i < |states| ==> Inv(states[i])
  {
    hide Next;
    hide Inv;
    hide Initial;
    hide HarmlessStep;
    if NoHarm(states, steps) {
      forall i | 0 <= i < |states| ensures Inv(states[i]) {
        RunsAgree(cfg, states, steps, i);
      }
    }
    if forall i :: 0 <= i < |states| ==> Inv(states[i]) {
      forall i | 0 <= i < |steps| ensures HarmlessStep(states[i], steps[i]) {
        assert Inv(states[i]) && Inv(states[i + 1]);
        HarmlessStepKeepsInv(cfg, states[i], steps[i], states[i + 1]);
      }
    }
  }

  // ---- End to end ----

  /** The ids a viewport should show: from zoom 5 on those of the last two polls whose current cell at
      the zoom's resolution is seen, below zoom 5 none. */
  function Expected(geo: Geo, polls: seq<Poll>, zoom: int, sel: Selection): set<string> {
    if zoom < 5 then {} else
      set id | id in Tracked(polls) && Sees(sel, CellsOf(geo, Current(polls, id))[LayerIndex(zoom).value])
  }

  /** The replica is exactly the expected entities, each as last polled. */
  ghost predicate Shows(geo: Geo, polls: seq<Poll>, zoom: int, sel: Selection, b: Replica) {
    && b.markers.Keys == Expected(geo, polls, zoom, sel) && b.targets.Keys == Expected(geo, polls, zoom, sel)
    && forall id :: id in Expected(geo, polls, zoom, sel) ==>
         && id in Tracked(polls) && b.markers[id] == OnWire(Current(polls, id))
         && GoalOf(b.targets[id]) == GoalSet(b.markers[id])
  }

  lemma ListedAreExpected(geo: Geo, polls: seq<Poll>, zoom: int, sel: Selection, visible: seq<Entity>)
    requires Elements(visible) == AnsweredEntities(CurrentContent(geo, polls), zoom, sel)
    ensures Ids(visible) == Expected(geo, polls, zoom, sel)
    ensures forall e :: e in visible ==>
      e.id in Tracked(polls) && e == Current(polls, e.id) && e.version == Newest(polls, e.id)
  {
    hide CellsOf;
    hide Tracked;
    hide Current;
    hide Newest;
    forall e | e in visible
      ensures e.id in Tracked(polls) && e == Current(polls, e.id) && e.version == Newest(polls, e.id) && e.id in Expected(geo, polls, zoom, sel)
    {
      assert e in Elements(visible);
      ListedIsCurrent(geo, polls, zoom, sel, e);
      var m := CurrentContent(geo, polls);
      var s :| s in m && m[s].entity == e && Sees(sel, m[s].cells[LayerIndex(zoom).value]);
      CurrentHasId(polls, s);
    }
    forall id | id in Expected(geo, polls, zoom, sel) ensures id in Ids(visible) {
      CurrentHasId(polls, id);
      var m := CurrentContent(geo, polls);
      assert m[id].entity in Visible(m, LayerIndex(zoom).value, sel);
      assert m[id].entity in Elements(visible);
    }
  }

  lemma CurrentHasId(polls: seq<Poll>, id: string)
    requires id in Tracked(polls)
    ensures Current(polls, id).id == id
  {
  }

  /** No published version is newer than the current one. */
  lemma NewestIsNewest(polls: seq<Poll>, id: string, k: nat)
    requires InPoll(polls, k, id) && id in Tracked(polls)
    ensures k <= Newest(polls, id)
  {
  }

  /** Agreement with a table that was just brought up to a current answer is the expected picture. */
  lemma CurrentAnswerShows(geo: Geo, polls: seq<Poll>, vp: Viewport, visible: seq<Entity>, clusters: map<string, Cluster>,
                           seen: Seen, old_: Replica, b: Replica)
    requires Answers(geo, After(geo, polls).content, vp, visible, clusters)
    requires Agrees(polls, seen, old_) && Agrees(polls, SeenAfter(seen, visible), b)
    ensures Shows(geo, polls, vp.zoom, SelectionOf(geo, vp).value, b)
  {
    hide SeenAfter;
    hide OnWire;
    hide GoalOf;
    hide GoalSet;
    hide AnsweredEntities;
    hide AnsweredClusters;
    hide CurrentContent;
    hide Expected;
    hide Tracked;
    hide Newest;
    hide InPoll;
    hide Current;
    hide Agrees;
    var seen' := SeenAfter(seen, visible);
    StoreHistory(geo, polls);
    ListedAreExpected(geo, polls, vp.zoom, SelectionOf(geo, vp).value, visible);
    SeenAfterIs(seen, visible);
    AgreeingKeys(polls, seen', b);
    forall id | id in seen'
      ensures id in Tracked(polls) && b.markers[id] == OnWire(Current(polls, id)) && GoalOf(b.targets[id]) == GoalSet(b.markers[id])
    {
      var e :| e in visible && e.id == id;
      ListedVersion(polls, seen, old_, e);
      CurrentlySent(polls, seen', b, id);
    }
  }

  /** The replica has at least the expected entities and at most those of the last two polls, each as
      last polled. */
  ghost predicate Includes(geo: Geo, polls: seq<Poll>, zoom: int, sel: Selection, b: Replica) {
    && Expected(geo, polls, zoom, sel) <= b.markers.Keys <= Tracked(polls) && b.targets.Keys == b.markers.Keys
    && (zoom < 5 ==> b.markers.Keys == {})
    && forall id :: id in b.markers ==> b.markers[id] == OnWire(Current(polls, id)) && GoalOf(b.targets[id]) == GoalSet(b.markers[id])
  }

  lemma CoveredAreTracked(geo: Geo, polls: seq<Poll>, vp: Viewport, visible: seq<Entity>, clusters: map<string, Cluster>)
    requires Covers(geo, After(geo, polls).content, vp, visible, clusters)
    ensures forall e :: e in visible ==> e.id in Tracked(polls) && e == Current(polls, e.id) && e.version == Newest(polls, e.id)
    ensures Expected(geo, polls, vp.zoom, SelectionOf(geo, vp).value) <= Ids(visible)
  {
    hide Tracked;
    hide Current;
    hide Newest;
    hide CellsOf;
    hide IsClusterName;
    var m, sel := After(geo, polls).content, SelectionOf(geo, vp).value;
    StoreHistory(geo, polls);
    hide After;
    forall e | e in visible ensures e.id in Tracked(polls) && e == Current(polls, e.id) && e.version == Newest(polls, e.id) {
      CurrentVersion(polls, e.id);
    }
    forall id | id in Expected(geo, polls, vp.zoom, sel) ensures id in Ids(visible) {
      CurrentHasId(polls, id);
      assert m[id].entity in AnsweredEntities(m, vp.zoom, sel);
      assert m[id].entity in Elements(visible);
    }
  }

  lemma CurrentVersion(polls: seq<Poll>, id: string)
    requires id in Tracked(polls)
    ensures Current(polls, id).version == Newest(polls, id)
  {
  }

  /** Agreement with a table that was just brought up to a covering listing. */
  lemma CoveredShows(geo: Geo, polls: seq<Poll>, vp: Viewport, visible: seq<Entity>, clusters: map<string, Cluster>,
                     seen: Seen, old_: Replica, b: Replica)
    requires Covers(geo, After(geo, polls).content, vp, visible, clusters)
    requires Agrees(polls, seen, old_) && Agrees(polls, SeenAfter(seen, visible), b)
    ensures Includes(geo, polls, vp.zoom, SelectionOf(geo, vp).value, b)
  {
    hide SeenAfter;
    hide OnWire;
    hide GoalOf;
    hide GoalSet;
    hide AnsweredEntities;
    hide IsClusterName;
    hide After;
    hide Expected;
    hide Tracked;
    hide Current;
    hide Newest;
    hide InPoll;
    hide Agrees;
    var seen' := SeenAfter(seen, visible);
    CoveredAreTracked(geo, polls, vp, visible, clusters);
    SeenAfterIs(seen, visible);
    AgreeingKeys(polls, seen', b);
    forall id | id in seen' ensures id in Tracked(polls) && seen'[id] == Newest(polls, id) {
      var e :| e in visible && e.id == id;
      ListedVersion(polls, seen, old_, e);
    }
    forall id | id in seen'
      ensures b.markers[id] == OnWire(Current(polls, id)) && GoalOf(b.targets[id]) == GoalSet(b.markers[id])
    {
      CurrentlySent(polls, seen', b, id);
    }
  }

  /** Listing a current entity records its version, whatever was recorded before. */
  lemma ListedVersion(polls: seq<Poll>, seen: Seen, old_: Replica, e: Entity)
    requires Agrees(polls, seen, old_) && e.id in Tracked(polls) && e.version == Newest(polls, e.id)
    ensures Newer(seen, e) == e.version
  {
    hide Tracked;
    hide Newest;
    if e.id in seen {
      AgreeingId(polls, seen, old_, e.id);
      NewestIsNewest(polls, e.id, seen[e.id]);
    }
  }

  lemma CurrentlySent(polls: seq<Poll>, seen: Seen, b: Replica, id: string)
    requires Agrees(polls, seen, b) && id in seen && id in Tracked(polls) && seen[id] == Newest(polls, id)
    ensures id in b.markers && id in b.targets
    ensures b.markers[id] == OnWire(Current(polls, id)) && GoalOf(b.targets[id]) == GoalSet(b.markers[id])
  {
    hide OnWire;
    hide GoalOf;
    hide GoalSet;
    hide Tracked;
    hide Newest;
    AgreeingId(polls, seen, b, id);
  }

  /** What a pushed listing makes of the replica: it covers the viewport, and if the listing was an answer
      it is exactly the expected picture. */
  ghost predicate Pictures(geo: Geo, polls: seq<Poll>, vp: Viewport, visible: seq<Entity>, clusters: map<string, Cluster>, b: Replica) {
    && SelectionOf(geo, vp).Ok?
    && Includes(geo, polls, vp.zoom, SelectionOf(geo, vp).value, b)
    && (Answers(geo, After(geo, polls).content, vp, visible, clusters) ==> Shows(geo, polls, vp.zoom, SelectionOf(geo, vp).value, b))
  }

  lemma FoundPictures(geo: Geo, polls: seq<Poll>, vp: Viewport, visible: seq<Entity>, clusters: map<string, Cluster>,
                      seen: Seen, old_: Replica, b: Replica)
    requires Finds(geo, polls, vp, visible, clusters)
    requires Agrees(polls, seen, old_) && Agrees(polls, SeenAfter(seen, visible), b)
    ensures Pictures(geo, polls, vp, visible, clusters, b)
  {
    hide Agrees;
    hide Answers;
    hide Includes;
    hide Shows;
    hide SeenAfter;
    hide After;
    hide Intact;
    CoveredShows(geo, polls, vp, visible, clusters, seen, old_, b);
    if Answers(geo, After(geo, polls).content, vp, visible, clusters) {
      CurrentAnswerShows(geo, polls, vp, visible, clusters, seen, old_, b);
    }
  }

  /** The picture, position by position: exactly the stored entities whose own cell is in view, each as
      stored, at the printed precision, in the marker cache and as the animation's goal. */
  ghost predicate ShowsByPosition(geo: Geo, polls: seq<Poll>, vp: Viewport, b: Replica) {
    var m := After(geo, polls).content;
    && b.targets.Keys == b.markers.Keys
    && (forall id :: id in b.markers <==> id in m && OnView(geo, vp, m[id].entity))
    && forall id :: id in b.markers ==>
         var e, d := b.markers[id], b.targets[id];
         && e == OnWire(m[id].entity)
         && d.targetLng == e.lng && d.targetLat == e.lat && d.targetHeading == e.heading
         && d.speed == e.speed && d.altitude == e.altitude
  }

  lemma ExpectedOnView(geo: Geo, polls: seq<Poll>, vp: Viewport)
    requires SelectionOf(geo, vp).Ok?
    ensures var m := After(geo, polls).content;
      forall id :: id in Expected(geo, polls, vp.zoom, SelectionOf(geo, vp).value) <==> id in m && OnView(geo, vp, m[id].entity)
  {
    hide SelectionOf;
    hide OnView;
    hide Tracked;
    hide Current;
    hide CellsOf;
    hide Sees;
    StoreHistory(geo, polls);
    hide After;
    var m := After(geo, polls).content;
    CurrentLocated(geo, polls);
    hide Located;
    if vp.zoom < 5 {
      NotOnView(geo, vp);
    } else {
      forall id | id in m
        ensures Sees(SelectionOf(geo, vp).value, m[id].cells[LayerIndex(vp.zoom).value]) <==> OnView(geo, vp, m[id].entity)
      {
        SeenAtPosition(geo, m, vp, id);
      }
    }
  }

  lemma ShowsPositions(geo: Geo, polls: seq<Poll>, vp: Viewport, b: Replica)
    requires SelectionOf(geo, vp).Ok? && Shows(geo, polls, vp.zoom, SelectionOf(geo, vp).value, b)
    ensures ShowsByPosition(geo, polls, vp, b)
  {
    hide SelectionOf;
    hide OnView;
    hide Expected;
    hide Tracked;
    hide Current;
    hide OnWire;
    ExpectedOnView(geo, polls, vp);
    StoreHistory(geo, polls);
    hide After;
  }

  lemma ShownPositions(geo: Geo, polls: seq<Poll>, vp: Viewport, b: Replica)
    ensures SelectionOf(geo, vp).Ok? && Shows(geo, polls, vp.zoom, SelectionOf(geo, vp).value, b) ==> ShowsByPosition(geo, polls, vp, b)
  {
    hide Shows;
    hide ShowsByPosition;
    hide SelectionOf;
    if SelectionOf(geo, vp).Ok? && Shows(geo, polls, vp.zoom, SelectionOf(geo, vp).value, b) {
      ShowsPositions(geo, polls, vp, b);
    }
  }

  /** A viewport push of what was found in the current index makes the browser end up with the picture,
      whatever it had been told before. */
  lemma ViewportPushShows(cfg: Config, s: System, d: Delta, outcome: Outcome, s': System)
    requires Inv(s) && Inv(s') && Next(cfg, s, ViewportPush(d, outcome), s')
    requires Finds(cfg.geo, s.polls, s.h.vp, s.h.visible, s.h.clusters)
    ensures Pictures(cfg.geo, s.polls, s.h.vp, s.h.visible, s.h.clusters, Settled(s'))
  {
    hide Agrees;
    hide Genuine;
    hide Finds;
    hide Pictures;
    hide SeenAfter;
    hide IsDelta;
    hide IsText;
    hide Drained;
    FoundPictures(cfg.geo, s.polls, s.h.vp, s.h.visible, s.h.clusters, s.client.seen, Settled(s), Settled(s'));
  }

  /** So does a broadcast push, for the viewport that was queried. */
  lemma BroadcastPushShows(cfg: Config, s: System, vp: Viewport, d: Delta, outcome: Outcome, s': System)
    requires Inv(s) && Inv(s') && Next(cfg, s, BroadcastPush(d, outcome), s')
    requires Finds(cfg.geo, s.polls, vp, s.b.visible, s.b.clusters)
    ensures Pictures(cfg.geo, s.polls, vp, s.b.visible, s.b.clusters, Settled(s'))
  {
    hide Agrees;
    hide Genuine;
    hide Finds;
    hide Pictures;
    hide SeenAfter;
    hide IsDelta;
    hide IsText;
    hide Drained;
    FoundPictures(cfg.geo, s.polls, vp, s.b.visible, s.b.clusters, s.client.seen, Settled(s), Settled(s'));
  }

  lemma PicturesSame(geo: Geo, polls: seq<Poll>, vp: Viewport, visible: seq<Entity>, clusters: map<string, Cluster>, a: Replica, b: Replica)
    requires SameKnowledge(a, b) && Pictures(geo, polls, vp, visible, clusters, a)
    ensures Pictures(geo, polls, vp, visible, clusters, b)
  {
    hide Answers;
    hide After;
    hide SelectionOf;
    hide Expected;
    hide Current;
    hide Tracked;
    hide OnWire;
    hide GoalOf;
    hide GoalSet;
  }

  /** An answered viewport update waits unchanged for its push. */
  lemma {:induction false} AnswerWaits(cfg: Config, states: seq<System>, steps: seq<Step>, q: nat, p: nat)
    requires IsRun(cfg, states, steps) && q < p < |steps|
    requires steps[q] == ViewportQuery && states[q + 1].h.Answered?
    requires forall i :: q < i < p ==> !steps[i].Apply? && !steps[i].ViewportPush?
    ensures states[p].h == states[q + 1].h && states[p].polls == states[q].polls
    decreases p
  {
    hide Next;
    hide Initial;
    assert Next(cfg, states[p - 1], steps[p - 1], states[p - 1 + 1]);
    if p == q + 1 {
      QueryKeepsPolls(cfg, states[q], steps[q], states[q + 1]);
    } else {
      AnswerWaits(cfg, states, steps, q, p - 1);
      HandlerStays(cfg, states[p - 1], steps[p - 1], states[p]);
    }
  }

  lemma QueryKeepsPolls(cfg: Config, s: System, step: Step, s': System)
    requires Next(cfg, s, step, s') && (step == ViewportQuery || step == BroadcastQuery)
    ensures s'.polls == s.polls
  {
    hide Finds;
    hide SelectionOf;
    hide Pushes;
    hide Received;
    hide AllTicked;
  }

  lemma HandlerStays(cfg: Config, s: System, step: Step, s': System)
    requires Next(cfg, s, step, s') && s.h.Answered? && !step.Apply? && !step.ViewportPush?
    ensures s'.h == s.h && s'.polls == s.polls
  {
    hide Pushes;
    hide Finds;
    hide PollOk;
    hide Received;
    hide AllTicked;
  }

  /** So does what the broadcaster found. */
  lemma {:induction false} BroadcastWaits(cfg: Config, states: seq<System>, steps: seq<Step>, q: nat, p: nat)
    requires IsRun(cfg, states, steps) && q < p < |steps|
    requires steps[q] == BroadcastQuery && states[q + 1].b.WithAnswer?
    requires forall i :: q < i < p ==> !steps[i].Apply? && !steps[i].BroadcastPush?
    ensures states[p].b == states[q + 1].b && states[p].polls == states[q].polls
    decreases p
  {
    hide Next;
    hide Initial;
    assert Next(cfg, states[p - 1], steps[p - 1], states[p - 1 + 1]);
    if p == q + 1 {
      QueryKeepsPolls(cfg, states[q], steps[q], states[q + 1]);
    } else {
      BroadcastWaits(cfg, states, steps, q, p - 1);
      BroadcasterStays(cfg, states[p - 1], steps[p - 1], states[p]);
    }
  }

  lemma BroadcasterStays(cfg: Config, s: System, step: Step, s': System)
    requires Next(cfg, s, step, s') && s.b.WithAnswer? && !step.Apply? && !step.BroadcastPush?
    ensures s'.b == s.b && s'.polls == s.polls
  {
    hide Pushes;
    hide Finds;
    hide PollOk;
    hide Received;
    hide AllTicked;
  }

  /** Without further pushes, what the browser ends up with does not change any more. */
  lemma {:induction false} ShownStays(cfg: Config, states: seq<System>, steps: seq<Step>, p: nat, k: nat,
                                      polls: seq<Poll>, vp: Viewport, visible: seq<Entity>, clusters: map<string, Cluster>)
    requires IsRun(cfg, states, steps) && p < k < |states|
    requires forall i :: p < i < k ==> !IsPush(steps[i])
    requires Pictures(cfg.geo, polls, vp, visible, clusters, Settled(states[p + 1]))
    ensures Pictures(cfg.geo, polls, vp, visible, clusters, Settled(states[k]))
    decreases k
  {
    hide Next;
    hide Initial;
    hide Pictures;
    hide Drained;
    hide SameKnowledge;
    if k > p + 1 {
      ShownStays(cfg, states, steps, p, k - 1, polls, vp, visible, clusters);
      assert Next(cfg, states[k - 1], steps[k - 1], states[k - 1 + 1]);
      SettledStays(cfg, states[k - 1], steps[k - 1], states[k]);
      PicturesSame(cfg.geo, polls, vp, visible, clusters, Settled(states[k - 1]), Settled(states[k]));
    }
  }

  /** A run in which what was found at step q is pushed at step p before the next poll, no harmful push is
      dropped, and all messages have arrived by state k before the next push. */
  ghost predicate Delivers(cfg: Config, states: seq<System>, steps: seq<Step>, q: nat, p: nat, k: nat) {
    && IsRun(cfg, states, steps) && NoHarm(states, steps) && q < p < k < |states|
    && (forall i :: q < i < p ==> !steps[i].Apply?)
    && (forall i :: p < i < k ==> !IsPush(steps[i]))
    && states[k].wire == [] && states[k].client.ch == []
  }

  /** The end of both theorems below: from the push on. */
  lemma Delivered(cfg: Config, states: seq<System>, steps: seq<Step>, q: nat, p: nat, k: nat,
                  polls: seq<Poll>, vp: Viewport, visible: seq<Entity>, clusters: map<string, Cluster>)
    requires Delivers(cfg, states, steps, q, p, k) && Finds(cfg.geo, polls, vp, visible, clusters)
    requires Pictures(cfg.geo, polls, vp, visible, clusters, Settled(states[p + 1]))
    ensures SelectionOf(cfg.geo, vp).Ok? && Pictures(cfg.geo, polls, vp, visible, clusters, states[k].replica)
    ensures Intact(cfg.geo, polls) ==> Shows(cfg.geo, polls, vp.zoom, SelectionOf(cfg.geo, vp).value, states[k].replica)
  {
    hide IsRun;
    hide NoHarm;
    hide Shows;
    hide Includes;
    hide Answers;
    hide Covers;
    hide After;
    hide Intact;
    ShownStays(cfg, states, steps, p, k, polls, vp, visible, clusters);
    assert states[k].wire + states[k].client.ch == [];
  }

  lemma QueryFound(cfg: Config, s: System, step: Step, s': System)
    requires Next(cfg, s, step, s')
    ensures step == ViewportQuery && s'.h.Answered? ==>
      s.h.ViewportSet? && s'.h.vp == s.h.vp && Finds(cfg.geo, s.polls, s.h.vp, s'.h.visible, s'.h.clusters)
    ensures step == BroadcastQuery && s'.b.WithAnswer? ==>
      s.b.Cleared? && Finds(cfg.geo, s.polls, s.b.vp, s'.b.visible, s'.b.clusters)
  {
    hide Finds;
    hide SelectionOf;
    hide Pushes;
    hide Received;
    hide AllTicked;
  }

  /** End to end: after any history of polls, pushes and viewports in which no harmful push was dropped, a
      viewport update that is pushed before the next poll leaves the browser, once its messages have
      arrived, with everything in view and nothing but the last two polls, as last polled; and if no poll took
      a cell away, with exactly the entities whose cell is in view. */
  lemma EndToEnd(cfg: Config, states: seq<System>, steps: seq<Step>, q: nat, p: nat, k: nat)
    requires Delivers(cfg, states, steps, q, p, k)
    requires steps[q] == ViewportQuery && states[q + 1].h.Answered? && steps[p].ViewportPush?
    requires forall i :: q < i < p ==> !steps[i].ViewportPush?
    ensures states[q].h.ViewportSet?
    ensures var vp, polls, found := states[q].h.vp, states[q].polls, states[q + 1].h;
      && Pictures(cfg.geo, polls, vp, found.visible, found.clusters, states[k].replica)
      && (Intact(cfg.geo, polls) ==> Shows(cfg.geo, polls, vp.zoom, SelectionOf(cfg.geo, vp).value, states[k].replica))
      && (Intact(cfg.geo, polls) ==> ShowsByPosition(cfg.geo, polls, vp, states[k].replica))
  {
    hide Inv;
    hide Next;
    hide Initial;
    hide Shows;
    hide Pictures;
    hide Finds;
    hide HarmlessStep;
    hide Intact;
    RunsAgree(cfg, states, steps, p);
    RunsAgree(cfg, states, steps, p + 1);
    AnswerWaits(cfg, states, steps, q, p);
    assert Next(cfg, states[q], steps[q], states[q + 1]);
    assert Next(cfg, states[p], steps[p], states[p + 1]);
    QueryFound(cfg, states[q], steps[q], states[q + 1]);
    ViewportPushShows(cfg, states[p], steps[p].d, steps[p].outcome, states[p + 1]);
    hide ShowsByPosition;
    Delivered(cfg, states, steps, q, p, k, states[q].polls, states[q].h.vp, states[q + 1].h.visible, states[q + 1].h.clusters);
    ShownPositions(cfg.geo, states[q].polls, states[q].h.vp, states[k].replica);
  }

  /** The same for a broadcast, for the viewport it queried, even if the viewport changed meanwhile. */
  lemma BroadcastEndToEnd(cfg: Config, states: seq<System>, steps: seq<Step>, q: nat, p: nat, k: nat)
    requires Delivers(cfg, states, steps, q, p, k)
    requires steps[q] == BroadcastQuery && states[q + 1].b.WithAnswer? && steps[p].BroadcastPush?
    requires forall i :: q < i < p ==> !steps[i].BroadcastPush?
    ensures states[q].b.Cleared?
    ensures var vp, polls, found := states[q].b.vp, states[q].polls, states[q + 1].b;
      && Pictures(cfg.geo, polls, vp, found.visible, found.clusters, states[k].replica)
      && (Intact(cfg.geo, polls) ==> Shows(cfg.geo, polls, vp.zoom, SelectionOf(cfg.geo, vp).value, states[k].replica))
      && (Intact(cfg.geo, polls) ==> ShowsByPosition(cfg.geo, polls, vp, states[k].replica))
  {
    hide Inv;
    hide Next;
    hide Initial;
    hide Shows;
    hide Pictures;
    hide Finds;
    hide HarmlessStep;
    hide Intact;
    RunsAgree(cfg, states, steps, p);
    RunsAgree(cfg, states, steps, p + 1);
    BroadcastWaits(cfg, states, steps, q, p);
    assert Next(cfg, states[q], steps[q], states[q + 1]);
    assert Next(cfg, states[p], steps[p], states[p + 1]);
    QueryFound(cfg, states[q], steps[q], states[q + 1]);
    BroadcastPushShows(cfg, states[p], states[q].b.vp, steps[p].d, steps[p].outcome, states[p + 1]);
    hide ShowsByPosition;
    Delivered(cfg, states, steps, q, p, k, states[q].polls, states[q].b.vp, states[q + 1].b.visible, states[q + 1].b.clusters);
    ShownPositions(cfg.geo, states[q].polls, states[q].b.vp, states[k].replica);
  }

  // ---- Properties of all runs, with or without drops ----

  ghost predicate ListingsDistinct(s: System) {
    && (s.b.WithAnswer? ==> DistinctIds(s.b.visible))
    && (s.h.Answered? ==> DistinctIds(s.h.visible))
  }

  lemma {:induction false} RunsListDistinctly(cfg: Config, states: seq<System>, steps: seq<Step>, i: nat)
    requires IsRun(cfg, states, steps) && i < |states|
    ensures ListingsDistinct(states[i])
    decreases i
  {
    if i > 0 {
      RunsListDistinctly(cfg, states, steps, i - 1);
      assert Next(cfg, states[i - 1], steps[i - 1], states[i - 1 + 1]);
      StepListsDistinctly(cfg, states[i - 1], steps[i - 1], states[i]);
    }
  }

  lemma StepListsDistinctly(cfg: Config, s: System, step: Step, s': System)
    requires ListingsDistinct(s) && Next(cfg, s, step, s')
    ensures ListingsDistinct(s')
  {
    hide Pushes;
    hide After;
    hide PollOk;
    hide Received;
    hide AllTicked;
    hide AnsweredEntities;
    hide AnsweredClusters;
    hide SelectionOf;
  }

  /** While an id stays in the table its recorded version never goes back, even when a stale listing
      is pushed after a newer one, and whether or not pushes are dropped. */
  lemma {:induction false} VersionsNeverGoBack(cfg: Config, states: seq<System>, steps: seq<Step>, i: nat, k: nat, id: string)
    requires IsRun(cfg, states, steps) && i <= k < |states|
    requires forall m :: i <= m <= k ==> id in states[m].client.seen
    ensures states[i].client.seen[id] <= states[k].client.seen[id]
    decreases k
  {
    hide Next;
    if i < k {
      VersionsNeverGoBack(cfg, states, steps, i, k - 1, id);
      RunsListDistinctly(cfg, states, steps, k - 1);
      assert Next(cfg, states[k - 1], steps[k - 1], states[k - 1 + 1]);
      StepVersions(cfg, states[k - 1], steps[k - 1], states[k], id);
    }
  }

  lemma StepVersions(cfg: Config, s: System, step: Step, s': System, id: string)
    requires ListingsDistinct(s) && Next(cfg, s, step, s') && id in s.client.seen && id in s'.client.seen
    ensures s.client.seen[id] <= s'.client.seen[id]
  {
    hide IsDelta;
    hide IsText;
    hide SeenAfter;
    hide Finds;
    hide PollOk;
    hide Received;
    hide AllTicked;
    hide DistinctIds;
    match step
    case BroadcastPush(_, _) => SeenNeverGoesBack(s.client.seen, s.b.visible, id);
    case ViewportPush(_, _) => SeenNeverGoesBack(s.client.seen, s.h.visible, id);
    case _ =>
  }

  ghost predicate Spaced(pushes: seq<int>, gap: int) {
    forall i, j :: 0 <= i < j < |pushes| ==> pushes[j] - pushes[i] >= gap
  }

  /** What the broadcaster knows about time, at every point of its round. */
  ghost predicate Paced(cfg: Config, s: System) {
    && Spaced(s.pushes, cfg.minPushInterval)
    && (s.client.lastPush.Some? ==> s.client.lastPush.value <= s.clock)
    && (s.pushes != [] ==>
          && s.client.lastPush.Some?
          && (forall i :: 0 <= i < |s.pushes| ==> s.pushes[i] <= s.pushes[|s.pushes| - 1] <= s.client.lastPush.value))
    && (s.b.Cleared? || s.b.WithAnswer? ==> s.pushes == [] || s.clock - s.pushes[|s.pushes| - 1] >= cfg.minPushInterval)
  }

  lemma StepKeepsPace(cfg: Config, s: System, step: Step, s': System)
    requires Paced(cfg, s) && Next(cfg, s, step, s')
    ensures Paced(cfg, s')
  {
    hide Next;
    hide Paced;
    if IsPush(step) {
      PushKeepsPace(cfg, s, step, s');
    } else {
      QuietKeepsPace(cfg, s, step, s');
    }
  }

  lemma PushKeepsPace(cfg: Config, s: System, step: Step, s': System)
    requires Paced(cfg, s) && Next(cfg, s, step, s') && IsPush(step)
    ensures Paced(cfg, s')
  {
    hide IsDelta;
    hide IsText;
    hide SeenAfter;
    hide PartOf;
  }

  lemma QuietKeepsPace(cfg: Config, s: System, step: Step, s': System)
    requires Paced(cfg, s) && Next(cfg, s, step, s') && !IsPush(step)
    ensures Paced(cfg, s')
  {
    hide Spaced;
    hide Finds;
    hide PollOk;
    hide SelectionOf;
    hide Received;
    hide AllTicked;
  }

  /** Any two accepted broadcast pushes are at least the push interval apart, however viewport pushes
      and queries interleave with them. */
  lemma {:induction false} BroadcastsAreSpaced(cfg: Config, states: seq<System>, steps: seq<Step>, i: nat)
    requires IsRun(cfg, states, steps) && i < |states|
    ensures Spaced(states[i].pushes, cfg.minPushInterval) && Paced(cfg, states[i])
    decreases i
  {
    if i > 0 {
      BroadcastsAreSpaced(cfg, states, steps, i - 1);
      assert Next(cfg, states[i - 1], steps[i - 1], states[i - 1 + 1]);
      StepKeepsPace(cfg, states[i - 1], steps[i - 1], states[i]);
    }
  }

  // ---- Nothing here is empty ----

  /** Accepted positions take no cell away, whatever was polled before. */
  lemma AcceptedKeeps(geo: Geo, polls: seq<Poll>, poll: Poll)
    requires forall e :: e in poll ==> geo.accepts(LatLng(e.lat, e.lng))
    ensures Intact(geo, polls) ==> Intact(geo, polls + [poll])
  {
    hide After;
    var st := After(geo, polls);
    var n := st.seqNo + 1;
    StampedPositions(poll, n);
    SplitMembers(st.lastSeen.Keys, Stamped(poll, n));
    forall j | 0 <= j < 5 ensures KeepsCells(geo, st, poll, j) {
      AcceptedKeepsCells(geo, st.content - Evicted(st.lastSeen, poll, n), Combined(st.lastSeen.Keys, poll, n), j);
    }
    hide KeepsCells;
    assert (polls + [poll])[..|polls|] == polls;
  }

  lemma StampedPositions(poll: Poll, n: nat)
    ensures forall e :: e in Stamped(poll, n) ==> exists f :: f in poll && e == f.(version := n)
  {
    forall e | e in Stamped(poll, n) ensures exists f :: f in poll && e == f.(version := n) {
      var i :| 0 <= i < |poll| && Stamped(poll, n)[i] == e;
      assert poll[i] in poll;
    }
  }

  lemma {:induction false} SplitMembers(known: set<string>, es: seq<Entity>)
    ensures forall e :: e in Added(known, es) || e in Updated(known, es) ==> e in es
  {
    if es != [] {
      SplitMembers(known, es[..|es| - 1]);
      Snoc(es);
    }
  }

  lemma AnsweredNames(geo: Geo, m: Content, zoom: int, sel: Selection)
    ensures forall name :: name in AnsweredClusters(geo, m, zoom, sel) ==> IsClusterName(name)
  {
    hide CellName;
    hide Named;
    hide CountsOf;
    match LayerIndex(zoom)
    case None =>
    case Some(j) =>
      if zoom < 5 {
        NamedIs(geo, CountsOf(m, j, Reported(m, j, sel)));
      }
  }

  /** Every viewport whose polygons can be computed has an answer, so no query is ever stuck. */
  lemma AnswerExists(geo: Geo, polls: seq<Poll>, vp: Viewport) returns (visible: seq<Entity>, clusters: map<string, Cluster>)
    requires SelectionOf(geo, vp).Ok?
    ensures Finds(geo, polls, vp, visible, clusters) && Answers(geo, After(geo, polls).content, vp, visible, clusters)
  {
    hide After;
    hide AnsweredClusters;
    hide IsClusterName;
    hide Intact;
    var m, sel := After(geo, polls).content, SelectionOf(geo, vp).value;
    clusters := AnsweredClusters(geo, m, vp.zoom, sel);
    AnsweredNames(geo, m, vp.zoom, sel);
    StoreHistory(geo, polls);
    forall e | e in AnsweredEntities(m, vp.zoom, sel)
      ensures e.id in Tracked(polls) && e == Current(polls, e.id) && e.id in m && e == m[e.id].entity
    {
      ListedIsCurrent(geo, polls, vp.zoom, sel, e);
    }
    NothingBelowFive(m, vp.zoom, sel);
    hide AnsweredEntities;
    hide Current;
    hide Tracked;
    visible := ListingExists(polls, AnsweredEntities(m, vp.zoom, sel));
    forall e | e in visible ensures e.id in m && e == m[e.id].entity {
      assert e in Elements(visible);
    }
    if vp.zoom < 5 {
      NoElements(visible);
    }
  }

  lemma NothingBelowFive(m: Content, zoom: int, sel: Selection)
    ensures zoom < 5 ==> AnsweredEntities(m, zoom, sel) == {}
  {
  }

  lemma {:induction false} ListingExists(polls: seq<Poll>, es: set<Entity>) returns (visible: seq<Entity>)
    requires forall e :: e in es ==> e.id in Tracked(polls) && e == Current(polls, e.id)
    ensures DistinctIds(visible) && Elements(visible) == es
    decreases es
  {
    hide Current;
    hide Tracked;
    if e :| e in es {
      var rest := ListingExists(polls, es - {e});
      visible := rest + [e];
      forall i | 0 <= i < |rest| ensures rest[i].id != e.id {
        assert rest[i] in Elements(rest);
      }
      assert Elements(visible) == Elements(rest) + {e};
    } else {
      visible := [];
    }
  }

  /** Every listing can be pushed, and an empty channel never drops. */
  lemma PushExists(c: ClientState, visible: seq<Entity>, clusters: map<string, Cluster>, n: nat, now: int)
    returns (d: Delta, c': ClientState, outcome: Outcome)
    ensures Pushes(c, visible, clusters, n, now, d, c', outcome) && d.clusters == clusters
    ensures c.ch == [] ==> outcome != Dropped
  {
    var removed := SomeOrder(SeenWith(c.seen, visible).Keys - Ids(visible));
    d := Delta(n, AddedBy(c.seen, visible), UpdatedBy(c.seen, visible), removed, clusters);
    outcome := if IsEmpty(d) then Skipped else if |c.ch| < 1 then Queued else Dropped;
    c' := c.(seen := SeenAfter(c.seen, visible));
    if outcome == Queued {
      var order := SomeOrder(clusters.Keys);
      assert forall k :: k in order ==> k in Elements(order);
      var text := PutValue(Reading.Wire.DeltaTree(d, order), "");
      assert IsText(d, text);
      c' := c'.(ch := c.ch + [text], lastPush := Some(now));
    }
  }

  lemma {:induction false} SomeOrder(ids: set<string>) returns (order: seq<string>)
    ensures NoDuplicates(order) && Elements(order) == ids
    decreases ids
  {
    if id :| id in ids {
      var rest := SomeOrder(ids - {id});
      order := rest + [id];
      AppendedOnce(rest, id);
    } else {
      order := [];
    }
  }

  // ---- A lost delta ----

  /** The states and steps of a run so far. */
  datatype Trace = Trace(states: seq<System>, steps: seq<Step>)

  function Latest(t: Trace): System
    requires t.states != []
  {
    t.states[|t.states| - 1]
  }

  ghost predicate IsTrace(cfg: Config, t: Trace) {
    t.states != [] && IsRun(cfg, t.states, t.steps)
  }

  lemma Extend(cfg: Config, t: Trace, step: Step, s': System) returns (t': Trace)
    requires IsTrace(cfg, t) && NoHarm(t.states, t.steps) && Next(cfg, Latest(t), step, s')
    ensures IsTrace(cfg, t') && Latest(t') == s'
    ensures t'.states == t.states + [s'] && t'.steps == t.steps + [step]
    ensures HarmlessStep(Latest(t), step) ==> NoHarm(t'.states, t'.steps)
  {
    hide Next;
    hide Initial;
    hide HarmlessStep;
    t' := Trace(t.states + [s'], t.steps + [step]);
    forall i | 0 <= i < |t'.steps| ensures Next(cfg, t'.states[i], t'.steps[i], t'.states[i + 1]) {
      assert i < |t.steps| ==> t'.states[i + 1] == t.states[i + 1];
    }
  }

  /** A step that pushes nothing. */
  lemma ExtendQuietly(cfg: Config, t: Trace, step: Step, s': System) returns (t': Trace)
    requires IsTrace(cfg, t) && NoHarm(t.states, t.steps) && Next(cfg, Latest(t), step, s') && !IsPush(step)
    ensures IsTrace(cfg, t') && NoHarm(t'.states, t'.steps) && Latest(t') == s'
  {
    hide Next;
    hide IsTrace;
    hide NoHarm;
    t' := Extend(cfg, t, step, s');
  }

  /** One poll, from the counter to the event. */
  lemma PollRound(cfg: Config, t: Trace, poll: Poll) returns (t': Trace)
    requires IsTrace(cfg, t) && NoHarm(t.states, t.steps) && Latest(t).poller.Resting? && PollOk(poll)
    ensures IsTrace(cfg, t') && NoHarm(t'.states, t'.steps)
    ensures var s, s' := Latest(t), Latest(t'); s'.polls == s.polls + [poll] && s'.poller.Resting? && s'.h == s.h && s'.client == s.client
  {
    hide IsRun;
    hide NoHarm;
    var s := Latest(t);
    t' := ExtendQuietly(cfg, t, CountPoll, s.(poller := Counted));
    t' := ExtendQuietly(cfg, t', Apply(poll), Latest(t').(polls := s.polls + [poll], poller := Stored));
    t' := ExtendQuietly(cfg, t', Publish,
                        Latest(t').(poller := Resting, event := if s.event.None? then Some(|s.polls| + 1) else s.event));
  }

  /** One viewport update up to its push, with a complete answer and all its clusters. */
  lemma ViewportRound(cfg: Config, t: Trace, vp: Viewport) returns (t': Trace, d: Delta, outcome: Outcome, s': System)
    requires IsTrace(cfg, t) && NoHarm(t.states, t.steps) && Latest(t).h.Waiting? && SelectionOf(cfg.geo, vp).Ok?
    ensures IsTrace(cfg, t') && NoHarm(t'.states, t'.steps) && Next(cfg, Latest(t'), ViewportPush(d, outcome), s')
    ensures var s, s1 := Latest(t), Latest(t');
      && s1.polls == s.polls == s'.polls && s1.poller == s.poller == s'.poller && s1.client == s.client.(viewport := vp)
      && s1.h.Answered? && s'.h.Waiting?
      && Answers(cfg.geo, After(cfg.geo, s.polls).content, vp, s1.h.visible, s1.h.clusters)
      && Pushes(s1.client, s1.h.visible, d.clusters, CounterOf(s1), s1.clock, d, s'.client, outcome)
  {
    hide IsRun;
    hide NoHarm;
    hide Answers;
    hide Finds;
    hide After;
    hide SelectionOf;
    hide Pushes;
    var s := Latest(t);
    t' := ExtendQuietly(cfg, t, SetViewport(vp), s.(h := ViewportSet(vp), client := s.client.(viewport := vp)));
    var visible, clusters := AnswerExists(cfg.geo, s.polls, vp);
    t' := ExtendQuietly(cfg, t', ViewportQuery, Latest(t').(h := Answered(vp, visible, clusters)));
    var c';
    d, c', outcome := PushExists(Latest(t').client, visible, clusters, CounterOf(Latest(t')), Latest(t').clock);
    AllOfIt(d.clusters, clusters);
    s' := Latest(t').(h := Waiting, client := c');
  }

  lemma AllOfIt(some: map<string, Cluster>, all: map<string, Cluster>)
    ensures some == all ==> PartOf(some, all)
  {
  }

  /** A complete listing with an id not sent before is news; it is lost exactly when the channel is full. */
  lemma NewsIsPushed(geo: Geo, polls: seq<Poll>, vp: Viewport, visible: seq<Entity>, found: map<string, Cluster>, c: ClientState,
                     clusters: map<string, Cluster>, n: nat, now: int, d: Delta, c': ClientState, outcome: Outcome, id: string)
    requires Answers(geo, After(geo, polls).content, vp, visible, found)
    requires Pushes(c, visible, clusters, n, now, d, c', outcome)
    requires id in Expected(geo, polls, vp.zoom, SelectionOf(geo, vp).value) && id !in c.seen
    ensures d.added != [] && outcome == (if |c.ch| < 1 then Queued else Dropped)
    ensures c'.seen.Keys == Expected(geo, polls, vp.zoom, SelectionOf(geo, vp).value) && (outcome == Queued ==> c'.ch != [])
  {
    hide Expected;
    hide SeenAfter;
    hide AddedBy;
    hide UpdatedBy;
    hide SeenWith;
    hide AnsweredEntities;
    hide AnsweredClusters;
    hide IsText;
    StoreHistory(geo, polls);
    hide After;
    hide Tracked;
    hide Current;
    hide Newest;
    ListedAreExpected(geo, polls, vp.zoom, SelectionOf(geo, vp).value, visible);
    ListsAre(c.seen, visible);
    SeenAfterIs(c.seen, visible);
    var e :| e in visible && e.id == id;
    assert e in d.added;
  }

  /** An entity at latitude and longitude zero. */
  function Plane(id: string): Entity {
    Entity(id, "", 0.0, 0.0, 0.0, 0.0, 0.0, "", "", "", 0, 0)
  }

  /** A viewport that lists entities and has latitude and longitude zero in view. */
  predicate SeesOrigin(geo: Geo, vp: Viewport) {
    vp.zoom >= 5 && SelectionOf(geo, vp).Ok?
    && Sees(SelectionOf(geo, vp).value, CellOf(geo, LatLng(0.0, 0.0), ZoomToResolution(vp.zoom)))
  }

  predicate AtOrigin(polls: seq<Poll>) {
    forall k, e :: 0 <= k < |polls| && e in polls[k] ==> e.lat == 0.0 && e.lng == 0.0
  }

  lemma CurrentAtOrigin(polls: seq<Poll>, id: string)
    requires AtOrigin(polls) && id in Tracked(polls)
    ensures Current(polls, id).lat == 0.0 && Current(polls, id).lng == 0.0
  {
    hide Tracked;
    var k := Newest(polls, id);
    var e := Published(polls, k, id);
    StampedIds(polls[k - 1], k);
    assert e in Stamped(polls[k - 1], k);
    var i :| 0 <= i < |polls[k - 1]| && polls[k - 1][i].(version := k) == e;
    assert polls[k - 1][i] in polls[k - 1];
  }

  lemma OriginCell(geo: Geo, e: Entity, zoom: int)
    requires e.lat == 0.0 && e.lng == 0.0 && LayerIndex(zoom).Some?
    ensures CellsOf(geo, e)[LayerIndex(zoom).value] == CellOf(geo, LatLng(0.0, 0.0), ZoomToResolution(zoom))
  {
  }

  lemma AllExpected(geo: Geo, polls: seq<Poll>, vp: Viewport)
    requires SeesOrigin(geo, vp) && AtOrigin(polls)
    ensures Expected(geo, polls, vp.zoom, SelectionOf(geo, vp).value) == Tracked(polls)
  {
    hide Tracked;
    hide Current;
    hide CellsOf;
    hide AtOrigin;
    hide SelectionOf;
    forall id | id in Tracked(polls)
      ensures Sees(SelectionOf(geo, vp).value, CellsOf(geo, Current(polls, id))[LayerIndex(vp.zoom).value])
    {
      CurrentAtOrigin(polls, id);
      OriginCell(geo, Current(polls, id), vp.zoom);
    }
  }

  /** Two polls and two viewport updates lose a delta: the second update comes before the first delta has
      been written, and the entity it should have added is never sent. */
  lemma LostDelta(cfg: Config, vp: Viewport) returns (t: Trace)
    requires SeesOrigin(cfg.geo, vp)
    ensures IsTrace(cfg, t) && t.steps != [] && Drops(t.steps[|t.steps| - 1])
    ensures forall i :: 0 <= i < |t.steps| - 1 ==> HarmlessStep(t.states[i], t.steps[i])
    ensures !Inv(Latest(t))
  {
    hide Inv;
    hide Next;
    hide Expected;
    hide Answers;
    hide After;
    hide Pushes;
    hide Harmless;
    hide Tracked;
    hide Plane;
    hide SelectionOf;
    hide PollOk;
    var a, b := [Plane("a")], [Plane("b")];
    TwoPlanes(cfg.geo, vp);
    var start := System([], Resting, None, NEW_CLIENT, Idling, Waiting, [], EMPTY, 0, []);
    t := Trace([start], []);
    t := PollRound(cfg, t, a);
    assert [] + [a] == [a];
    var d, outcome, s';
    t, d, outcome, s' := ViewportRound(cfg, t, vp);
    NewsIsPushed(cfg.geo, [a], vp, Latest(t).h.visible, Latest(t).h.clusters, Latest(t).client,
                 d.clusters, CounterOf(Latest(t)), Latest(t).clock, d, s'.client, outcome, "a");
    t := Extend(cfg, t, ViewportPush(d, outcome), s');
    t := PollRound(cfg, t, b);
    assert [a] + [b] == [a, b];
    t, d, outcome, s' := ViewportRound(cfg, t, vp);
    NewsIsPushed(cfg.geo, [a, b], vp, Latest(t).h.visible, Latest(t).h.clusters, Latest(t).client,
                 d.clusters, CounterOf(Latest(t)), Latest(t).clock, d, s'.client, outcome, "b");
    var before := t;
    RunsAgree(cfg, before.states, before.steps, |before.states| - 1);
    t := Extend(cfg, before, ViewportPush(d, outcome), s');
    AddingIsHarm(Latest(before).polls, Latest(before).client.seen, d);
    HarmlessStepKeepsInv(cfg, Latest(before), ViewportPush(d, outcome), s');
    forall i | 0 <= i < |t.steps| - 1 ensures HarmlessStep(t.states[i], t.steps[i]) {
      assert t.states[i] == before.states[i] && t.steps[i] == before.steps[i];
    }
  }

  lemma AddingIsHarm(polls: seq<Poll>, seen: Seen, d: Delta)
    requires d.added != []
    ensures !Harmless(polls, seen, d)
  {
  }

  lemma TwoPlanes(geo: Geo, vp: Viewport)
    requires SeesOrigin(geo, vp)
    ensures var a, b := [Plane("a")], [Plane("b")]; var sel := SelectionOf(geo, vp).value;
      && PollOk(a) && PollOk(b)
      && Expected(geo, [a], vp.zoom, sel) == {"a"} && Expected(geo, [a, b], vp.zoom, sel) == {"a", "b"}
  {
    hide Expected;
    hide SelectionOf;
    var a, b := [Plane("a")], [Plane("b")];
    OnePlane("a");
    OnePlane("b");
    AllExpected(geo, [a], vp);
    AllExpected(geo, [a, b], vp);
  }

  lemma OnePlane(id: string)
    ensures Ids([Plane(id)]) == {id} && (Clean(id) ==> PollOk([Plane(id)]))
  {
  }
}
