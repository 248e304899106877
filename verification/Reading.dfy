/** The reader of the wire form, and the round trip through it. */
module Reading {
  import opened Entities
  import opened Numerals
  import opened Json
  import opened Wire

  // ---- Numbers ----

  function Pow10(n: nat): nat
    ensures Pow10(n) >= 1
  {
    if n == 0 then 1 else 10 * Pow10(n - 1)
  }

  function NumberValue(n: Number): real {
    var m := Value(n.whole, 10) as real + Value(n.frac, 10) as real / Pow10(|n.frac|) as real;
    var s := if n.neg then -m else m;
    match n.exp
    case None => s
    case Some((neg, digits)) =>
      var e := Value(digits, 10);
      if e < 0 then s else if neg then s / Pow10(e) as real else s * Pow10(e) as real
  }

  /** A real at the printed precision. */
  function Rounded(x: real, decimals: nat): real {
    var q := HalfEven(Abs(x) * ScaleOf(decimals) as real) as real / ScaleOf(decimals) as real;
    if x < 0.0 then -q else q
  }

  lemma {:induction false} PaddedValue(n: nat, width: nat)
    requires n < Pow10(width)
    ensures |Padded(n, width)| == width && Value(Padded(n, width), 10) == n && DigitString(Padded(n, width))
  {
    if width > 0 {
      PaddedValue(n / 10, width - 1);
      DigitRoundTrip(n % 10, 10);
      Appended(Padded(n / 10, width - 1), DigitChar(n % 10), 10);
    }
  }

  lemma ScaleIsPow10(decimals: nat)
    requires decimals == 1 || decimals == 6
    ensures ScaleOf(decimals) == Pow10(decimals)
    ensures ScaleOf(decimals) == if decimals == 1 then 10 else 1000000
  {
    assert Pow10(1) == 10 && Pow10(2) == 100 && Pow10(3) == 1000;
    assert Pow10(4) == 10000 && Pow10(5) == 100000 && Pow10(6) == 1000000;
  }

  lemma SplitNumber(q: nat, p: nat)
    requires p == 10 || p == 1000000
    ensures (q / p) as real + (q % p) as real / p as real == q as real / p as real && q % p < p
  {
    assert q == q / p * p + q % p by {
      if p == 10 {
      } else {
      }
    }
  }

  /** Reading a printed number gives the rounded one. */
  lemma FixedValue(x: real, decimals: nat)
    requires decimals == 1 || decimals == 6
    ensures PlainNumber(Fixed(x, decimals)) && NumberValue(Fixed(x, decimals)) == Rounded(x, decimals)
    ensures |Fixed(x, decimals).frac| == decimals && Fixed(x, decimals).neg == (x < 0.0)
  {
    hide HalfEven;
    hide Digits;
    hide Padded;
    hide Value;
    hide Pow10;
    hide ScaleOf;
    var p := ScaleOf(decimals);
    var q := HalfEven(Abs(x) * p as real);
    ScaleIsPow10(decimals);
    SplitNumber(q, p);
    DigitsRoundTrip(q / p, 10);
    NoLeadingZero(q / p);
    PaddedValue(q % p, decimals);
  }

  /** Rounding moves a number by at most half a unit of the last printed place. */
  lemma RoundedIsClose(x: real, decimals: nat)
    requires decimals == 1 || decimals == 6
    ensures Abs(Rounded(x, decimals) - x) * 2.0 * ScaleOf(decimals) as real <= 1.0
  {
    var p := ScaleOf(decimals) as real;
    var y := Abs(x) * p;
    var q := HalfEven(y) as real;
    assert -0.5 <= q - y <= 0.5;
    if decimals == 1 {
    } else {
    }
  }

  lemma RoundedUnits(x: real, decimals: nat)
    requires decimals == 1 || decimals == 6
    ensures var units := if decimals == 1 then 10.0 else 1000000.0; var y := Abs(x) * units;
      y >= 0.0 && Rounded(x, decimals) * units == if x < 0.0 then -(HalfEven(y) as real) else HalfEven(y) as real
  {
    hide HalfEven;
  }

  lemma SignedNearest(x: real, units: real, q: int)
    requires units == 10.0 || units == 1000000.0
    requires var gap := q as real - Abs(x) * units; -0.5 <= gap <= 0.5 && (gap == 0.5 || gap == -0.5 ==> q % 2 == 0)
    ensures var n: int := if x < 0.0 then -q else q; var gap := n as real - x * units;
      -0.5 <= gap <= 0.5 && (gap == 0.5 || gap == -0.5 ==> n % 2 == 0)
  {
    var m: int := -q;
    assert x < 0.0 ==> m as real - x * units == -(q as real - Abs(x) * units);
  }

  /** A printed number is a whole number of units of its last place, the nearest one, and of two equally
      near ones the even one. */
  lemma RoundedToEven(x: real, decimals: nat) returns (n: int)
    requires decimals == 1 || decimals == 6
    ensures var units := if decimals == 1 then 10.0 else 1000000.0;
      && Rounded(x, decimals) * units == n as real
      && -0.5 <= n as real - x * units <= 0.5
      && (n as real - x * units == 0.5 || n as real - x * units == -0.5 ==> n % 2 == 0)
  {
    hide HalfEven;
    hide Rounded;
    hide Abs;
    var units := if decimals == 1 then 10.0 else 1000000.0;
    RoundedUnits(x, decimals);
    NearestEven(Abs(x) * units);
    SignedNearest(x, units, HalfEven(Abs(x) * units));
    var q: int := HalfEven(Abs(x) * units);
    n := if x < 0.0 then -q else q;
  }

  lemma NearestEven(y: real)
    requires y >= 0.0
    ensures -0.5 <= HalfEven(y) as real - y <= 0.5
    ensures HalfEven(y) as real - y == 0.5 || HalfEven(y) as real - y == -0.5 ==> HalfEven(y) % 2 == 0
  {
  }

  function IntValue(n: Number): Option<int> {
    if n.frac != "" || n.exp.Some? then None
    else Some(if n.neg then -Value(n.whole, 10) else Value(n.whole, 10))
  }

  lemma WholeValue(n: int)
    ensures PlainNumber(Whole(n)) && IntValue(Whole(n)) == Some(n)
  {
    var a := if n < 0 then -n else n;
    DigitsRoundTrip(a, 10);
    NoLeadingZero(a);
  }

  // ---- Objects ----

  /** The last member of a name, as JSON.parse keeps it. */
  function Find(ms: seq<Member>, key: string): Option<Json> {
    if ms == [] then None
    else if ms[|ms| - 1].key == key then Some(ms[|ms| - 1].value)
    else Find(ms[..|ms| - 1], key)
  }

  lemma {:induction false} FindAt(ms: seq<Member>, i: nat)
    requires i < |ms| && forall k :: i < k < |ms| ==> ms[k].key != ms[i].key
    ensures Find(ms, ms[i].key) == Some(ms[i].value)
  {
    if i < |ms| - 1 {
      assert ms[..|ms| - 1][i] == ms[i];
      FindAt(ms[..|ms| - 1], i);
    }
  }

  lemma {:induction false} FindConcat(a: seq<Member>, b: seq<Member>, key: string)
    ensures Find(a + b, key) == if Find(b, key).Some? then Find(b, key) else Find(a, key)
  {
    if b == [] {
      assert a + b == a;
    } else {
      assert (a + b)[..|a + b| - 1] == a + b[..|b| - 1];
      FindConcat(a, b[..|b| - 1], key);
    }
  }

  /** An absent number reads as zero, an absent string as empty. */
  function ReadReal(ms: seq<Member>, key: string): Option<real> {
    match Find(ms, key)
    case None => Some(0.0)
    case Some(JNum(n)) => Some(NumberValue(n))
    case Some(_) => None
  }

  function ReadInt(ms: seq<Member>, key: string): Option<int> {
    match Find(ms, key)
    case None => Some(0)
    case Some(JNum(n)) => IntValue(n)
    case Some(_) => None
  }

  function ReadString(ms: seq<Member>, key: string): Option<string> {
    match Find(ms, key)
    case None => Some("")
    case Some(JStr(s)) => Some(s)
    case Some(_) => None
  }

  /** An entity needs its id; everything else may be absent. */
  function ReadEntity(j: Json): Option<Entity> {
    if !j.JObj? || Find(j.members, "id").None? then None
    else
      var ms := j.members;
      match (ReadString(ms, "id"), ReadString(ms, "source"), ReadReal(ms, "lat"), ReadReal(ms, "lng"),
             ReadReal(ms, "altitude"), ReadReal(ms, "heading"), ReadReal(ms, "speed"), ReadString(ms, "callSign"),
             ReadString(ms, "origin"), ReadString(ms, "destination"), ReadInt(ms, "updatedAt"))
      case (Some(id), Some(source), Some(lat), Some(lng), Some(altitude), Some(heading), Some(speed), Some(callSign),
            Some(origin), Some(destination), Some(updatedAt)) =>
        Some(Entity(id, source, lat, lng, altitude, heading, speed, callSign, origin, destination, updatedAt, 0))
      case _ => None
  }

  function ReadCluster(j: Json): Option<Cluster> {
    if !j.JObj? then None
    else match (ReadReal(j.members, "lat"), ReadReal(j.members, "lng"), ReadInt(j.members, "count"))
      case (Some(lat), Some(lng), Some(count)) => Some(Cluster(lat, lng, count))
      case _ => None
  }

  function ReadEntities(items: seq<Json>): Option<seq<Entity>> {
    if items == [] then Some([])
    else match (ReadEntity(items[0]), ReadEntities(items[1..]))
      case (Some(e), Some(es)) => Some([e] + es)
      case _ => None
  }

  function ReadStrings(items: seq<Json>): Option<seq<string>> {
    if items == [] then Some([])
    else match (items[0], ReadStrings(items[1..]))
      case (JStr(s), Some(ss)) => Some([s] + ss)
      case _ => None
  }

  function ReadClusters(ms: seq<Member>): Option<map<string, Cluster>> {
    if ms == [] then Some(map[])
    else match (ReadClusters(ms[..|ms| - 1]), ReadCluster(ms[|ms| - 1].value))
      case (Some(m), Some(c)) => Some(m[ms[|ms| - 1].key := c])
      case _ => None
  }

  /** An absent list reads as empty. */
  function ItemsOf(ms: seq<Member>, key: string): Option<seq<Json>> {
    match Find(ms, key)
    case None => Some([])
    case Some(JArr(items)) => Some(items)
    case Some(_) => None
  }

  function EntriesOf(ms: seq<Member>, key: string): Option<seq<Member>> {
    match Find(ms, key)
    case None => Some([])
    case Some(JObj(members)) => Some(members)
    case Some(_) => None
  }

  function ReadDelta(j: Json): Option<Delta> {
    if !j.JObj? then None
    else
      var ms := j.members;
      match (ReadInt(ms, "seq"), ItemsOf(ms, "added"), ItemsOf(ms, "updated"), ItemsOf(ms, "removed"), EntriesOf(ms, "clusters"))
      case (Some(n), Some(added), Some(updated), Some(removed), Some(clusters)) =>
        if n < 0 then None
        else
          (match (ReadEntities(added), ReadEntities(updated), ReadStrings(removed), ReadClusters(clusters))
           case (Some(a), Some(u), Some(r), Some(c)) => Some(Delta(n, a, u, r, c))
           case _ => None)
      case _ => None
  }

  function ReadText(text: string): Option<Delta> {
    match ParseText(text)
    case None => None
    case Some(j) => ReadDelta(j)
  }

  // ---- What arrives ----

  /** An entity as the wire carries it: rounded, and without the internal version. */
  function OnWire(e: Entity): Entity {
    e.(lat := Rounded(e.lat, 6), lng := Rounded(e.lng, 6), altitude := Rounded(e.altitude, 1),
       heading := Rounded(e.heading, 1), speed := Rounded(e.speed, 1), version := 0)
  }

  /** Of an entity the wire changes nothing but the last digits of its numbers, and drops the version. */
  lemma OnWireIsClose(e: Entity)
    ensures var w := OnWire(e);
      && w.id == e.id && w.source == e.source && w.callSign == e.callSign
      && w.origin == e.origin && w.destination == e.destination && w.updatedAt == e.updatedAt && w.version == 0
      && -0.5 <= 1000000.0 * (w.lat - e.lat) <= 0.5 && -0.5 <= 1000000.0 * (w.lng - e.lng) <= 0.5
      && -0.5 <= 10.0 * (w.altitude - e.altitude) <= 0.5 && -0.5 <= 10.0 * (w.heading - e.heading) <= 0.5
      && -0.5 <= 10.0 * (w.speed - e.speed) <= 0.5
  {
    hide Rounded;
    var n := RoundedToEven(e.lat, 6);
    n := RoundedToEven(e.lng, 6);
    n := RoundedToEven(e.altitude, 1);
    n := RoundedToEven(e.heading, 1);
    n := RoundedToEven(e.speed, 1);
  }

  function AllOnWire(es: seq<Entity>): seq<Entity> {
    seq(|es|, i requires 0 <= i < |es| => OnWire(es[i]))
  }

  function ClusterOnWire(c: Cluster): Cluster {
    Cluster(Rounded(c.lat, 6), Rounded(c.lng, 6), c.count)
  }

  function DeltaOnWire(d: Delta): Delta {
    Delta(d.seqNo, AllOnWire(d.added), AllOnWire(d.updated), d.removed, map k | k in d.clusters :: ClusterOnWire(d.clusters[k]))
  }

  /** No string needs an escape. */
  predicate CleanEntity(e: Entity) {
    Clean(e.id) && Clean(e.source) && Clean(e.callSign) && Clean(e.origin) && Clean(e.destination)
  }

  ghost predicate CleanDelta(d: Delta) {
    && (forall e :: e in d.added ==> CleanEntity(e))
    && (forall e :: e in d.updated ==> CleanEntity(e))
    && (forall id :: id in d.removed ==> Clean(id))
    && (forall k :: k in d.clusters ==> Clean(k))
  }

  lemma EntityKeys(e: Entity)
    ensures var ms := EntityMembers(e);
      && |ms| == 11
      && ms[0].key == "id" && ms[1].key == "source" && ms[2].key == "lat" && ms[3].key == "lng"
      && ms[4].key == "altitude" && ms[5].key == "heading" && ms[6].key == "speed" && ms[7].key == "callSign"
      && ms[8].key == "origin" && ms[9].key == "destination" && ms[10].key == "updatedAt"
      && forall i, j :: 0 <= i < j < 11 ==> ms[i].key != ms[j].key
  {
    hide Fixed;
    hide Whole;
    var ms := EntityMembers(e);
    forall i | 0 <= i < 11 ensures KeyMark(ms[i].key) == i {
    }
  }

  /** A number that tells the eleven keys apart. */
  function KeyMark(key: string): int {
    if key == "" then -1
    else if |key| == 2 then 0
    else if |key| == 6 then if key[0] == 's' then 1 else 8
    else if |key| == 3 then if key[1] == 'a' then 2 else 3
    else if |key| == 8 then if key[0] == 'a' then 4 else 7
    else if |key| == 7 then 5
    else if |key| == 5 then 6
    else if |key| == 11 then 9
    else 10
  }

  lemma EntityFields(e: Entity)
    ensures var ms := EntityMembers(e);
      forall i :: 0 <= i < 11 ==> |ms| == 11 && Find(ms, ms[i].key) == Some(ms[i].value)
  {
    hide EntityMembers;
    var ms := EntityMembers(e);
    EntityKeys(e);
    forall i | 0 <= i < 11 ensures Find(ms, ms[i].key) == Some(ms[i].value) {
      FindAt(ms, i);
    }
  }

  lemma EntityReads(e: Entity)
    ensures ReadEntity(EntityTree(e)) == Some(OnWire(e))
  {
    hide Fixed;
    hide Whole;
    hide Find;
    hide NumberValue;
    hide IntValue;
    hide Rounded;
    var ms := EntityMembers(e);
    EntityKeys(e);
    EntityFields(e);
    FixedValue(e.lat, 6);
    FixedValue(e.lng, 6);
    FixedValue(e.altitude, 1);
    FixedValue(e.heading, 1);
    FixedValue(e.speed, 1);
    WholeValue(e.updatedAt);
    assert ms[0].value == JStr(e.id) && ms[1].value == JStr(e.source) && ms[7].value == JStr(e.callSign);
  }

  lemma ClusterReads(c: Cluster)
    ensures ReadCluster(JObj(ClusterMembers(c))) == Some(ClusterOnWire(c))
  {
    hide Fixed;
    hide Whole;
    hide Find;
    hide NumberValue;
    hide IntValue;
    hide Rounded;
    var ms := ClusterMembers(c);
    FindAt(ms, 0);
    FindAt(ms, 1);
    FindAt(ms, 2);
    FixedValue(c.lat, 6);
    FixedValue(c.lng, 6);
    WholeValue(c.count);
  }

  lemma {:induction false} EntitiesRead(es: seq<Entity>)
    ensures ReadEntities(EntityTrees(es)) == Some(AllOnWire(es))
  {
    hide ReadEntity;
    hide EntityTree;
    hide OnWire;
    if es == [] {
      assert EntityTrees(es) == [] && AllOnWire(es) == [];
    } else {
      EntityReads(es[0]);
      EntitiesRead(es[1..]);
      assert EntityTrees(es)[1..] == EntityTrees(es[1..]);
      assert AllOnWire(es) == [OnWire(es[0])] + AllOnWire(es[1..]);
    }
  }

  lemma {:induction false} StringsRead(ss: seq<string>)
    ensures ReadStrings(StringTrees(ss)) == Some(ss)
  {
    if ss != [] {
      StringsRead(ss[1..]);
      assert StringTrees(ss)[1..] == StringTrees(ss[1..]);
      assert ss == [ss[0]] + ss[1..];
    }
  }

  function ClustersAt(clusters: map<string, Cluster>, order: seq<string>): map<string, Cluster> {
    map k | k in order && k in clusters :: ClusterOnWire(clusters[k])
  }

  lemma {:induction false} ClustersRead(clusters: map<string, Cluster>, order: seq<string>)
    requires forall k :: k in order ==> k in clusters
    ensures ReadClusters(ClusterTrees(clusters, order)) == Some(ClustersAt(clusters, order))
  {
    hide ReadCluster;
    hide ClusterMembers;
    hide ClusterOnWire;
    if order == [] {
      assert ClustersAt(clusters, order) == map[];
    } else {
      var front, k := order[..|order| - 1], order[|order| - 1];
      ClustersRead(clusters, front);
      ClusterReads(clusters[k]);
      assert ClusterTrees(clusters, order)[..|order| - 1] == ClusterTrees(clusters, front);
      assert order == front + [k];
      assert ClustersAt(clusters, order) == ClustersAt(clusters, front)[k := ClusterOnWire(clusters[k])];
    }
  }

  lemma FindOpt(key: string, items: seq<Json>, other: string)
    ensures Find(OptArray(key, items), other) == if items != [] && key == other then Some(JArr(items)) else None
  {
    var ms := OptArray(key, items);
    if items != [] {
      assert ms[..0] == [];
    }
  }

  lemma FindOptObject(key: string, entries: seq<Member>, other: string)
    ensures Find(OptObject(key, entries), other) == if entries != [] && key == other then Some(JObj(entries)) else None
  {
    var ms := OptObject(key, entries);
    if entries != [] {
      assert ms[..0] == [];
    }
  }

  lemma FindOne(m: Member, key: string)
    ensures Find([m], key) == if m.key == key then Some(m.value) else None
  {
    assert [m][..0] == [];
  }

  /** Looking a name up among the members of a delta. */
  lemma DeltaFind(n: Json, a: seq<Json>, u: seq<Json>, r: seq<Json>, c: seq<Member>, key: string)
    requires key in ["seq", "added", "updated", "removed", "clusters"]
    ensures var ms := [Member("seq", n)] + (OptArray("added", a) + (OptArray("updated", u) + (OptArray("removed", r) + OptObject("clusters", c))));
      Find(ms, key) ==
        if key == "seq" then Some(n)
        else if key == "added" && a != [] then Some(JArr(a))
        else if key == "updated" && u != [] then Some(JArr(u))
        else if key == "removed" && r != [] then Some(JArr(r))
        else if key == "clusters" && c != [] then Some(JObj(c))
        else None
  {
    hide OptArray;
    hide OptObject;
    hide Find;
    var m4 := OptObject("clusters", c);
    var m3 := OptArray("removed", r) + m4;
    var m2 := OptArray("updated", u) + m3;
    var m1 := OptArray("added", a) + m2;
    FindConcat([Member("seq", n)], m1, key);
    FindConcat(OptArray("added", a), m2, key);
    FindConcat(OptArray("updated", u), m3, key);
    FindConcat(OptArray("removed", r), m4, key);
    FindOne(Member("seq", n), key);
    FindOpt("added", a, key);
    FindOpt("updated", u, key);
    FindOpt("removed", r, key);
    FindOptObject("clusters", c, key);
  }

  lemma DeltaReads(d: Delta, order: seq<string>)
    requires IsOrder(order, d.clusters) && forall k :: k in order ==> k in d.clusters
    ensures ReadDelta(DeltaTree(d, order)) == Some(DeltaOnWire(d))
  {
    hide Find;
    hide OptArray;
    hide OptObject;
    hide EntityTrees;
    hide StringTrees;
    hide ClusterTrees;
    hide Whole;
    hide IntValue;
    hide ReadEntities;
    hide ReadStrings;
    hide ReadClusters;
    hide AllOnWire;
    hide ClusterOnWire;
    var n, a, u := JNum(Whole(d.seqNo)), EntityTrees(d.added), EntityTrees(d.updated);
    var r, c := StringTrees(d.removed), ClusterTrees(d.clusters, order);
    DeltaFind(n, a, u, r, c, "seq");
    DeltaFind(n, a, u, r, c, "added");
    DeltaFind(n, a, u, r, c, "updated");
    DeltaFind(n, a, u, r, c, "removed");
    DeltaFind(n, a, u, r, c, "clusters");
    WholeValue(d.seqNo);
    EntitiesRead(d.added);
    EntitiesRead(d.updated);
    StringsRead(d.removed);
    ClustersRead(d.clusters, order);
    AllClusters(d.clusters, order);
  }

  lemma AllClusters(clusters: map<string, Cluster>, order: seq<string>)
    requires IsOrder(order, clusters)
    ensures ClustersAt(clusters, order) == map k | k in clusters :: ClusterOnWire(clusters[k])
  {
    assert forall k :: k in clusters ==> k in Elements(order);
  }

  // ---- The text is well-formed ----

  lemma FixedPlain(x: real, decimals: nat)
    requires decimals == 1 || decimals == 6
    ensures PlainNumber(Fixed(x, decimals))
  {
    FixedValue(x, decimals);
  }

  lemma EntityValues(e: Entity, i: nat)
    requires CleanEntity(e) && i < 11
    ensures |EntityMembers(e)| == 11 && Printable(EntityMembers(e)[i].value)
  {
    hide Clean;
    hide Fixed;
    hide Whole;
    hide PlainNumber;
    FixedPlain(e.lat, 6);
    FixedPlain(e.lng, 6);
    FixedPlain(e.altitude, 1);
    FixedPlain(e.heading, 1);
    FixedPlain(e.speed, 1);
    WholeValue(e.updatedAt);
  }

  lemma EntityPrintable(e: Entity)
    requires CleanEntity(e)
    ensures Printable(EntityTree(e))
  {
    hide Clean;
    hide EntityMembers;
    hide CleanEntity;
    EntityKeysClean(e);
    EntityKeys(e);
    forall i | 0 <= i < 11 ensures |EntityMembers(e)| == 11 && Printable(EntityMembers(e)[i].value) {
      EntityValues(e, i);
    }
  }

  lemma KeysClean()
    ensures Clean("id") && Clean("source") && Clean("lat") && Clean("lng") && Clean("altitude") && Clean("heading")
    ensures Clean("speed") && Clean("callSign") && Clean("origin") && Clean("destination") && Clean("updatedAt")
  {
  }

  lemma EntityKeysClean(e: Entity)
    ensures forall m :: m in EntityMembers(e) ==> Clean(m.key)
  {
    hide Clean;
    hide EntityMembers;
    KeysClean();
    EntityKeys(e);
    var ms := EntityMembers(e);
    forall m | m in ms ensures Clean(m.key) {
      var i :| 0 <= i < |ms| && ms[i] == m;
      assert i == 0 || i == 1 || i == 2 || i == 3 || i == 4 || i == 5 || i == 6 || i == 7 || i == 8 || i == 9 || i == 10;
    }
  }

  lemma ClusterPrintable(c: Cluster)
    ensures Printable(JObj(ClusterMembers(c)))
  {
    hide Fixed;
    hide Whole;
    hide PlainNumber;
    FixedPlain(c.lat, 6);
    FixedPlain(c.lng, 6);
    WholeValue(c.count);
  }

  lemma OptPrintable(key: string, items: seq<Json>, entries: seq<Member>)
    requires Clean(key) && (forall v :: v in items ==> Printable(v))
    requires forall m :: m in entries ==> Clean(m.key) && Printable(m.value)
    ensures forall m :: m in OptArray(key, items) ==> Clean(m.key) && Printable(m.value)
    ensures forall m :: m in OptObject(key, entries) ==> Clean(m.key) && Printable(m.value)
  {
    hide Clean;
  }

  lemma TreesPrintable(es: seq<Entity>)
    requires forall e :: e in es ==> CleanEntity(e)
    ensures forall v :: v in EntityTrees(es) ==> Printable(v)
  {
    hide EntityTree;
    hide Printable;
    forall e | e in es ensures Printable(EntityTree(e)) {
      EntityPrintable(e);
    }
  }

  lemma ClusterTreesPrintable(clusters: map<string, Cluster>, order: seq<string>)
    requires forall k :: k in order ==> k in clusters && Clean(k)
    ensures forall m :: m in ClusterTrees(clusters, order) ==> Clean(m.key) && Printable(m.value)
  {
    hide Printable;
    hide Clean;
    hide ClusterMembers;
    forall k | k in order ensures Printable(JObj(ClusterMembers(clusters[k]))) {
      ClusterPrintable(clusters[k]);
    }
  }

  lemma DeltaPrintable(d: Delta, order: seq<string>)
    requires CleanDelta(d) && IsOrder(order, d.clusters) && forall k :: k in order ==> k in d.clusters
    ensures Printable(DeltaTree(d, order))
  {
    hide EntityTrees;
    hide ClusterTrees;
    hide OptArray;
    hide OptObject;
    hide Whole;
    hide PlainNumber;
    WholeValue(d.seqNo);
    TreesPrintable(d.added);
    TreesPrintable(d.updated);
    ClusterTreesPrintable(d.clusters, order);
    OptPrintable("added", EntityTrees(d.added), []);
    OptPrintable("updated", EntityTrees(d.updated), []);
    OptPrintable("removed", StringTrees(d.removed), []);
    OptPrintable("clusters", [], ClusterTrees(d.clusters, order));
  }

  /** The text of a delta, in whatever order its clusters came out. */
  ghost predicate IsText(d: Delta, text: string) {
    exists order :: IsOrder(order, d.clusters) && (forall k :: k in order ==> k in d.clusters)
                    && text == PutValue(DeltaTree(d, order), "")
  }

  /** Round trip: the printed text is a JSON text, and reading it gives the delta at the printed
      precision, whatever the order of the cluster map. */
  lemma WireRoundTrip(d: Delta, text: string)
    requires CleanDelta(d) && IsText(d, text)
    ensures ParseText(text).Some? && ReadText(text) == Some(DeltaOnWire(d))
  {
    var order :| IsOrder(order, d.clusters) && (forall k :: k in order ==> k in d.clusters)
                 && text == PutValue(DeltaTree(d, order), "");
    DeltaPrintable(d, order);
    TextRoundTrip(DeltaTree(d, order));
    DeltaReads(d, order);
  }
}
