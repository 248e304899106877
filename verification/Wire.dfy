/** The wire form of a delta: the hand-written printer writes the JSON text of a value tree. */
module Wire {
  import opened Entities
  import opened Numerals
  import opened Json

  // ---- Numbers at the printed precision ----

  function HalfEven(x: real): nat
    requires x >= 0.0
  {
    var f := x.Floor;
    var rest := x - f as real;
    if rest < 0.5 || (rest == 0.5 && f % 2 == 0) then f else f + 1
  }

  /** Ten to the number of decimals, for the two precisions in use. */
  function ScaleOf(decimals: nat): nat {
    if decimals == 1 then 10 else 1000000
  }

  function Padded(n: nat, width: nat): string {
    if width == 0 then "" else Padded(n / 10, width - 1) + [DigitChar(n % 10)]
  }

  /** strconv.FormatFloat with format 'f' and a fixed number of decimals. */
  function Fixed(x: real, decimals: nat): Number {
    var q := HalfEven(Abs(x) * ScaleOf(decimals) as real);
    Number(x < 0.0, Digits(q / ScaleOf(decimals), 10), Padded(q % ScaleOf(decimals), decimals), None)
  }

  function Whole(n: int): Number {
    Number(n < 0, Digits(if n < 0 then -n else n, 10), "", None)
  }

  // ---- The value tree of a delta ----

  function Num(key: string, x: real, decimals: nat): Member {
    Member(key, JNum(Fixed(x, decimals)))
  }

  function EntityMembers(e: Entity): seq<Member> {
    [ Member("id", JStr(e.id)), Member("source", JStr(e.source)),
      Num("lat", e.lat, 6), Num("lng", e.lng, 6),
      Num("altitude", e.altitude, 1), Num("heading", e.heading, 1), Num("speed", e.speed, 1),
      Member("callSign", JStr(e.callSign)), Member("origin", JStr(e.origin)), Member("destination", JStr(e.destination)),
      Member("updatedAt", JNum(Whole(e.updatedAt))) ]
  }

  function EntityTree(e: Entity): Json {
    JObj(EntityMembers(e))
  }

  function ClusterMembers(c: Cluster): seq<Member> {
    [ Num("lat", c.lat, 6), Num("lng", c.lng, 6), Member("count", JNum(Whole(c.count))) ]
  }

  function EntityTrees(es: seq<Entity>): seq<Json> {
    seq(|es|, i requires 0 <= i < |es| => EntityTree(es[i]))
  }

  function StringTrees(ss: seq<string>): seq<Json> {
    seq(|ss|, i requires 0 <= i < |ss| => JStr(ss[i]))
  }

  function ClusterTrees(clusters: map<string, Cluster>, order: seq<string>): seq<Member>
    requires forall k :: k in order ==> k in clusters
  {
    seq(|order|, i requires 0 <= i < |order| => Member(order[i], JObj(ClusterMembers(clusters[order[i]]))))
  }

  function OptArray(key: string, items: seq<Json>): seq<Member> {
    if items == [] then [] else [Member(key, JArr(items))]
  }

  function OptObject(key: string, members: seq<Member>): seq<Member> {
    if members == [] then [] else [Member(key, JObj(members))]
  }

  /** An order in which the cluster map may be ranged over. */
  ghost predicate IsOrder(order: seq<string>, clusters: map<string, Cluster>) {
    NoDuplicates(order) && Elements(order) == clusters.Keys
  }

  /** Absent lists and an empty cluster map have no member. */
  function DeltaMembers(d: Delta, order: seq<string>): seq<Member>
    requires forall k :: k in order ==> k in d.clusters
  {
    [Member("seq", JNum(Whole(d.seqNo)))]
    + (OptArray("added", EntityTrees(d.added))
    + (OptArray("updated", EntityTrees(d.updated))
    + (OptArray("removed", StringTrees(d.removed))
    + OptObject("clusters", ClusterTrees(d.clusters, order)))))
  }

  function DeltaTree(d: Delta, order: seq<string>): Json
    requires forall k :: k in order ==> k in d.clusters
  {
    JObj(DeltaMembers(d, order))
  }

  // ---- Text that follows a point of the output ----

  function KeyText(key: string): string {
    "\"" + key + "\":"
  }

  function NumText(n: Number): string {
    PutNumber(n, "")
  }

  /** What follows the first i members of an object. */
  function MembersTail(ms: seq<Member>, i: nat, k: string): string
    requires i <= |ms|
  {
    if i == |ms| then "}" + k else (if i > 0 then "," else "") + PutMembers(ms[i..], k)
  }

  /** What follows the first i elements of an array. */
  function ItemsTail(items: seq<Json>, i: nat, k: string): string
    requires i <= |items|
  {
    if i == |items| then "]" + k else (if i > 0 then "," else "") + PutItems(items[i..], k)
  }

  lemma Assoc(a: string, b: string, c: string)
    ensures a + (b + c) == (a + b) + c
  {
  }

  lemma MembersNext(ms: seq<Member>, i: nat, k: string)
    requires i < |ms|
    ensures MembersTail(ms, i, k) ==
      (if i > 0 then "," else "") + (KeyText(ms[i].key) + PutValue(ms[i].value, MembersTail(ms, i + 1, k)))
  {
    hide PutValue;
    var v := PutValue(ms[i].value, MembersTail(ms, i + 1, k));
    assert ms[i..][1..] == ms[i + 1..];
    assert PutChars(ms[i].key, ":" + v) == KeyText(ms[i].key) + v;
  }

  lemma ItemsNext(items: seq<Json>, i: nat, k: string)
    requires i < |items|
    ensures ItemsTail(items, i, k) == (if i > 0 then "," else "") + PutValue(items[i], ItemsTail(items, i + 1, k))
  {
    hide PutValue;
    assert items[i..][1..] == items[i + 1..];
  }

  lemma NumberText(n: Number, k: string)
    ensures PutNumber(n, k) == NumText(n) + k
  {
    var sign := if n.neg then "-" else "";
    if n.frac == "" {
      assert n.whole + "" == n.whole;
      Assoc(sign, n.whole, k);
    } else {
      assert n.frac + "" == n.frac;
      Assoc(".", n.frac, k);
      Assoc(n.whole, "." + n.frac, k);
      Assoc(sign, n.whole + ("." + n.frac), k);
    }
  }

  /** What is still to be written before member i of an object; `quoted` when the value written last
      was a string, whose closing quote comes with the next fragment. */
  function Pending(ms: seq<Member>, i: nat, quoted: bool, k: string): string
    requires i <= |ms|
  {
    if i == 0 then "{" + MembersTail(ms, 0, k) else (if quoted then "\"" else "") + MembersTail(ms, i, k)
  }

  /** The fragment that opens member i up to its value. */
  function Fragment(ms: seq<Member>, i: nat, quoted: bool): string
    requires i < |ms|
  {
    (if i == 0 then "{" else if quoted then "\"," else ",") + KeyText(ms[i].key)
  }

  lemma PendingNext(ms: seq<Member>, i: nat, quoted: bool, k: string)
    requires i < |ms|
    ensures Pending(ms, i, quoted, k) == Fragment(ms, i, quoted) + PutValue(ms[i].value, MembersTail(ms, i + 1, k))
  {
    hide PutValue;
    hide KeyText;
    hide MembersTail;
    MembersNext(ms, i, k);
    var v := PutValue(ms[i].value, MembersTail(ms, i + 1, k));
    var kt := KeyText(ms[i].key);
    if i == 0 {
      assert "" + (kt + v) == kt + v;
      Assoc("{", kt, v);
    } else {
      Assoc(",", kt, v);
      assert "" + ("," + (kt + v)) == "," + (kt + v);
      Assoc("\"", ",", kt + v);
      assert "\"" + "," == "\",";
      Assoc("\",", kt, v);
    }
  }

  // ---- The printer ----

  /** Writes a fragment and a string value. */
  method WriteString(sb: string, fragment: string, value: string, ghost ms: seq<Member>, ghost i: nat, ghost quoted: bool, ghost k: string)
    returns (r: string)
    requires i < |ms| && ms[i].value == JStr(value) && fragment == Fragment(ms, i, quoted) + "\""
    ensures r + Pending(ms, i + 1, true, k) == sb + Pending(ms, i, quoted, k)
  {
    hide Fragment;
    hide Pending;
    hide MembersTail;
    r := sb + fragment + value;
    PendingNext(ms, i, quoted, k);
    PendingAfter(ms, i, k);
    var f, next := Fragment(ms, i, quoted), MembersTail(ms, i + 1, k);
    assert PutValue(JStr(value), next) == "\"" + (value + ("\"" + next));
    Assoc(f, "\"", value + ("\"" + next));
    Assoc(sb, fragment, value + ("\"" + next));
    Assoc(sb + fragment, value, "\"" + next);
  }

  lemma PendingAfter(ms: seq<Member>, i: nat, k: string)
    requires i < |ms|
    ensures Pending(ms, i + 1, true, k) == "\"" + MembersTail(ms, i + 1, k)
    ensures Pending(ms, i + 1, false, k) == MembersTail(ms, i + 1, k)
  {
    hide MembersTail;
    assert "" + MembersTail(ms, i + 1, k) == MembersTail(ms, i + 1, k);
  }

  /** Writes a fragment and a number. */
  method WriteNumber(sb: string, fragment: string, n: Number, ghost ms: seq<Member>, ghost i: nat, ghost quoted: bool, ghost k: string)
    returns (r: string)
    requires i < |ms| && ms[i].value == JNum(n) && fragment == Fragment(ms, i, quoted)
    ensures r + Pending(ms, i + 1, false, k) == sb + Pending(ms, i, quoted, k)
  {
    hide Fragment;
    hide Pending;
    hide MembersTail;
    hide PutNumber;
    r := sb + fragment + NumText(n);
    PendingNext(ms, i, quoted, k);
    PendingAfter(ms, i, k);
    var next := MembersTail(ms, i + 1, k);
    NumberText(n, next);
    Assoc(sb, fragment, NumText(n) + next);
    Assoc(sb + fragment, NumText(n), next);
  }

  /** The literals of the source are the fragments of the members. */
  lemma TextFragments(e: Entity)
    ensures var ms := EntityMembers(e);
      && |ms| == 11
      && Fragment(ms, 0, false) + "\"" == "{\"id\":\"" && ms[0].value == JStr(e.id)
      && Fragment(ms, 1, true) + "\"" == "\",\"source\":\"" && ms[1].value == JStr(e.source)
  {
    hide Fixed;
    hide Whole;
  }

  lemma PositionFragments(e: Entity)
    ensures var ms := EntityMembers(e);
      && |ms| == 11
      && Fragment(ms, 2, true) == "\",\"lat\":" && ms[2].value == JNum(Fixed(e.lat, 6))
      && Fragment(ms, 3, false) == ",\"lng\":" && ms[3].value == JNum(Fixed(e.lng, 6))
  {
    hide Fixed;
    hide Whole;
  }

  lemma MotionFragments(e: Entity)
    ensures var ms := EntityMembers(e);
      && |ms| == 11
      && Fragment(ms, 4, false) == ",\"altitude\":" && ms[4].value == JNum(Fixed(e.altitude, 1))
      && Fragment(ms, 5, false) == ",\"heading\":" && ms[5].value == JNum(Fixed(e.heading, 1))
      && Fragment(ms, 6, false) == ",\"speed\":" && ms[6].value == JNum(Fixed(e.speed, 1))
  {
    hide Fixed;
    hide Whole;
  }

  lemma RouteFragments(e: Entity)
    ensures var ms := EntityMembers(e);
      && |ms| == 11
      && Fragment(ms, 7, false) + "\"" == ",\"callSign\":\"" && ms[7].value == JStr(e.callSign)
      && Fragment(ms, 8, true) + "\"" == "\",\"origin\":\"" && ms[8].value == JStr(e.origin)
  {
    hide Fixed;
    hide Whole;
  }

  lemma LastFragments(e: Entity)
    ensures var ms := EntityMembers(e);
      && |ms| == 11
      && Fragment(ms, 9, true) + "\"" == "\",\"destination\":\"" && ms[9].value == JStr(e.destination)
      && Fragment(ms, 10, true) == "\",\"updatedAt\":" && ms[10].value == JNum(Whole(e.updatedAt))
  {
    hide Fixed;
    hide Whole;
  }

  /** One entity, with the key fragments the source has. */
  method WriteEntityFast(sb: string, e: Entity, ghost k: string) returns (r: string)
    ensures r + k == sb + PutValue(EntityTree(e), k)
  {
    hide Pending;
    hide MembersTail;
    hide Fixed;
    hide Whole;
    hide EntityMembers;
    hide KeyText;
    hide Fragment;
    ghost var ms := EntityMembers(e);
    TextFragments(e);
    PositionFragments(e);
    MotionFragments(e);
    RouteFragments(e);
    LastFragments(e);
    r := WriteString(sb, "{\"id\":\"", e.id, ms, 0, false, k);
    r := WriteString(r, "\",\"source\":\"", e.source, ms, 1, true, k);
    r := WriteNumber(r, "\",\"lat\":", Fixed(e.lat, 6), ms, 2, true, k);
    r := WriteNumber(r, ",\"lng\":", Fixed(e.lng, 6), ms, 3, false, k);
    r := WriteNumber(r, ",\"altitude\":", Fixed(e.altitude, 1), ms, 4, false, k);
    r := WriteNumber(r, ",\"heading\":", Fixed(e.heading, 1), ms, 5, false, k);
    r := WriteNumber(r, ",\"speed\":", Fixed(e.speed, 1), ms, 6, false, k);
    r := WriteString(r, ",\"callSign\":\"", e.callSign, ms, 7, false, k);
    r := WriteString(r, "\",\"origin\":\"", e.origin, ms, 8, true, k);
    r := WriteString(r, "\",\"destination\":\"", e.destination, ms, 9, true, k);
    r := WriteNumber(r, "\",\"updatedAt\":", Whole(e.updatedAt), ms, 10, true, k);
    ObjectText(ms, k);
    Assoc(r, "}", k);
    r := r + "}";
  }

  lemma ObjectText(ms: seq<Member>, k: string)
    requires ms != []
    ensures Pending(ms, 0, false, k) == PutValue(JObj(ms), k)
    ensures Pending(ms, |ms|, false, k) == "}" + k
  {
    hide PutMembers;
    assert ms[0..] == ms;
    assert "" + PutMembers(ms, k) == PutMembers(ms, k);
    assert "" + ("}" + k) == "}" + k;
  }

  lemma ClusterFragments(c: Cluster)
    ensures var ms := ClusterMembers(c);
      && |ms| == 3
      && Fragment(ms, 0, false) == "{\"lat\":" && ms[0].value == JNum(Fixed(c.lat, 6))
      && Fragment(ms, 1, false) == ",\"lng\":" && ms[1].value == JNum(Fixed(c.lng, 6))
      && Fragment(ms, 2, false) == ",\"count\":" && ms[2].value == JNum(Whole(c.count))
  {
    hide Fixed;
    hide Whole;
  }

  /** One cluster entry after its key. */
  method WriteCluster(sb: string, c: Cluster, ghost k: string) returns (r: string)
    ensures r + k == sb + PutValue(JObj(ClusterMembers(c)), k)
  {
    hide Pending;
    hide MembersTail;
    hide Fixed;
    hide Whole;
    hide ClusterMembers;
    hide KeyText;
    hide Fragment;
    ghost var ms := ClusterMembers(c);
    ClusterFragments(c);
    r := WriteNumber(sb, "{\"lat\":", Fixed(c.lat, 6), ms, 0, false, k);
    r := WriteNumber(r, ",\"lng\":", Fixed(c.lng, 6), ms, 1, false, k);
    r := WriteNumber(r, ",\"count\":", Whole(c.count), ms, 2, false, k);
    ObjectText(ms, k);
    Assoc(r, "}", k);
    r := r + "}";
  }

  /** What follows the opening bracket of an optional member, before the rest `next` of the delta. */
  function ArrayPart(key: string, items: seq<Json>, next: string): string {
    if items == [] then next else "," + (KeyText(key) + ("[" + ItemsTail(items, 0, next)))
  }

  function ObjectPart(key: string, ms: seq<Member>, next: string): string {
    if ms == [] then next else "," + (KeyText(key) + ("{" + MembersTail(ms, 0, next)))
  }

  /** A comma before every element but the first. */
  method Comma(sb: string, i: nat, ghost next: string) returns (r: string)
    ensures r + next == sb + ((if i > 0 then "," else "") + next)
  {
    r := sb;
    if i > 0 {
      Assoc(sb, ",", next);
      r := sb + ",";
    } else {
      assert "" + next == next;
    }
  }

  /** The added and the updated list. */
  method WriteEntities(sb: string, literal: string, es: seq<Entity>, ghost key: string, ghost next: string) returns (r: string)
    requires literal == "," + KeyText(key) + "["
    ensures r + next == sb + ArrayPart(key, EntityTrees(es), next)
  {
    hide PutValue;
    hide KeyText;
    hide ItemsTail;
    hide EntityTree;
    r := sb;
    if |es| > 0 {
      ghost var items := EntityTrees(es);
      r := r + literal;
      PartOpens(sb, literal, key, "[", ItemsTail(items, 0, next));
      for i := 0 to |es|
        invariant r + ItemsTail(items, i, next) == sb + ArrayPart(key, items, next)
      {
        ItemsNext(items, i, next);
        ghost var after := ItemsTail(items, i + 1, next);
        r := Comma(r, i, PutValue(items[i], after));
        r := WriteEntityFast(r, es[i], after);
      }
      ItemsEnd(items, next);
      Assoc(r, "]", next);
      r := r + "]";
    }
  }

  lemma ItemsEnd(items: seq<Json>, k: string)
    ensures ItemsTail(items, |items|, k) == "]" + k
  {
  }

  lemma MembersEnd(ms: seq<Member>, k: string)
    ensures MembersTail(ms, |ms|, k) == "}" + k
  {
  }

  lemma PartOpens(sb: string, literal: string, key: string, bracket: string, tail: string)
    requires literal == "," + KeyText(key) + bracket
    ensures (sb + literal) + tail == sb + ("," + (KeyText(key) + (bracket + tail)))
  {
    hide KeyText;
    Assoc(sb, literal, tail);
    Assoc("," + KeyText(key), bracket, tail);
    Assoc(",", KeyText(key), bracket + tail);
  }

  /** The removed list. */
  method WriteRemoved(sb: string, removed: seq<string>, ghost next: string) returns (r: string)
    ensures r + next == sb + ArrayPart("removed", StringTrees(removed), next)
  {
    hide ItemsTail;
    r := sb;
    if |removed| > 0 {
      ghost var items := StringTrees(removed);
      r := r + ",\"removed\":[";
      assert ",\"removed\":[" == "," + KeyText("removed") + "[";
      hide KeyText;
      PartOpens(sb, ",\"removed\":[", "removed", "[", ItemsTail(items, 0, next));
      for i := 0 to |removed|
        invariant r + ItemsTail(items, i, next) == sb + ArrayPart("removed", items, next)
      {
        ItemsNext(items, i, next);
        ghost var after := ItemsTail(items, i + 1, next);
        r := Comma(r, i, PutValue(items[i], after));
        Quoted(r, removed[i], after);
        r := r + "\"" + removed[i] + "\"";
      }
      ItemsEnd(items, next);
      Assoc(r, "]", next);
      r := r + "]";
    }
  }

  lemma Quoted(sb: string, s: string, next: string)
    ensures (sb + "\"" + s + "\"") + next == sb + PutChars(s, next)
  {
    Assoc(sb + "\"" + s, "\"", next);
    Assoc(sb + "\"", s, "\"" + next);
    Assoc(sb, "\"", s + ("\"" + next));
  }

  /** The cluster map, in the order in which it happens to be ranged over. */
  method WriteClusters(sb: string, clusters: map<string, Cluster>, order: seq<string>, ghost next: string) returns (r: string)
    requires IsOrder(order, clusters) && forall k :: k in order ==> k in clusters
    ensures r + next == sb + ObjectPart("clusters", ClusterTrees(clusters, order), next)
  {
    hide MembersTail;
    hide PutValue;
    hide ClusterMembers;
    r := sb;
    if |order| > 0 {
      ghost var ms := ClusterTrees(clusters, order);
      r := r + ",\"clusters\":{";
      assert ",\"clusters\":{" == "," + KeyText("clusters") + "{";
      PartOpens(sb, ",\"clusters\":{", "clusters", "{", MembersTail(ms, 0, next));
      for i := 0 to |order|
        invariant r + MembersTail(ms, i, next) == sb + ObjectPart("clusters", ms, next)
      {
        MembersNext(ms, i, next);
        ghost var after := MembersTail(ms, i + 1, next);
        r := Comma(r, i, KeyText(order[i]) + PutValue(ms[i].value, after));
        QuotedKey(r, order[i], PutValue(ms[i].value, after));
        r := WriteCluster(r + "\"" + order[i] + "\":", clusters[order[i]], after);
      }
      MembersEnd(ms, next);
      Assoc(r, "}", next);
      r := r + "}";
    }
  }

  lemma QuotedKey(sb: string, key: string, tail: string)
    ensures (sb + "\"" + key + "\":") + tail == sb + (KeyText(key) + tail)
  {
    assert sb + "\"" + key + "\":" == sb + KeyText(key);
    hide KeyText;
    Assoc(sb, KeyText(key), tail);
  }

  /** What follows the members written so far, when `ms` are still to come. */
  function Rest(ms: seq<Member>, k: string): string {
    if ms == [] then "}" + k else "," + PutMembers(ms, k)
  }

  lemma MembersCons(m: Member, ms: seq<Member>, k: string)
    ensures PutMembers([m] + ms, k) == KeyText(m.key) + PutValue(m.value, Rest(ms, k))
  {
    hide PutValue;
    assert ([m] + ms)[1..] == ms;
    var v := PutValue(m.value, Rest(ms, k));
    assert PutChars(m.key, ":" + v) == KeyText(m.key) + v;
  }

  lemma RestArray(key: string, items: seq<Json>, ms: seq<Member>, k: string)
    ensures Rest(OptArray(key, items) + ms, k) == ArrayPart(key, items, Rest(ms, k))
  {
    hide PutItems;
    hide PutMembers;
    hide KeyText;
    if items == [] {
      assert [] + ms == ms;
    } else {
      MembersCons(Member(key, JArr(items)), ms, k);
      assert items[0..] == items;
      assert "" + PutItems(items, Rest(ms, k)) == PutItems(items, Rest(ms, k));
    }
  }

  lemma RestObject(key: string, entries: seq<Member>, k: string)
    ensures Rest(OptObject(key, entries), k) == ObjectPart(key, entries, "}" + k)
  {
    hide PutMembers;
    hide KeyText;
    if entries != [] {
      var m := Member(key, JObj(entries));
      MembersCons(m, [], k);
      assert [m] + [] == [m];
      assert entries[0..] == entries;
      assert "" + PutMembers(entries, "}" + k) == PutMembers(entries, "}" + k);
    }
  }

  /** The four optional parts in the order the printer writes them. */
  lemma DeltaText(d: Delta, order: seq<string>)
    requires forall x :: x in order ==> x in d.clusters
    ensures PutValue(DeltaTree(d, order), "") ==
      "{" + (KeyText("seq") + PutValue(JNum(Whole(d.seqNo)),
        ArrayPart("added", EntityTrees(d.added),
        ArrayPart("updated", EntityTrees(d.updated),
        ArrayPart("removed", StringTrees(d.removed),
        ObjectPart("clusters", ClusterTrees(d.clusters, order), "}" + ""))))))
  {
    hide PutMembers;
    hide KeyText;
    hide EntityTrees;
    hide StringTrees;
    hide ClusterTrees;
    hide OptArray;
    hide OptObject;
    hide ArrayPart;
    hide ObjectPart;
    hide Rest;
    hide Whole;
    hide PutNumber;
    var m4 := OptObject("clusters", ClusterTrees(d.clusters, order));
    var m3 := OptArray("removed", StringTrees(d.removed)) + m4;
    var m2 := OptArray("updated", EntityTrees(d.updated)) + m3;
    var m1 := OptArray("added", EntityTrees(d.added)) + m2;
    MembersCons(Member("seq", JNum(Whole(d.seqNo))), m1, "");
    RestArray("added", EntityTrees(d.added), m2, "");
    RestArray("updated", EntityTrees(d.updated), m3, "");
    RestArray("removed", StringTrees(d.removed), m4, "");
    RestObject("clusters", ClusterTrees(d.clusters, order), "");
  }

  /** Prints a delta: the JSON text of its value tree, in one pass. */
  method MarshalFast(d: Delta, order: seq<string>) returns (text: string)
    requires IsOrder(order, d.clusters) && forall k :: k in order ==> k in d.clusters
    ensures text == PutValue(DeltaTree(d, order), "")
  {
    hide PutValue;
    hide KeyText;
    hide EntityTrees;
    hide StringTrees;
    hide ClusterTrees;
    hide ArrayPart;
    hide ObjectPart;
    hide Whole;
    ghost var p4 := ObjectPart("clusters", ClusterTrees(d.clusters, order), "}" + "");
    ghost var p3 := ArrayPart("removed", StringTrees(d.removed), p4);
    ghost var p2 := ArrayPart("updated", EntityTrees(d.updated), p3);
    ghost var p1 := ArrayPart("added", EntityTrees(d.added), p2);
    DeltaText(d, order);
    DeltaHead(d.seqNo, p1);
    text := "{\"seq\":" + Digits(d.seqNo, 10);
    text := WriteEntities(text, ",\"added\":[", d.added, "added", p2);
    text := WriteEntities(text, ",\"updated\":[", d.updated, "updated", p3);
    text := WriteRemoved(text, d.removed, p4);
    text := WriteClusters(text, d.clusters, order, "}" + "");
    text := text + "}";
  }

  lemma DeltaHead(seqNo: nat, tail: string)
    ensures "{" + (KeyText("seq") + PutValue(JNum(Whole(seqNo)), tail)) == ("{\"seq\":" + Digits(seqNo, 10)) + tail
    ensures "," + KeyText("added") + "[" == ",\"added\":[" && "," + KeyText("updated") + "[" == ",\"updated\":["
  {
    hide Digits;
    var n := Whole(seqNo);
    assert PutValue(JNum(n), tail) == Digits(seqNo, 10) + tail by {
      assert "" + (n.whole + tail) == n.whole + tail;
    }
    var kt := KeyText("seq");
    Assoc("{", kt, Digits(seqNo, 10) + tail);
    Assoc("{" + kt, Digits(seqNo, 10), tail);
    assert "{" + kt == "{\"seq\":";
  }
}
