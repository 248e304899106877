/** The records that travel from the feeds to the browser. */
module Entities {
  datatype Entity = Entity(
    id: string,
    source: string,
    lat: real,
    lng: real,
    altitude: real,
    heading: real,
    speed: real,
    callSign: string,
    origin: string,
    destination: string,
    updatedAt: int,
    version: nat
  )

  datatype Viewport = Viewport(north: real, south: real, east: real, west: real, zoom: int) {
    predicate IsGlobal() {
      north >= 90.0 && south <= -90.0 && east >= 180.0 && west <= -180.0
    }
  }

  datatype Cluster = Cluster(lat: real, lng: real, count: int)

  datatype Delta = Delta(
    seqNo: nat,
    added: seq<Entity>,
    updated: seq<Entity>,
    removed: seq<string>,
    clusters: map<string, Cluster>
  )

  datatype Option<+T> = None | Some(value: T)

  datatype Result<+T> = Ok(value: T) | Err

  /** Reading a Go map: a missing key yields the zero value. */
  function Lookup<K, V>(m: map<K, V>, k: K, zero: V): V {
    if k in m then m[k] else zero
  }

  ghost predicate NoDuplicates<T>(s: seq<T>) {
    forall i, j :: 0 <= i < j < |s| ==> s[i] != s[j]
  }

  function Elements<T>(s: seq<T>): set<T> {
    set x | x in s
  }

  /** The external ids occurring in a list of entities. */
  function Ids(es: seq<Entity>): set<string> {
    set e | e in es :: e.id
  }

  ghost predicate DistinctIds(es: seq<Entity>) {
    forall i, j :: 0 <= i < j < |es| ==> es[i].id != es[j].id
  }
}
