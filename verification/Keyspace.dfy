/** db.c: the databases, each a map of keys to values and a map of keys to expire times. */
module Keyspace {
  import opened Bytes
  import opened Decimal

  datatype Value = Str(bytes: Bytestring)
                 | List(items: seq<Bytestring>)
                 | Set(members: set<Bytestring>)
                 | Hash(fields: map<Bytestring, Bytestring>)

  datatype Db = Db(dict: map<Bytestring, Value>, expires: map<Bytestring, int>)

  type World = seq<Db>

  const EMPTY_DB := Db(map[], map[])

  predicate NotEmpty(v: Value)
  {
    match v
    case Str(_) => true
    case List(items) => items != []
    case Set(members) => members != {}
    case Hash(fields) => fields != map[]
  }

  /** Only existing keys have expire times, which are 64-bit; no list, set or hash is empty. */
  predicate DbOk(db: Db)
  {
    && (forall k :: k in db.expires ==> k in db.dict && Int64(db.expires[k]))
    && (forall k :: k in db.dict ==> NotEmpty(db.dict[k]))
  }

  predicate WorldOk(w: World) { forall i :: 0 <= i < |w| ==> DbOk(w[i]) }

  function EmptyWorld(n: nat): World { seq(n, i => EMPTY_DB) }

  /** getExpire: -1 stands for none. */
  function GetExpire(db: Db, key: Bytestring): int
  {
    if key in db.expires then db.expires[key] else -1
  }

  function DbDelete(db: Db, key: Bytestring): Db
  {
    Db(db.dict - {key}, db.expires - {key})
  }

  /** setKey: the new value has no expire time. */
  function SetKey(db: Db, key: Bytestring, val: Value): Db
  {
    Db(db.dict[key := val], db.expires - {key})
  }

  function SetExpire(db: Db, key: Bytestring, when: int): Db
  {
    db.(expires := db.expires[key := when])
  }

  /** A changed or added value keeps the expire time of its key. */
  function Overwrite(db: Db, key: Bytestring, val: Value): Db
  {
    db.(dict := db.dict[key := val])
  }

  // ----- lazy expiry -----

  /** expireIfNeeded, where it may delete: on a master that is not loading. */
  predicate Expired(db: Db, key: Bytestring, now: int)
  {
    0 <= GetExpire(db, key) < now
  }

  /** A key named together with its database. */
  datatype Target = Target(db: nat, key: Bytestring)

  /** The databases, and the keys that lookups have expired so far, in order. */
  datatype Lazy = Lazy(w: World, gone: seq<Target>)

  /** One lookup. */
  function Touch(s: Lazy, d: nat, key: Bytestring, now: int): (t: Lazy)
    requires d < |s.w|
    ensures |t.w| == |s.w|
  {
    if Expired(s.w[d], key, now) then Lazy(s.w[d := DbDelete(s.w[d], key)], s.gone + [Target(d, key)]) else s
  }
}
