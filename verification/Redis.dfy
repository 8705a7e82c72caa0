/** The Redis commands the services rely on, over one keyspace with a clock.

An entry whose deadline has passed stays in the map but is invisible to every command, so the map also
remembers which keys were ever written. A key with deadline d is readable while the clock is below d. */
module Redis {
  import opened Wrappers

  datatype Entry = Entry(value: nat, deadline: Option<nat>)

  predicate Live<K(==)>(db: map<K, Entry>, now: nat, key: K) {
    key in db && (db[key].deadline.None? || now < db[key].deadline.value)
  }

  /** GET of a counter key, with a missing key read as 0. */
  function Count<K(==)>(db: map<K, Entry>, now: nat, key: K): nat {
    if Live(db, now, key) then db[key].value else 0
  }

  /** INCR: creates the key at 0 first if it is missing, and keeps the deadline of a present key. */
  function Incr<K(==)>(db: map<K, Entry>, now: nat, key: K): map<K, Entry> {
    if Live(db, now, key) then db[key := db[key].(value := db[key].value + 1)] else db[key := Entry(1, None)]
  }

  /** EXPIRE: no effect on a missing key. */
  function Expire<K(==)>(db: map<K, Entry>, now: nat, key: K, ttl: nat): map<K, Entry> {
    if Live(db, now, key) then db[key := db[key].(deadline := Some(now + ttl))] else db
  }

  /** SET key value EX ttl. */
  function SetEx<K(==)>(db: map<K, Entry>, now: nat, key: K, ttl: nat): map<K, Entry> {
    db[key := Entry(1, Some(now + ttl))]
  }
}
