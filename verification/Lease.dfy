/** The part of Redis that both distributed locks rest on: keys with an expiry time, `SET key NX EX ttl`,
    a plain `SET key EX ttl`, pipelined refreshes and an unconditional `DEL`.
    Times are in milliseconds. */
module Lease {

  type Time = int

  /** Each key is mapped to the time at which it expires. An expired entry may linger in the map. */
  type Store<K> = map<K, Time>

  predicate Live<K>(store: Store<K>, key: K, now: Time) {
    key in store && now < store[key]
  }

  /** `SET key 1 NX EX ttl`: takes effect only when the key is not live. */
  function SetIfAbsent<K(!new)>(store: Store<K>, key: K, now: Time, ttl: nat): (r: (Store<K>, bool))
    ensures r.1 <==> !Live(store, key, now)
    ensures 0 < ttl ==> Live(r.0, key, now)
    ensures forall other :: other != key ==> (Live(r.0, other, now) <==> Live(store, other, now))
  {
    if Live(store, key, now) then (store, false) else (store[key := now + ttl], true)
  }

  /** A pipeline of `SET key 1 EX ttl`, one for each key of the batch, run without interruption. */
  function SetAll<K>(store: Store<K>, keys: set<K>, now: Time, ttl: nat): (r: Store<K>)
    ensures r.Keys == store.Keys + keys
    ensures forall k :: k in keys ==> r[k] == now + ttl
    ensures forall k :: k in store && k !in keys ==> r[k] == store[k]
  {
    map k | k in store.Keys + keys :: if k in keys then now + ttl else store[k]
  }

  function Remove<K(!new)>(store: Store<K>, key: K): (r: Store<K>)
    ensures key !in r
    ensures forall other :: other != key ==>
        (other in r <==> other in store) && (other in r ==> r[other] == store[other])
  {
    store - {key}
  }
}
