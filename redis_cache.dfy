/** The part of Redis the handlers use: `GET`, `SETEX` and `DEL` on a
    key-value store whose entries expire by themselves. The clock is the
    `now` argument. */
module RedisCache {
  import opened Wrappers
  import opened Schema

  const MicrosPerSecond := 1_000_000

  /** A stored value and the instant from which it is gone. */
  datatype Entry = Entry(value: string, expiresAt: Time)

  type Store = map<string, Entry>

  /** Redis refuses `SETEX` with a non-positive time. */
  const InvalidExpireTime := "invalid expire time in 'setex' command"

  /** `GET key` at time `now`: the value while the entry is live. */
  function Get(c: Store, key: string, now: Time): (r: Option<string>)
    ensures r.Some? <==> key in c && now < c[key].expiresAt
    ensures r.Some? ==> r.value == c[key].value
  {
    if key in c && now < c[key].expiresAt then Some(c[key].value) else None
  }

  /** `SETEX key ttl value` at time `now`, `ttl` in whole seconds. */
  function SetEx(c: Store, key: string, ttl: int, value: string, now: Time): (r: Result<Store, string>)
    ensures r.Err? <==> ttl <= 0
    ensures r.Err? ==> r.error == InvalidExpireTime
    ensures r.Ok? ==> r.value == c[key := Entry(value, now + ttl * MicrosPerSecond)]
  {
    if ttl <= 0 then Err(InvalidExpireTime)
    else Ok(c[key := Entry(value, now + ttl * MicrosPerSecond)])
  }

  /** `DEL key`; deleting a missing key is not an error. */
  function Delete(c: Store, key: string): (r: Store)
    ensures r.Keys == c.Keys - {key}
    ensures forall k :: k in r ==> r[k] == c[k]
  {
    c - {key}
  }

  /** After a successful `SETEX`, `GET` returns the value for exactly `ttl`
      seconds and nothing afterwards; other keys read as before. */
  lemma GetAfterSetEx(c: Store, key: string, ttl: int, value: string, now: Time, t: Time, other: string)
    requires ttl > 0 && now <= t && other != key
    ensures SetEx(c, key, ttl, value, now).Ok?
    ensures Get(SetEx(c, key, ttl, value, now).value, key, t)
            == if t < now + ttl * MicrosPerSecond then Some(value) else None
    ensures Get(SetEx(c, key, ttl, value, now).value, other, t) == Get(c, other, t)
  {
  }

  /** After `DEL`, `GET` misses on that key and reads the rest as before. */
  lemma GetAfterDelete(c: Store, key: string, other: string, t: Time)
    requires other != key
    ensures Get(Delete(c, key), key, t) == None
    ensures Get(Delete(c, key), other, t) == Get(c, other, t)
  {
  }
}
