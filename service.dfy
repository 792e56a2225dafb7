/** The handlers of app/main.py that change state, as methods of one object
    holding the database tables and the Redis cache. Each method is one
    request; `now` is the request's `datetime.now()`. */
module Service {
  import opened Wrappers
  import opened Http
  import opened Schema
  import opened ShortCode
  import opened Queries
  import RedisCache

  /** `if request.alias:` -- `None` and `""` both mean "no alias". */
  predicate AliasGiven(alias: Option<string>) {
    alias.Some? && alias.value != ""
  }

  /** The id of a new link: the alias if one is given, else the column
      default `generate_short_code()`. */
  function ChosenId(alias: Option<string>, draws: seq<Draw>): (id: string)
    requires |draws| == DefaultLength
    ensures AliasGiven(alias) ==> id == alias.value
    ensures !AliasGiven(alias) ==> |id| == DefaultLength && IsShortCode(id)
  {
    if AliasGiven(alias) then alias.value else GenerateDefault(draws)
  }

  /** `int((link.expire_at - now).total_seconds())` for a link that has not
      expired: whole seconds left, rounded down. */
  function CacheTtl(expireAt: Time, now: Time): (ttl: int)
    requires now < expireAt
    ensures ttl >= 0
    ensures now + ttl * RedisCache.MicrosPerSecond <= expireAt < now + (ttl + 1) * RedisCache.MicrosPerSecond
  {
    (expireAt - now) / RedisCache.MicrosPerSecond
  }

  /** `links_update` leaves the cache alone: while the old url is cached, a
      redirect keeps answering it whatever the row now says. */
  lemma UpdateLeavesCachedUrl(links: map<string, Link>, cache: RedisCache.Store, id: string, l: Link, now: Time)
    requires CachedUrl(cache, id, now).Some?
    ensures Resolve(links[id := l], cache, id, now) == CachedUrl(cache, id, now)
  {
  }

  /** Once a link is gone from the table (and, by the invariant, from the
      cache), redirect, stats, update and delete all answer 404. */
  lemma AbsentIsNotFound(links: map<string, Link>, cache: RedisCache.Store, id: string, caller: string, now: Time)
    requires CacheBounded(links, cache) && id !in links
    ensures Resolve(links, cache, id, now).None?
    ensures Owned(links, id, caller).None?
    ensures Stats(links, id, caller) == Err(LinkNotFound)
  {
  }

  class Shortener {
    /** The `link` table, by id. */
    var links: map<string, Link>
    /** The `user` table, by id. */
    var users: map<string, User>
    /** The Redis keyspace. */
    var cache: RedisCache.Store

    ghost predicate Valid()
      reads this
    {
      && LinksKeyed(links)
      && UsersKeyed(users)
      && NicknamesUnique(users)
      && OwnersExist(links, users)
      && CacheBounded(links, cache)
    }

    /** Empty tables and an empty cache. */
    constructor ()
      ensures Valid()
      ensures links == map[] && users == map[] && cache == map[]
    {
      links, users, cache := map[], map[], map[];
    }

    /** `auth_register`: `freshId` is the `generate_uuid4()` default and
        `passwordHash` the bcrypt hash; a taken nickname (or id) is rolled
        back with 409. */
    method Register(username: string, passwordHash: string, freshId: string) returns (r: Result<string, HttpError>)
      requires Valid()
      modifies this
      ensures Valid()
      ensures links == old(links) && cache == old(cache)
      ensures r.Ok? <==> freshId !in old(users) && !NicknameTaken(old(users), username)
      ensures r.Ok? ==> r.value == freshId && users == old(users)[freshId := User(freshId, username, passwordHash)]
      ensures r.Err? ==> r.error == UserExists && users == old(users)
    {
      var user := User(freshId, username, passwordHash);
      match InsertUser(users, user)
      case Ok(table) =>
        OwnersExistGrow(links, users, table);
        users := table;
        r := Ok(user.id);
      case Err(_) =>
        r := Err(UserExists);
    }

    /** `links_shorten`: refuse an expiry in the past, then insert the link
        under the alias or a generated code; any integrity error (taken id,
        unknown owner) is rolled back and reported as 409, without retry. */
    method Shorten(url: string, expireAt: Time, alias: Option<string>, caller: Option<string>,
                   draws: seq<Draw>, now: Time) returns (r: Result<string, HttpError>)
      requires Valid()
      requires |draws| == DefaultLength
      modifies this
      ensures Valid()
      ensures users == old(users) && cache == old(cache)
      ensures expireAt < now ==> r == Err(ExpireInPast) && links == old(links)
      ensures expireAt >= now ==>
        var id := ChosenId(alias, draws);
        if id !in old(links) && (caller.Some? ==> caller.value in old(users)) then
          r == Ok(id) && links == old(links)[id := NewLink(id, caller, url, expireAt, now)]
        else
          r == Err(AliasExists) && links == old(links)
    {
      if expireAt < now {
        return Err(ExpireInPast);
      }
      var id := ChosenId(alias, draws);
      var link := NewLink(id, caller, url, expireAt, now);
      match InsertLink(links, users, link)
      case Ok(table) =>
        links := table;
        r := Ok(link.id);
      case Err(_) =>
        r := Err(AliasExists);
    }

    /** `links_redirect` with the cache write skipped when less than a second
        is left (see `RedirectAsWritten`): cache first, then the store; the
        counter is bumped once per answered redirect. */
    method Redirect(id: string, now: Time) returns (r: Result<string, HttpError>)
      requires Valid()
      modifies this
      ensures Valid()
      ensures users == old(users)
      ensures r.Ok? <==> Resolve(old(links), old(cache), id, now).Some?
      ensures r.Ok? ==> r.value == Resolve(old(links), old(cache), id, now).value
      ensures r.Ok? ==> id in old(links) && now < old(links)[id].expireAt
      ensures r.Ok? ==> links == RecordAccess(old(links), id, now)
      ensures r.Err? ==> r.error == LinkNotFound && links == old(links) && cache == old(cache)
      ensures CachedUrl(old(cache), id, now).Some? ==> cache == old(cache)
      ensures CachedUrl(old(cache), id, now).None? && r.Ok? ==>
        var ttl := CacheTtl(old(links)[id].expireAt, now);
        cache == if ttl > 0 then old(cache)[CacheKey(id) := RedisCache.Entry(old(links)[id].url, now + ttl * RedisCache.MicrosPerSecond)]
                 else old(cache)
    {
      var key := CacheKey(id);
      var url: string;
      var cached := RedisCache.Get(cache, key, now);
      if cached.Some? && cached.value != "" {
        url := cached.value;
      } else {
        var found := FindResolvable(links, id, now);
        if found.None? {
          return Err(LinkNotFound);
        }
        url := found.value.url;
        var ttl := CacheTtl(found.value.expireAt, now);
        if ttl > 0 {
          cache := RedisCache.SetEx(cache, key, ttl, url, now).value;
          forall j | CacheKey(j) == key ensures j == id {
            CacheKeyInjective(j, id);
          }
        }
      }
      RecordAccessKeepsInvariants(links, users, cache, id, now);
      links := RecordAccess(links, id, now);
      r := Ok(url);
    }

    /** `links_redirect` as written: on a cache miss the remaining lifetime is
        handed to `SETEX` even when it rounds down to 0 seconds, which Redis
        refuses; the exception escapes as a 500 before the stats step. */
    method RedirectAsWritten(id: string, now: Time) returns (r: Result<string, HttpError>)
      requires Valid()
      modifies this
      ensures Valid()
      ensures users == old(users)
      ensures r == Err(InternalError) <==>
        CachedUrl(old(cache), id, now).None? && FindResolvable(old(links), id, now).Some?
        && CacheTtl(old(links)[id].expireAt, now) == 0
      ensures r.Ok? ==> Resolve(old(links), old(cache), id, now).Some? && r.value == Resolve(old(links), old(cache), id, now).value
      ensures r.Ok? ==> id in old(links) && now < old(links)[id].expireAt
      ensures r.Ok? ==> links == RecordAccess(old(links), id, now)
      ensures r.Err? ==> r == Err(LinkNotFound) || r == Err(InternalError)
      ensures r.Err? ==> links == old(links) && cache == old(cache)
      ensures r == Err(LinkNotFound) <==> Resolve(old(links), old(cache), id, now).None?
      ensures CachedUrl(old(cache), id, now).Some? ==> r.Ok? && cache == old(cache)
      ensures CachedUrl(old(cache), id, now).None? && r.Ok? ==>
        cache == old(cache)[CacheKey(id) := RedisCache.Entry(old(links)[id].url,
                   now + CacheTtl(old(links)[id].expireAt, now) * RedisCache.MicrosPerSecond)]
    {
      var key := CacheKey(id);
      var url: string;
      var cached := RedisCache.Get(cache, key, now);
      if cached.Some? && cached.value != "" {
        url := cached.value;
      } else {
        var found := FindResolvable(links, id, now);
        if found.None? {
          return Err(LinkNotFound);
        }
        url := found.value.url;
        var ttl := CacheTtl(found.value.expireAt, now);
        match RedisCache.SetEx(cache, key, ttl, url, now)
        case Err(_) =>
          return Err(InternalError);
        case Ok(c) =>
          cache := c;
          forall j | CacheKey(j) == key ensures j == id {
            CacheKeyInjective(j, id);
          }
      }
      RecordAccessKeepsInvariants(links, users, cache, id, now);
      links := RecordAccess(links, id, now);
      r := Ok(url);
    }

    /** `links_update`: the owner's link gets the new url and `updated_at`;
        nothing else changes, the cached url included. */
    method Update(id: string, newUrl: string, caller: string, now: Time) returns (r: Result<(), HttpError>)
      requires Valid()
      modifies this
      ensures Valid()
      ensures users == old(users) && cache == old(cache)
      ensures r.Ok? <==> id in old(links) && old(links)[id].userId == Some(caller)
      ensures r.Ok? ==> links == old(links)[id := old(links)[id].(url := newUrl, updatedAt := now)]
      ensures r.Err? ==> r.error == LinkNotFound && links == old(links)
    {
      match Owned(links, id, caller)
      case None =>
        return Err(LinkNotFound);
      case Some(link) =>
        links := links[id := link.(url := newUrl, updatedAt := now)];
        r := Ok(());
    }

    /** `links_delete`: the owner's link is removed, then its cache key. */
    method Delete(id: string, caller: string) returns (r: Result<(), HttpError>)
      requires Valid()
      modifies this
      ensures Valid()
      ensures users == old(users)
      ensures r.Ok? <==> id in old(links) && old(links)[id].userId == Some(caller)
      ensures r.Ok? ==> links == old(links) - {id} && cache == RedisCache.Delete(old(cache), CacheKey(id))
      ensures r.Err? ==> r.error == LinkNotFound && links == old(links) && cache == old(cache)
    {
      match Owned(links, id, caller)
      case None =>
        return Err(LinkNotFound);
      case Some(_) =>
        links := links - {id};
        cache := RedisCache.Delete(cache, CacheKey(id));
        r := Ok(());
    }
  }
}
