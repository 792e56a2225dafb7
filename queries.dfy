/** The read-only parts of app/main.py: the queries the handlers run, the
    response record `LinkDTO`, the cache key, the per-redirect stats update
    as a function of the table, and the handlers `links_stats`, `links_list`
    and `links_search`. */
module Queries {
  import opened Wrappers
  import opened Http
  import opened Schema
  import RedisCache

  /** `LinkDTO`: every column of a link except its owner. */
  datatype LinkDto = LinkDto(
    id: string,
    url: string,
    accessCount: nat,
    lastAccessAt: Option<Time>,
    createdAt: Time,
    updatedAt: Time,
    expireAt: Time)

  /** `map_link_to_dto`. */
  function ToDto(l: Link): (d: LinkDto)
    ensures d.id == l.id && d.url == l.url && d.accessCount == l.accessCount
    ensures d.lastAccessAt == l.lastAccessAt && d.createdAt == l.createdAt
    ensures d.updatedAt == l.updatedAt && d.expireAt == l.expireAt
  {
    LinkDto(l.id, l.url, l.accessCount, l.lastAccessAt, l.createdAt, l.updatedAt, l.expireAt)
  }

  /** The response never reveals who owns a link. */
  lemma DtoHidesOwner(l: Link, owner: Option<string>)
    ensures ToDto(l.(userId := owner)) == ToDto(l)
  {
  }

  /** `f"link:{link_id}"`. */
  function CacheKey(id: string): (key: string)
    ensures |key| == |id| + 5 && key[..5] == "link:" && key[5..] == id
  {
    "link:" + id
  }

  lemma CacheKeyInjective(a: string, b: string)
    requires CacheKey(a) == CacheKey(b)
    ensures a == b
  {
    assert a == CacheKey(a)[5..];
  }

  /** `cached_url = redis.get(key); if cached_url:` -- a hit is a live entry
      whose value is a non-empty string. */
  function CachedUrl(cache: RedisCache.Store, id: string, now: Time): (r: Option<string>)
    ensures r.Some? <==> RedisCache.Get(cache, CacheKey(id), now).Some? && RedisCache.Get(cache, CacheKey(id), now).value != ""
    ensures r.Some? ==> r.value == cache[CacheKey(id)].value && r.value != ""
  {
    match RedisCache.Get(cache, CacheKey(id), now)
    case Some(u) => if u != "" then Some(u) else None
    case None => None
  }

  /** `.filter(Link.id == link_id, Link.expire_at > now).first()`. */
  function FindResolvable(links: map<string, Link>, id: string, now: Time): (r: Option<Link>)
    ensures r.Some? <==> id in links && now < links[id].expireAt
    ensures r.Some? ==> r.value == links[id]
  {
    if id in links && now < links[id].expireAt then Some(links[id]) else None
  }

  /** The url `links_redirect` answers with: the cache first, then the store. */
  function Resolve(links: map<string, Link>, cache: RedisCache.Store, id: string, now: Time): (r: Option<string>)
    ensures CachedUrl(cache, id, now).Some? ==> r == CachedUrl(cache, id, now)
    ensures CachedUrl(cache, id, now).None? ==> r.Some? == FindResolvable(links, id, now).Some?
    ensures CachedUrl(cache, id, now).None? && r.Some? ==> r.value == links[id].url
  {
    match CachedUrl(cache, id, now)
    case Some(u) => Some(u)
    case None =>
      match FindResolvable(links, id, now)
      case Some(l) => Some(l.url)
      case None => None
  }

  /** A cache entry `link:<id>` belongs to a stored link and expires no later
      than it does. */
  ghost predicate CacheBounded(links: map<string, Link>, cache: RedisCache.Store) {
    forall id {:trigger CacheKey(id)} :: CacheKey(id) in cache ==> id in links && cache[CacheKey(id)].expiresAt <= links[id].expireAt
  }

  /** Under that invariant a redirect never resolves an expired or absent id,
      cached or not. */
  lemma ResolvedIsLive(links: map<string, Link>, cache: RedisCache.Store, id: string, now: Time)
    requires CacheBounded(links, cache)
    requires Resolve(links, cache, id, now).Some?
    ensures id in links && now < links[id].expireAt
  {
  }

  /** The stats step: `UPDATE link SET access_count = access_count + 1,
      last_access_at = now WHERE id = link_id`. */
  function RecordAccess(links: map<string, Link>, id: string, now: Time): (r: map<string, Link>)
    ensures r.Keys == links.Keys
    ensures id in links ==> r[id] == links[id].(accessCount := links[id].accessCount + 1, lastAccessAt := Some(now))
    ensures forall k :: k in links && k != id ==> r[k] == links[k]
  {
    if id in links then links[id := links[id].(accessCount := links[id].accessCount + 1, lastAccessAt := Some(now))]
    else links
  }

  /** The stats update changes no key, owner or expiry, so it keeps every
      table invariant. */
  lemma RecordAccessKeepsInvariants(links: map<string, Link>, users: map<string, User>,
                                    cache: RedisCache.Store, id: string, now: Time)
    ensures LinksKeyed(links) ==> LinksKeyed(RecordAccess(links, id, now))
    ensures OwnersExist(links, users) ==> OwnersExist(RecordAccess(links, id, now), users)
    ensures CacheBounded(links, cache) ==> CacheBounded(RecordAccess(links, id, now), cache)
  {
  }

  /** The stats of `n` redirects at the given times, in order. */
  function RecordAccesses(links: map<string, Link>, id: string, times: seq<Time>): map<string, Link>
    decreases |times|
  {
    if times == [] then links
    else RecordAccesses(RecordAccess(links, id, times[0]), id, times[1..])
  }

  /** `n` redirects of one link raise its counter by exactly `n`, leave the
      time of the last one, and touch no other row. */
  lemma {:induction false} RecordAccessesCount(links: map<string, Link>, id: string, times: seq<Time>)
    requires id in links
    ensures var r := RecordAccesses(links, id, times);
      && r.Keys == links.Keys
      && r[id].accessCount == links[id].accessCount + |times|
      && r[id].lastAccessAt == (if times == [] then links[id].lastAccessAt else Some(times[|times| - 1]))
      && r[id].(accessCount := 0, lastAccessAt := None) == links[id].(accessCount := 0, lastAccessAt := None)
      && forall k :: k in links && k != id ==> r[k] == links[k]
    decreases |times|
  {
    if times != [] {
      var step := RecordAccess(links, id, times[0]);
      RecordAccessesCount(step, id, times[1..]);
      if |times| > 1 {
        assert times[1..][|times[1..]| - 1] == times[|times| - 1];
      }
    }
  }

  /** `.filter(Link.id == link_id, Link.user_id == user_id).first()`: an
      anonymous link is owned by nobody. */
  function Owned(links: map<string, Link>, id: string, caller: string): (r: Option<Link>)
    ensures r.Some? <==> id in links && links[id].userId == Some(caller)
    ensures r.Some? ==> r.value == links[id]
  {
    if id in links && links[id].userId == Some(caller) then Some(links[id]) else None
  }

  /** `links_stats`: the caller's own link, expired or not; a missing link and
      somebody else's look the same. */
  function Stats(links: map<string, Link>, id: string, caller: string): (r: Result<LinkDto, HttpError>)
    ensures r.Ok? <==> id in links && links[id].userId == Some(caller)
    ensures r.Ok? ==> r.value == ToDto(links[id])
    ensures r.Err? ==> r.error == LinkNotFound
  {
    match Owned(links, id, caller)
    case Some(l) => Ok(ToDto(l))
    case None => Err(LinkNotFound)
  }

  /** A link that is not the caller's answers exactly as if it did not exist. */
  lemma StatsHidesOthersLinks(links: map<string, Link>, id: string, caller: string)
    requires id in links && links[id].userId != Some(caller)
    ensures Stats(links, id, caller) == Stats(links - {id}, id, caller)
  {
  }

  /** `links_list`: the caller's links, expired ones included. */
  function List(links: map<string, Link>, caller: string): (r: set<LinkDto>)
    ensures forall id :: id in links && links[id].userId == Some(caller) ==> ToDto(links[id]) in r
    ensures forall d :: d in r ==> exists id :: id in links && links[id].userId == Some(caller) && d == ToDto(links[id])
    ensures LinksKeyed(links) ==> forall d :: d in r ==>
              d.id in links && links[d.id].userId == Some(caller) && d == ToDto(links[d.id])
  {
    set id | id in links && links[id].userId == Some(caller) :: ToDto(links[id])
  }

  /** `url.contains(term)`: `term` occurs in `url` as a contiguous piece. */
  predicate Contains(url: string, term: string) {
    exists i :: 0 <= i <= |url| - |term| && OccursAt(url, term, i)
  }

  predicate OccursAt(url: string, term: string, i: int)
    requires 0 <= i <= |url| - |term|
  {
    url[i..i + |term|] == term
  }

  lemma ContainsSplit(url: string, term: string)
    ensures Contains(url, term) <==> exists p, q :: url == p + term + q
  {
    if Contains(url, term) {
      var i :| 0 <= i <= |url| - |term| && OccursAt(url, term, i);
      assert url == url[..i] + term + url[i + |term|..];
    }
    if exists p, q :: url == p + term + q {
      var p, q :| url == p + term + q;
      assert OccursAt(url, term, |p|);
    }
  }

  /** `links_search`: an empty term is refused; otherwise the caller's links
      whose url contains the term. */
  function Search(links: map<string, Link>, caller: string, term: string): (r: Result<set<LinkDto>, HttpError>)
    ensures r.Err? <==> term == ""
    ensures r.Err? ==> r.error == SearchTermRequired
    ensures r.Ok? ==> forall id :: id in links && links[id].userId == Some(caller) && Contains(links[id].url, term)
                        ==> ToDto(links[id]) in r.value
    ensures r.Ok? ==> forall d :: d in r.value ==>
              exists id :: id in links && links[id].userId == Some(caller) && Contains(links[id].url, term) && d == ToDto(links[id])
    ensures r.Ok? && LinksKeyed(links) ==> forall d :: d in r.value ==>
              d.id in links && links[d.id].userId == Some(caller) && Contains(links[d.id].url, term) && d == ToDto(links[d.id])
  {
    if term == "" then Err(SearchTermRequired)
    else Ok(set id | id in links && links[id].userId == Some(caller) && Contains(links[id].url, term) :: ToDto(links[id]))
  }

  /** Search narrows the caller's list. */
  lemma SearchWithinList(links: map<string, Link>, caller: string, term: string)
    requires term != ""
    ensures Search(links, caller, term).value <= List(links, caller)
  {
  }
}
