/** The persisted records of app/sql.py and the constraints the database
    enforces on them: primary keys, the unique nickname and the owner's
    foreign key. A table is a map from primary key to row. */
module Schema {
  import opened Wrappers

  /** Timestamps are integer microseconds, the resolution of `datetime`. */
  type Time = int

  datatype User = User(id: string, nickname: string, passwordHash: string)

  datatype Link = Link(
    id: string,
    userId: Option<string>,
    url: string,
    accessCount: nat,
    lastAccessAt: Option<Time>,
    createdAt: Time,
    updatedAt: Time,
    expireAt: Time)

  /** The constraint an insert broke (SQLAlchemy's `IntegrityError`). */
  datatype Violation = DuplicateKey | DuplicateNickname | MissingOwner

  /** A row built as `Link(user_id=..., url=..., expire_at=...)` and inserted
      at time `now`: the defaults of the other columns. */
  function NewLink(id: string, userId: Option<string>, url: string, expireAt: Time, now: Time): (l: Link)
    ensures l.id == id && l.userId == userId && l.url == url && l.expireAt == expireAt
    ensures l.accessCount == 0 && l.lastAccessAt == None
    ensures l.createdAt == now && l.updatedAt == now
  {
    Link(id, userId, url, 0, None, now, now, expireAt)
  }

  /** Every row is stored under its own primary key. */
  predicate LinksKeyed(links: map<string, Link>) {
    forall id :: id in links ==> links[id].id == id
  }

  predicate UsersKeyed(users: map<string, User>) {
    forall id :: id in users ==> users[id].id == id
  }

  /** `User.nickname` is `unique=True`. */
  predicate NicknamesUnique(users: map<string, User>) {
    forall a, b :: a in users && b in users && users[a].nickname == users[b].nickname ==> a == b
  }

  predicate NicknameTaken(users: map<string, User>, nickname: string) {
    exists id :: id in users && users[id].nickname == nickname
  }

  /** `Link.user_id` is a nullable foreign key to `user.id`. */
  predicate OwnersExist(links: map<string, Link>, users: map<string, User>) {
    forall id :: id in links && links[id].userId.Some? ==> links[id].userId.value in users
  }

  /** INSERT of a link row: fails on a duplicate id or an unknown owner, and
      otherwise adds exactly that row. */
  function InsertLink(links: map<string, Link>, users: map<string, User>, l: Link): (r: Result<map<string, Link>, Violation>)
    ensures r.Ok? <==> l.id !in links && (l.userId.Some? ==> l.userId.value in users)
    ensures r.Ok? ==> r.value.Keys == links.Keys + {l.id} && r.value[l.id] == l
    ensures r.Ok? ==> forall id :: id in links ==> r.value[id] == links[id]
    ensures r.Ok? && LinksKeyed(links) ==> LinksKeyed(r.value)
    ensures r.Ok? && OwnersExist(links, users) ==> OwnersExist(r.value, users)
  {
    if l.id in links then Err(DuplicateKey)
    else if l.userId.Some? && l.userId.value !in users then Err(MissingOwner)
    else Ok(links[l.id := l])
  }

  /** INSERT of a user row: fails on a duplicate id or nickname. */
  function InsertUser(users: map<string, User>, u: User): (r: Result<map<string, User>, Violation>)
    ensures r.Ok? <==> u.id !in users && !NicknameTaken(users, u.nickname)
    ensures r.Ok? ==> r.value.Keys == users.Keys + {u.id} && r.value[u.id] == u
    ensures r.Ok? ==> forall id :: id in users ==> r.value[id] == users[id]
    ensures r.Ok? && UsersKeyed(users) ==> UsersKeyed(r.value)
    ensures r.Ok? && NicknamesUnique(users) ==> NicknamesUnique(r.value)
  {
    if u.id in users then Err(DuplicateKey)
    else if NicknameTaken(users, u.nickname) then Err(DuplicateNickname)
    else Ok(users[u.id := u])
  }

  /** Adding users never breaks the owners' foreign keys. */
  lemma OwnersExistGrow(links: map<string, Link>, users: map<string, User>, more: map<string, User>)
    requires OwnersExist(links, users) && users.Keys <= more.Keys
    ensures OwnersExist(links, more)
  {
  }
}
