/** The caller's identity (app/main.py `get_user_id`, `get_user_id_strict`)
    and the credential check of `auth_token`. Token verification is an
    abstract partial map from token to its claims; password checking is an
    abstract predicate. */
module Auth {
  import opened Wrappers
  import opened Http
  import opened Schema

  /** The claims of a decoded token. */
  type Claims = map<string, string>

  const BearerPrefix := "Bearer "

  predicate StartsWith(s: string, prefix: string) {
    |prefix| <= |s| && s[..|prefix|] == prefix
  }

  /** The inverse of `Split`: the fields with `sep` between them. */
  function Join(fields: seq<string>, sep: char): string
    requires |fields| >= 1
    decreases |fields|
  {
    if |fields| == 1 then fields[0] else fields[0] + [sep] + Join(fields[1..], sep)
  }

  /** Python's `s.split(sep)` for a one-character separator: the pieces
      between separators, empty ones included. */
  function Split(s: string, sep: char): (fields: seq<string>)
    ensures |fields| >= 1
    ensures forall i :: 0 <= i < |fields| ==> sep !in fields[i]
    ensures Join(fields, sep) == s
    decreases |s|
  {
    if s == [] then [[]]
    else
      var rest := Split(s[1..], sep);
      if s[0] == sep then [[]] + rest
      else [[s[0]] + rest[0]] + rest[1..]
  }

  /** A field followed by a separator splits off as the first field. */
  lemma {:induction false} SplitAfterField(w: string, sep: char, t: string)
    requires sep !in w
    ensures Split(w + [sep] + t, sep) == [w] + Split(t, sep)
    decreases |w|
  {
    if w == [] {
      assert w + [sep] + t == [sep] + t;
    } else {
      SplitAfterField(w[1..], sep, t);
      assert (w + [sep] + t)[1..] == w[1..] + [sep] + t;
      assert [w[0]] + w[1..] == w;
    }
  }

  /** A string without separators is a single field. */
  lemma {:induction false} SplitWithoutSep(w: string, sep: char)
    requires sep !in w
    ensures Split(w, sep) == [w]
    decreases |w|
  {
    if w != [] {
      SplitWithoutSep(w[1..], sep);
      assert [w[0]] + w[1..] == w;
    }
  }

  /** Whether the `Authorization` header carries a bearer token. */
  predicate HasBearer(header: Option<string>) {
    header.Some? && header.value != "" && StartsWith(header.value, BearerPrefix)
  }

  /** `header.split(" ")[1]`, defined when the header starts with "Bearer ". */
  function BearerToken(header: string): (token: string)
    requires StartsWith(header, BearerPrefix)
    ensures ' ' !in token
  {
    SplitAfterField("Bearer", ' ', header[|BearerPrefix|..]);
    assert header == "Bearer" + [' '] + header[|BearerPrefix|..];
    Split(header, ' ')[1]
  }

  /** `claims.get("sub")`. */
  function Subject(claims: Claims): Option<string> {
    if "sub" in claims then Some(claims["sub"]) else None
  }

  /** `get_user_id`: no bearer header gives an anonymous caller, a token that
      does not decode fails with 401, and a decoded token gives its `sub`. */
  function GetUserId(header: Option<string>, decode: map<string, Claims>): (r: Result<Option<string>, HttpError>)
    ensures !HasBearer(header) ==> r == Ok(None)
    ensures r.Err? <==> HasBearer(header) && BearerToken(header.value) !in decode
    ensures r.Err? ==> r.error == TokenMalformed
    ensures r.Ok? && r.value.Some? ==> HasBearer(header) && var token := BearerToken(header.value);
              token in decode && Subject(decode[token]) == r.value
    ensures HasBearer(header) && BearerToken(header.value) in decode ==>
              r == Ok(Subject(decode[BearerToken(header.value)]))
  {
    if !HasBearer(header) then Ok(None)
    else
      var token := BearerToken(header.value);
      if token !in decode then Err(TokenMalformed) else Ok(Subject(decode[token]))
  }

  /** `get_user_id_strict`: an identity is required. */
  function GetUserIdStrict(header: Option<string>, decode: map<string, Claims>): (r: Result<string, HttpError>)
    ensures r.Ok? ==> GetUserId(header, decode) == Ok(Some(r.value))
    ensures GetUserId(header, decode).Ok? && GetUserId(header, decode).value.Some? ==> r.Ok?
    ensures r.Err? ==> r.error.status == 401
    ensures r.Err? && GetUserId(header, decode).Ok? ==> r.error == Unauthorized
    ensures GetUserId(header, decode).Err? ==> r == Err(GetUserId(header, decode).error)
  {
    match GetUserId(header, decode)
    case Err(e) => Err(e)
    case Ok(None) => Err(Unauthorized)
    case Ok(Some(id)) => Ok(id)
  }

  /** Round trip: the header `"Bearer " + token` hands the verifier the
      token's first space-separated field, and yields its subject. */
  lemma {:induction false} BearerHeaderRoundTrip(token: string, decode: map<string, Claims>)
    requires ' ' !in token
    ensures BearerToken(BearerPrefix + token) == token
    ensures GetUserId(Some(BearerPrefix + token), decode)
            == if token in decode then Ok(Subject(decode[token])) else Err(TokenMalformed)
  {
    var header := BearerPrefix + token;
    assert header[|BearerPrefix|..] == token;
    assert header == "Bearer" + [' '] + token;
    SplitAfterField("Bearer", ' ', token);
    SplitWithoutSep(token, ' ');
    assert StartsWith(header, BearerPrefix);
  }

  /** The user with that nickname, if any (`.filter(User.nickname == ...).first()`). */
  function FindByNickname(users: map<string, User>, nickname: string): (r: Option<string>)
    requires NicknamesUnique(users)
    ensures r.Some? <==> NicknameTaken(users, nickname)
    ensures r.Some? ==> r.value in users && users[r.value].nickname == nickname
  {
    if NicknameTaken(users, nickname) then
      var id :| id in users && users[id].nickname == nickname; Some(id)
    else None
  }

  /** The credential check of `auth_token`: the subject a token would carry,
      or one and the same 401 for an unknown user and for a wrong password. */
  function CheckCredentials(users: map<string, User>, nickname: string, password: string,
                            checkpw: (string, string) -> bool): (r: Result<string, HttpError>)
    requires NicknamesUnique(users)
    ensures r.Ok? <==> exists id :: id in users && users[id].nickname == nickname && checkpw(password, users[id].passwordHash)
    ensures r.Ok? ==> r.value in users && users[r.value].nickname == nickname
    ensures r.Err? ==> r.error == IncorrectCredentials
  {
    match FindByNickname(users, nickname)
    case None => Err(IncorrectCredentials)
    case Some(id) => if checkpw(password, users[id].passwordHash) then Ok(id) else Err(IncorrectCredentials)
  }
}
