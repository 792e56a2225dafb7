/** Optional values and results with an error, used for the source's
    `Optional[...]` columns and for the exceptions its handlers raise. */
module Wrappers {

  datatype Option<+T> = None | Some(value: T)

  datatype Result<+T, +E> = Ok(value: T) | Err(error: E)
}

/** The HTTP errors the handlers raise (FastAPI's `HTTPException`),
    with the exact status codes and detail strings of app/main.py. */
module Http {

  datatype HttpError = HttpError(status: int, detail: string)

  const UserExists := HttpError(409, "User with this username already exists")
  const IncorrectCredentials := HttpError(401, "Incorrect username or password")
  const TokenMalformed := HttpError(401, "Access token malformed")
  /** `HTTPException(status_code=401)` without a detail: FastAPI fills in the
      status phrase. */
  const Unauthorized := HttpError(401, "Unauthorized")
  const ExpireInPast := HttpError(400, "expire_at must be in the future")
  const AliasExists := HttpError(409, "Alias already exists")
  const SearchTermRequired := HttpError(400, "original_url query parameter is required")
  const LinkNotFound := HttpError(404, "Link not found")
  /** An exception the handler does not catch (here: a Redis error). */
  const InternalError := HttpError(500, "Internal Server Error")
}
