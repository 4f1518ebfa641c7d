/**
 * The documents the backend stores and the shared pieces of decision logic:
 * the diagnostic-log entry format and the two password checks.
 */
module Records {
  import opened Wrappers

  /**
   * A level as the client submits it. `sentToServer` is the client's
   * "already published" marker (absent reads as false); `content` stands for
   * the rest of the level payload, which the server never inspects.
   */
  datatype Level = Level(id: string, name: string, sentToServer: bool, content: string)

  /**
   * A player profile (`playerData`): the password is optional, as it is in the
   * request body; `progress` stands for the remaining game-state fields.
   */
  datatype Profile = Profile(
    username: string,
    password: Option<string>,
    publishedLevels: seq<Level>,
    progress: string)

  /** A `User` document: a username and an optional `data` profile. */
  datatype User = User(username: string, data: Option<Profile>)

  /** A `PublicLevel` document: the level's id and the level itself. */
  datatype PublicLevel = PublicLevel(id: string, data: Level)

  /** How JavaScript renders a missing second argument of `logError`. */
  const UNDEFINED := "undefined"

  /** The entry `logError(message, error)` appends to the diagnostic log. */
  function LogEntry(message: string, error: string): (entry: string)
    ensures |entry| == |message| + 3 + |error|
    ensures entry[..|message|] == message
    ensures entry[|message|..] == " : " + error
  {
    message + " : " + error
  }

  /** login's check: the stored password strictly equals the supplied one (both may be undefined). */
  predicate PasswordMatches(stored: Profile, supplied: Option<string>)
    ensures PasswordMatches(stored, supplied) <==>
      || (stored.password.None? && supplied.None?)
      || (stored.password.Some? && supplied.Some? && stored.password.value == supplied.value)
  {
    stored.password == supplied
  }

  /**
   * The check of sync and load: it applies only when the stored user has a
   * profile; a user without `data` is authorised whatever password is sent.
   */
  predicate Authorized(user: User, playerData: Profile)
    ensures user.data.None? ==> Authorized(user, playerData)
    ensures user.data.Some? ==>
      (Authorized(user, playerData) <==> user.data.value.password == playerData.password)
  {
    user.data.None? || PasswordMatches(user.data.value, playerData.password)
  }
}
