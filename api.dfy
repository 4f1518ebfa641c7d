/**
 * The request handlers of the game backend over an in-memory model of its
 * two collections. One handler call is one atomic step; the readiness gate,
 * the diagnostic log and both collections are fields of one Server object.
 */
module Api {
  import opened Wrappers
  import opened Text
  import opened Records
  import opened Catalog

  /** `databaseState`: 0 before the connection settles, 1 when it succeeded, 2 when it failed. */
  datatype DbState = Unknown | Ready | Failed

  function StateCode(s: DbState): nat {
    match s
    case Unknown => 0
    case Ready => 1
    case Failed => 2
  }

  /**
   * What a handler sends back. `Pending` means the gate has deferred the
   * handler body (it re-polls later); `Message` is a bare JSON string.
   */
  datatype Response =
    | Pending
    | Ok
    | Error(message: string)
    | Message(text: string)
    | PlayerData(data: Option<Profile>)
    | Levels(levels: seq<Level>)

  const DATABASE_ERROR := "DATABASE ERROR"
  const INVALID_USERNAME := "Invalid username!"
  const INVALID_PASSWORD := "Invalid password!"
  const USER_QUERY_ERROR := "Database user query error!"
  const USERNAME_EXISTS := "Username already exists!"
  const SIGNUP_SUCCESSFUL := "SIGNUP SUCCESSFUL"
  const USERNAME_NOT_FOUND := "Username not found!"
  const PASSWORD_MISMATCH := "Password does not match!"
  const LEVEL_EXISTS := "Level is already in the database!"
  const LEVEL_UPDATE_ERROR := "Database public level update error!"
  const LEVELS_QUERY_ERROR := "Database public levels query error!"
  const SENDING_LEVELS := "SENDING LEVELS "

  /** The error thrown by `user.data.password` when the user has no `data`. */
  const PASSWORD_TYPE_ERROR := "TypeError: Cannot read properties of undefined (reading 'password')"
  /** The error thrown by `newLevel.data.name` when `newLevel` is the response object. */
  const NAME_TYPE_ERROR := "TypeError: Cannot read properties of undefined (reading 'name')"

  /** `levels.map(level => level.data)`. */
  function LevelsData(catalog: seq<PublicLevel>): seq<Level> {
    seq(|catalog|, i requires 0 <= i < |catalog| => catalog[i].data)
  }

  /** The entry getlevels logs for a catalog. */
  function LevelsEntry(catalog: seq<PublicLevel>): string {
    SENDING_LEVELS + NatToString(|catalog|)
  }

  /** The count getlevels logs is the number of distinct level ids in the catalog. */
  lemma LevelsEntryCountsIds(catalog: seq<PublicLevel>)
    requires DistinctIds(catalog)
    ensures var e := LevelsEntry(catalog);
      && e[..|SENDING_LEVELS|] == SENDING_LEVELS
      && AllDigits(e[|SENDING_LEVELS|..])
      && ParseDecimal(e[|SENDING_LEVELS|..]) == |Ids(catalog)|
  {
    var e := LevelsEntry(catalog);
    assert e[|SENDING_LEVELS|..] == NatToString(|catalog|);
    ParseNatToString(|catalog|);
    CatalogSize(catalog);
  }

  /** The diagnostic page: the gate state and every log entry, one per line. */
  function StatusPage(state: DbState, logs: seq<string>): (page: string)
    ensures |page| >= 36
    ensures page[..22] == "<pre>Database status: "
    ensures page[22] as int - '0' as int == StateCode(state)
    ensures page[|page| - 6..] == "</pre>"
  {
    "<pre>Database status: " + NatToString(StateCode(state)) + "\nLogs:\n" + Join(logs, "\n") + "</pre>"
  }

  /**
   * The log is append-only, so the page only grows: everything shown before
   * more entries arrived, up to the closing tag, is still shown at the start.
   */
  lemma StatusPageGrows(state: DbState, logs: seq<string>, more: seq<string>)
    ensures var page := StatusPage(state, logs);
      |page| >= 6 && page[..|page| - 6] <= StatusPage(state, logs + more)
  {
    var head := "<pre>Database status: " + NatToString(StateCode(state)) + "\nLogs:\n";
    JoinPrefix(logs, more, "\n");
    var page := StatusPage(state, logs);
    assert page == head + Join(logs, "\n") + "</pre>";
    assert page[..|page| - 6] == head + Join(logs, "\n");
  }

  class Server {
    var databaseState: DbState
    var logs: seq<string>
    /** The `User` collection, keyed by username. */
    var users: map<string, User>
    /** The `PublicLevel` collection, in the order `find()` returns it. */
    var publicLevels: seq<PublicLevel>

    ghost predicate Valid()
      reads this
    {
      && (forall u | u in users :: users[u].username == u)
      && WellFormed(publicLevels)
    }

    /** Process start: the gate is unknown and the log empty; the store holds what it already held. */
    constructor (storedUsers: map<string, User>, storedLevels: seq<PublicLevel>)
      requires forall u | u in storedUsers :: storedUsers[u].username == u
      requires WellFormed(storedLevels)
      ensures Valid()
      ensures databaseState == Unknown && logs == []
      ensures users == storedUsers && publicLevels == storedLevels
    {
      databaseState := Unknown;
      logs := [];
      users := storedUsers;
      publicLevels := storedLevels;
    }

    /** The connection promise resolved. It settles once, while the state is still unknown. */
    method ConnectSucceeded()
      requires databaseState == Unknown
      modifies this`databaseState
      ensures databaseState == Ready
    {
      databaseState := Ready;
    }

    /** The connection promise rejected: the failure is logged and the state becomes failed for good. */
    method ConnectFailed(error: string)
      requires databaseState == Unknown
      modifies this`databaseState, this`logs
      ensures databaseState == Failed
      ensures logs == old(logs) + [LogEntry(DATABASE_ERROR, error)]
    {
      assert DATABASE_ERROR + " : " == "DATABASE ERROR : ";
      logs := logs + ["DATABASE ERROR : " + error];
      databaseState := Failed;
    }

    /** `logError`: appends one formatted entry and hands the message back for the response. */
    method LogError(message: string, error: string) returns (m: string)
      modifies this`logs
      ensures m == message
      ensures logs == old(logs) + [LogEntry(message, error)]
    {
      logs := logs + [LogEntry(message, error)];
      m := message;
    }

    /** `waitForDatabase`: the handler body runs now only when the database is ready. */
    predicate GateOpen()
      reads this
      ensures GateOpen() <==> StateCode(databaseState) == 1
    {
      databaseState == Ready
    }

    /** `/login`: never changes either collection. */
    method Login(username: string, password: Option<string>, queryFault: Option<string>) returns (r: Response)
      requires Valid()
      modifies this`logs
      ensures Valid()
      ensures databaseState == old(databaseState) && users == old(users) && publicLevels == old(publicLevels)
      ensures !GateOpen() ==> r == Pending && logs == old(logs)
      ensures GateOpen() && queryFault.Some? ==>
        r == Error(USER_QUERY_ERROR) && logs == old(logs) + [LogEntry(USER_QUERY_ERROR, queryFault.value)]
      ensures GateOpen() && queryFault.None? ==>
        if username !in users then
          r == Error(INVALID_USERNAME) && logs == old(logs) + [LogEntry(INVALID_USERNAME, UNDEFINED)]
        else if users[username].data.None? then
          r == Error(USER_QUERY_ERROR) && logs == old(logs) + [LogEntry(USER_QUERY_ERROR, PASSWORD_TYPE_ERROR)]
        else if !PasswordMatches(users[username].data.value, password) then
          r == Error(INVALID_PASSWORD) && logs == old(logs) + [LogEntry(INVALID_PASSWORD, UNDEFINED)]
        else
          r == Ok && logs == old(logs)
    {
      if !GateOpen() {
        return Pending;
      }
      if queryFault.Some? {
        var m := LogError(USER_QUERY_ERROR, queryFault.value);
        return Error(m);
      }
      if username !in users {
        var m := LogError(INVALID_USERNAME, UNDEFINED);
        return Error(m);
      }
      var user := users[username];
      if user.data.None? {
        // reading `user.data.password` throws; the query's catch handler reports it
        var m := LogError(USER_QUERY_ERROR, PASSWORD_TYPE_ERROR);
        return Error(m);
      }
      if !PasswordMatches(user.data.value, password) {
        var m := LogError(INVALID_PASSWORD, UNDEFINED);
        return Error(m);
      }
      r := Ok;
    }

    /**
     * `/signup`: refuses a taken username silently; otherwise creates one user
     * record. The schema has no password field, so the password is dropped
     * and the new record has no `data`.
     */
    method Signup(username: string, password: Option<string>, queryFault: Option<string>) returns (r: Response)
      requires Valid()
      modifies this`logs, this`users
      ensures Valid()
      ensures databaseState == old(databaseState) && publicLevels == old(publicLevels)
      ensures !GateOpen() ==> r == Pending && users == old(users) && logs == old(logs)
      ensures GateOpen() && queryFault.Some? ==>
        && r == Error(USER_QUERY_ERROR) && users == old(users)
        && logs == old(logs) + [LogEntry(USER_QUERY_ERROR, queryFault.value)]
      ensures GateOpen() && queryFault.None? && username in old(users) ==>
        r == Error(USERNAME_EXISTS) && users == old(users) && logs == old(logs)
      ensures GateOpen() && queryFault.None? && username !in old(users) ==>
        && r == Ok
        && users == old(users)[username := User(username, None)]
        && logs == old(logs) + [SIGNUP_SUCCESSFUL]
    {
      if !GateOpen() {
        return Pending;
      }
      if queryFault.Some? {
        var m := LogError(USER_QUERY_ERROR, queryFault.value);
        return Error(m);
      }
      if username in users {
        return Error(USERNAME_EXISTS);
      }
      users := users[username := User(username, None)];
      logs := logs + [SIGNUP_SUCCESSFUL];
      r := Ok;
    }

    /**
     * The `publishedLevels.map` loop of `/sync`, one level at a time in list
     * order: the catalog, the log and the level objects end as Publish says.
     */
    method PublishLevels(levels: seq<Level>) returns (sent: seq<Level>, duplicate: bool)
      requires Valid()
      modifies this`publicLevels, this`logs
      ensures Valid()
      ensures var b := Publish(old(publicLevels), levels);
        && publicLevels == b.catalog
        && logs == old(logs) + b.added
        && sent == b.sent
        && duplicate == b.duplicate
    {
      ghost var catalog0, logs0 := publicLevels, logs;
      sent, duplicate := [], false;
      for i := 0 to |levels|
        invariant var b := Publish(catalog0, levels[..i]);
          && publicLevels == b.catalog
          && logs == logs0 + b.added
          && sent == b.sent
          && duplicate == b.duplicate
      {
        var level := levels[i];
        assert levels[..i + 1][..i] == levels[..i];
        if !level.sentToServer {
          level := level.(sentToServer := true);
          var existing := FindLevel(publicLevels, level.id);
          if existing.Some? {
            duplicate := true;
          } else {
            publicLevels := publicLevels + [PublicLevel(level.id, level)];
            logs := logs + [AddedEntry(level)];
          }
        }
        sent := sent + [level];
      }
      assert levels[..|levels|] == levels;
      PublishWellFormed(catalog0, levels);
    }

    /**
     * `/sync`: after the password check, the user's `data` is replaced by the
     * submitted profile as submitted, then the submitted levels are published.
     * `sent` is the submitted level list as the handler leaves it.
     */
    method Sync(playerData: Profile, queryFault: Option<string>) returns (r: Response, sent: seq<Level>)
      requires Valid()
      modifies this`logs, this`users, this`publicLevels
      ensures Valid()
      ensures databaseState == old(databaseState)
      ensures old(publicLevels) <= publicLevels
      ensures !GateOpen() ==> r == Pending && logs == old(logs)
      ensures GateOpen() && queryFault.Some? ==>
        r == Error(USER_QUERY_ERROR) && logs == old(logs) + [LogEntry(USER_QUERY_ERROR, queryFault.value)]
      ensures GateOpen() && queryFault.None? && playerData.username !in old(users) ==>
        r == Error(USERNAME_NOT_FOUND) && logs == old(logs)
      ensures GateOpen() && queryFault.None? && playerData.username in old(users)
                && !Authorized(old(users)[playerData.username], playerData) ==>
        r == Error(PASSWORD_MISMATCH) && logs == old(logs) + [LogEntry(PASSWORD_MISMATCH, UNDEFINED)]
      ensures !(GateOpen() && queryFault.None? && playerData.username in old(users)
                && Authorized(old(users)[playerData.username], playerData)) ==>
        users == old(users) && publicLevels == old(publicLevels) && sent == playerData.publishedLevels
      ensures GateOpen() && queryFault.None? && playerData.username in old(users)
                && Authorized(old(users)[playerData.username], playerData) ==>
        var b := Publish(old(publicLevels), playerData.publishedLevels);
        && users == old(users)[playerData.username := User(playerData.username, Some(playerData))]
        && publicLevels == b.catalog
        && sent == b.sent
        && r == (if b.duplicate then Message(LEVEL_EXISTS) else Ok)
        && logs == old(logs) + b.added + (if b.duplicate then [LogEntry(LEVEL_UPDATE_ERROR, NAME_TYPE_ERROR)] else [])
    {
      sent := playerData.publishedLevels;
      if !GateOpen() {
        return Pending, sent;
      }
      if queryFault.Some? {
        var m := LogError(USER_QUERY_ERROR, queryFault.value);
        return Error(m), sent;
      }
      var username := playerData.username;
      if username !in users {
        return Error(USERNAME_NOT_FOUND), sent;
      }
      if !Authorized(users[username], playerData) {
        var m := LogError(PASSWORD_MISMATCH, UNDEFINED);
        return Error(m), sent;
      }
      users := users[username := User(username, Some(playerData))];
      var duplicate;
      sent, duplicate := PublishLevels(playerData.publishedLevels);
      PublishExtends(old(publicLevels), playerData.publishedLevels);
      if duplicate {
        // a duplicate answers first; reading `newLevel.data.name` on that answer then throws
        var _ := LogError(LEVEL_UPDATE_ERROR, NAME_TYPE_ERROR);
        r := Message(LEVEL_EXISTS);
      } else {
        r := Ok;
      }
    }

    /** `/load`: returns the stored profile verbatim and changes nothing but the log. */
    method Load(playerData: Profile, queryFault: Option<string>) returns (r: Response)
      requires Valid()
      modifies this`logs
      ensures Valid()
      ensures databaseState == old(databaseState) && users == old(users) && publicLevels == old(publicLevels)
      ensures !GateOpen() ==> r == Pending && logs == old(logs)
      ensures GateOpen() && queryFault.Some? ==>
        r == Error(USER_QUERY_ERROR) && logs == old(logs) + [LogEntry(USER_QUERY_ERROR, queryFault.value)]
      ensures GateOpen() && queryFault.None? ==>
        if playerData.username !in users then
          r == Error(USERNAME_NOT_FOUND) && logs == old(logs)
        else if !Authorized(users[playerData.username], playerData) then
          r == Error(PASSWORD_MISMATCH) && logs == old(logs) + [LogEntry(PASSWORD_MISMATCH, UNDEFINED)]
        else
          r == PlayerData(users[playerData.username].data) && logs == old(logs)
    {
      if !GateOpen() {
        return Pending;
      }
      if queryFault.Some? {
        var m := LogError(USER_QUERY_ERROR, queryFault.value);
        return Error(m);
      }
      if playerData.username !in users {
        return Error(USERNAME_NOT_FOUND);
      }
      var user := users[playerData.username];
      if !Authorized(user, playerData) {
        var m := LogError(PASSWORD_MISMATCH, UNDEFINED);
        return Error(m);
      }
      r := PlayerData(user.data);
    }

    /** `/getlevels`: returns the data of every catalog record and logs how many were sent. */
    method GetLevels(queryFault: Option<string>) returns (r: Response)
      requires Valid()
      modifies this`logs
      ensures Valid()
      ensures databaseState == old(databaseState) && users == old(users) && publicLevels == old(publicLevels)
      ensures !GateOpen() ==> r == Pending && logs == old(logs)
      ensures GateOpen() && queryFault.Some? ==>
        r == Error(LEVELS_QUERY_ERROR) && logs == old(logs) + [LogEntry(LEVELS_QUERY_ERROR, queryFault.value)]
      ensures GateOpen() && queryFault.None? ==>
        && r.Levels? && |r.levels| == |publicLevels|
        && (forall i | 0 <= i < |publicLevels| :: r.levels[i] == publicLevels[i].data)
        && logs == old(logs) + [LevelsEntry(publicLevels)]
    {
      if !GateOpen() {
        return Pending;
      }
      if queryFault.Some? {
        var m := LogError(LEVELS_QUERY_ERROR, queryFault.value);
        return Error(m);
      }
      logs := logs + [SENDING_LEVELS + NatToString(|publicLevels|)];
      r := Levels(LevelsData(publicLevels));
    }
  }
}
