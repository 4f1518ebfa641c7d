/**
 * Properties of request sequences, stated as clients of the Server class and
 * derived from the handlers' contracts alone.
 */
module Scenarios {
  import opened Wrappers
  import opened Records
  import opened Catalog
  import opened Api

  /** A second signup with the same username is refused and changes nothing. */
  method SignupTwice(s: Server, username: string, p1: Option<string>, p2: Option<string>)
    returns (r1: Response, r2: Response)
    requires s.Valid() && s.GateOpen() && username !in s.users
    modifies s
    ensures s.Valid()
    ensures r1 == Ok && r2 == Error(USERNAME_EXISTS)
    ensures s.users == old(s.users)[username := User(username, None)]
    ensures s.logs == old(s.logs) + [SIGNUP_SUCCESSFUL]
  {
    r1 := s.Signup(username, p1, None);
    r2 := s.Signup(username, p2, None);
  }

  /**
   * A freshly signed-up user has no profile, so logging in with the very
   * password used at signup fails with the query error, while load answers
   * with no profile.
   */
  method SignupThenLogin(s: Server, username: string, password: Option<string>, playerData: Profile)
    returns (r1: Response, r2: Response, r3: Response)
    requires s.Valid() && s.GateOpen() && username !in s.users
    requires playerData.username == username
    modifies s
    ensures r1 == Ok
    ensures r2 == Error(USER_QUERY_ERROR)
    ensures s.logs == old(s.logs) + [SIGNUP_SUCCESSFUL, LogEntry(USER_QUERY_ERROR, PASSWORD_TYPE_ERROR)]
    ensures r3 == PlayerData(None)
  {
    r1 := s.Signup(username, password, None);
    r2 := s.Login(username, password, None);
    r3 := s.Load(playerData, None);
  }

  /**
   * After an authorised sync, load returns the submitted profile exactly as
   * submitted: the stored copy keeps the client's `sentToServer` flags, while
   * the catalog records hold the flagged levels.
   */
  method SyncThenLoad(s: Server, playerData: Profile) returns (r1: Response, r2: Response)
    requires s.Valid() && s.GateOpen()
    requires playerData.username in s.users && Authorized(s.users[playerData.username], playerData)
    modifies s
    ensures r1.Ok? || r1 == Message(LEVEL_EXISTS)
    ensures r2 == PlayerData(Some(playerData))
    ensures forall i | |old(s.publicLevels)| <= i < |s.publicLevels| :: s.publicLevels[i].data.sentToServer
  {
    var sent;
    r1, sent := s.Sync(playerData, None);
    r2 := s.Load(playerData, None);
  }

  /**
   * Submitting the same profile twice: the second sync passes the password
   * check (the stored password is now the submitted one), creates no catalog
   * record, and answers with the duplicate message exactly when the profile
   * holds a level not marked as sent.
   */
  method SyncTwice(s: Server, playerData: Profile) returns (r1: Response, r2: Response)
    requires s.Valid() && s.GateOpen()
    requires playerData.username in s.users && Authorized(s.users[playerData.username], playerData)
    modifies s
    ensures s.publicLevels == Publish(old(s.publicLevels), playerData.publishedLevels).catalog
    ensures Ids(s.publicLevels) == Ids(old(s.publicLevels)) + UnsentIds(playerData.publishedLevels)
    ensures r2 == (if UnsentIds(playerData.publishedLevels) != {} then Message(LEVEL_EXISTS) else Ok)
  {
    var sent;
    r1, sent := s.Sync(playerData, None);
    PublishTwice(old(s.publicLevels), playerData.publishedLevels);
    r2, sent := s.Sync(playerData, None);
    PublishIds(old(s.publicLevels), playerData.publishedLevels);
  }
}
