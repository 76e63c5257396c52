/**
 * The user repository: guarded lookups by user name and e-mail, the
 * credential rule, user inserts and updates, the two global leaderboards,
 * the statistics projection and the achievement queries, over a `DataStore`.
 */
module UserRepositories {
  import opened Wrappers
  import opened Text
  import opened Users
  import opened Leaderboard
  import opened Achievements
  import opened Persistence

  /** `u` is the object a query returned for `row`: null for no row, else a copy of the row. */
  predicate Delivers(u: User?, row: Option<UserRecord>)
    reads u
  {
    (u == null <==> row.None?) && (u != null ==> u.Snapshot() == row.value)
  }

  /** The user-name lookup as a value: the guard's exception, or the first row with that name. */
  function LookupByUserName(users: seq<UserRecord>, username: string): (r: Result<Option<UserRecord>, Error>)
    ensures r.Failure? <==> IsNullOrWhiteSpace(username)
    ensures r.Failure? ==> r.error == InvalidArgument("Invalid username.", "username")
    ensures r.Success? && r.value.Some? ==> r.value.value in users && r.value.value.userName == username
    ensures r.Success? && r.value.Some? ==>
      exists i :: 0 <= i < |users| && users[i] == r.value.value &&
        forall j :: 0 <= j < i ==> users[j].userName != username
    ensures r.Success? && r.value.None? ==> forall i :: 0 <= i < |users| ==> users[i].userName != username
  {
    if IsNullOrWhiteSpace(username) then Failure(InvalidArgument("Invalid username.", "username"))
    else Success(FirstMatch(users, ByUserName(username)))
  }

  /** The credential rule: the looked-up user exists and its password equals the given one exactly. */
  function CheckCredentials(users: seq<UserRecord>, username: string, password: string): (r: Result<bool, Error>)
    ensures r.Failure? <==> IsNullOrWhiteSpace(username)
    ensures r.Failure? ==> r.error == InvalidArgument("Invalid username.", "username")
    ensures r == Success(true) ==> exists i :: 0 <= i < |users| && users[i].userName == username && users[i].password == password
  {
    var found :- LookupByUserName(users, username);
    Success(found.Some? && found.value.password == password)
  }

  /** The stored password of a stored user validates (user names being unique). */
  lemma StoredCredentialsValidate(users: seq<UserRecord>, k: int)
    requires UniqueUserNames(users) && 0 <= k < |users| && !IsNullOrWhiteSpace(users[k].userName)
    ensures CheckCredentials(users, users[k].userName, users[k].password) == Success(true)
  {
    LookupFindsStoredRow(users, k);
  }

  /** Any other password for a stored user is refused (user names being unique). */
  lemma OtherPasswordsFail(users: seq<UserRecord>, k: int, password: string)
    requires UniqueUserNames(users) && 0 <= k < |users| && !IsNullOrWhiteSpace(users[k].userName)
    requires password != users[k].password
    ensures CheckCredentials(users, users[k].userName, password) == Success(false)
  {
    LookupFindsStoredRow(users, k);
  }

  /** The statistics projection: a new default user carrying only the four counters of the row. */
  function StatsOf(row: UserRecord, now: int): (u: UserRecord)
    ensures u.totalPoints == row.totalPoints && u.streak == row.streak
    ensures u.quizzesCompleted == row.quizzesCompleted && u.coursesCompleted == row.coursesCompleted
    ensures u.(totalPoints := 0, streak := 0, quizzesCompleted := 0, coursesCompleted := 0) == DefaultUser(now)
  {
    DefaultUser(now).(totalPoints := row.totalPoints, streak := row.streak,
                      quizzesCompleted := row.quizzesCompleted, coursesCompleted := row.coursesCompleted)
  }

  /** The result of the user-achievements query: the definitions whose id was awarded to the user. */
  function EarnedAchievements(defs: seq<Achievement>, awarded: seq<int>): (r: seq<Achievement>)
    ensures forall a :: a in r <==> a in defs && a.id in awarded
    ensures |r| <= |defs|
  {
    if defs == [] then []
    else
      var last := defs[|defs| - 1];
      EarnedAchievements(defs[..|defs| - 1], awarded) + (if last.id in awarded then [last] else [])
  }

  /** The ids of a list of achievements, in order. */
  function IdsOf(achievements: seq<Achievement>): (ids: seq<int>)
    ensures |ids| == |achievements|
    ensures forall i :: 0 <= i < |ids| ==> ids[i] == achievements[i].id
  {
    seq(|achievements|, i requires 0 <= i < |achievements| => achievements[i].id)
  }

  /** The ids a user holds are exactly the awarded ids that name a defined achievement. */
  lemma EarnedIds(defs: seq<Achievement>, awarded: seq<int>, id: int)
    ensures id in IdsOf(EarnedAchievements(defs, awarded)) <==>
              id in awarded && exists a :: a in defs && a.id == id
  {
    var earned := EarnedAchievements(defs, awarded);
    if id in IdsOf(earned) {
      var i :| 0 <= i < |earned| && IdsOf(earned)[i] == id;
      assert earned[i] in earned;
    }
    if id in awarded && exists a :: a in defs && a.id == id {
      var a :| a in defs && a.id == id;
      assert a in earned;
      var i :| 0 <= i < |earned| && earned[i] == a;
      assert IdsOf(earned)[i] == id;
    }
  }

  /** The scalar the insert procedure returns, converted: -1 when it is null. */
  function IdFromScalar(scalar: Option<int>): (id: int)
    ensures scalar.None? ==> id == -1
    ensures scalar.Some? ==> id == scalar.value
  {
    match scalar
    case None => -1
    case Some(v) => v
  }

  class UserRepository {
    const link: DataStore

    constructor (link: DataStore)
      ensures this.link == link
    {
      this.link := link;
    }

    /** `new UserRepository(dataLink)`: a null data link throws. */
    static method Create(link: DataStore?) returns (r: Result<UserRepository, Error>)
      ensures link == null <==> r.Failure?
      ensures r.Failure? ==> r.error == ArgumentNull("dataLink")
      ensures r.Success? ==> fresh(r.value) && r.value.link == link
    {
      if link == null {
        return Failure(ArgumentNull("dataLink"));
      }
      var repo := new UserRepository(link);
      return Success(repo);
    }

    /** A blank user name throws before any query; otherwise the first matching row, or null. */
    method GetUserByUsername(username: string) returns (r: Result<User?, Error>)
      ensures r.Failure? <==> IsNullOrWhiteSpace(username)
      ensures r.Failure? ==> r.error == InvalidArgument("Invalid username.", "username")
      ensures r.Success? ==> Delivers(r.value, FirstMatch(link.users, ByUserName(username)))
      ensures r.Success? && r.value != null ==> fresh(r.value)
    {
      if IsNullOrWhiteSpace(username) {
        return Failure(InvalidArgument("Invalid username.", "username"));
      }
      var row := FirstMatch(link.users, ByUserName(username));
      if row.None? {
        return Success(null);
      }
      var user := new User.FromRecord(row.value);
      return Success(user);
    }

    /** A blank e-mail throws before any query; otherwise the first matching row, or null. */
    method GetUserByEmail(email: string) returns (r: Result<User?, Error>)
      ensures r.Failure? <==> IsNullOrWhiteSpace(email)
      ensures r.Failure? ==> r.error == InvalidArgument("Invalid email.", "email")
      ensures r.Success? ==> Delivers(r.value, FirstMatch(link.users, ByEmail(email)))
      ensures r.Success? && r.value != null ==> fresh(r.value)
    {
      if IsNullOrWhiteSpace(email) {
        return Failure(InvalidArgument("Invalid email.", "email"));
      }
      var row := FirstMatch(link.users, ByEmail(email));
      if row.None? {
        return Success(null);
      }
      var user := new User.FromRecord(row.value);
      return Success(user);
    }

    /** Inserts the user's values; a null user throws, and the result is the new identity. */
    method CreateUser(user: User?) returns (r: Result<int, Error>)
      modifies link`users, link`nextUserId, link`log
      ensures user == null ==> r == Failure(ArgumentNull("user")) && unchanged(link)
      ensures user != null ==> r == Success(old(link.nextUserId))
      ensures user != null ==> link.users == old(link.users) + [user.Snapshot().(userId := old(link.nextUserId))]
      ensures user != null ==> link.log == old(link.log) + [CreateUserWrite(user.Snapshot())]
    {
      if user == null {
        return Failure(ArgumentNull("user"));
      }
      var scalar := link.CreateUser(user.Snapshot());
      return Success(IdFromScalar(scalar));
    }

    /** Writes the user's values over the row with its id; a null user throws. */
    method UpdateUser(user: User?) returns (r: Outcome<Error>)
      modifies link`users, link`log
      ensures user == null ==> r == Fail(ArgumentNull("user")) && unchanged(link)
      ensures user != null ==> r == Pass
      ensures user != null ==> link.users == ReplaceById(old(link.users), user.Snapshot())
      ensures user != null ==> link.log == old(link.log) + [UpdateUserWrite(user.Snapshot())]
    {
      if user == null {
        return Fail(ArgumentNull("user"));
      }
      link.UpdateUser(user.Snapshot());
      return Pass;
    }

    /** True iff the user-name lookup finds a user whose password equals `password`. */
    method ValidateCredentials(username: string, password: string) returns (r: Result<bool, Error>)
      ensures r == CheckCredentials(link.users, username, password)
    {
      var user :- GetUserByUsername(username);
      return Success(user != null && user.password == password);
    }

    /** The looked-up user when the credential rule holds, null otherwise. */
    method GetUserByCredentials(username: string, password: string) returns (r: Result<User?, Error>)
      ensures r.Failure? <==> CheckCredentials(link.users, username, password).Failure?
      ensures r.Failure? ==> r.error == InvalidArgument("Invalid username.", "username")
      ensures r.Success? ==> (r.value != null <==> CheckCredentials(link.users, username, password) == Success(true))
      ensures r.Success? && r.value != null ==>
                fresh(r.value) && Delivers(r.value, FirstMatch(link.users, ByUserName(username)))
    {
      var user :- GetUserByUsername(username);
      if user != null && user.password == password {
        return Success(user);
      }
      return Success(null);
    }

    /** The global quizzes leaderboard: the procedure's rows numbered 1..N. */
    method GetTopUsersByCompletedQuizzes() returns (entries: seq<LeaderboardEntry>)
      ensures entries == Ranked(link.topUsersByQuizzes, GlobalAssetsPrefix)
    {
      entries := BuildEntries(link.topUsersByQuizzes, GlobalAssetsPrefix);
    }

    /** The global accuracy leaderboard: the procedure's rows numbered 1..N. */
    method GetTopUsersByAccuracy() returns (entries: seq<LeaderboardEntry>)
      ensures entries == Ranked(link.topUsersByAccuracy, GlobalAssetsPrefix)
    {
      entries := BuildEntries(link.topUsersByAccuracy, GlobalAssetsPrefix);
    }

    /** The statistics of the user with that id as a new user object, or null when there is no row. */
    method GetUserStats(userId: int, now: int) returns (r: User?)
      ensures r == null <==> FirstMatch(link.users, ByUserId(userId)).None?
      ensures r != null ==> fresh(r) && r.Snapshot() == StatsOf(FirstMatch(link.users, ByUserId(userId)).value, now)
    {
      var row := FirstMatch(link.users, ByUserId(userId));
      if row.None? {
        return null;
      }
      r := new User(now);
      r.totalPoints, r.streak := row.value.totalPoints, row.value.streak;
      r.quizzesCompleted, r.coursesCompleted := row.value.quizzesCompleted, row.value.coursesCompleted;
    }

    /** Every achievement definition, in stored order. */
    method GetAllAchievements() returns (r: seq<Achievement>)
      ensures r == link.achievements
    {
      r := link.achievements;
    }

    /** The achievements awarded to the user. */
    method GetUserAchievements(userId: int) returns (r: seq<Achievement>)
      ensures forall a :: a in r <==> a in link.achievements && a.id in AwardedIds(link.awards, userId)
      ensures r == EarnedAchievements(link.achievements, AwardedIds(link.awards, userId))
    {
      r := EarnedAchievements(link.achievements, AwardedIds(link.awards, userId));
    }

    /** Records one award row for the user. */
    method AwardAchievement(userId: int, achievementId: int)
      modifies link`awards, link`log
      ensures link.awards == old(link.awards) + [Award(userId, achievementId)]
      ensures link.log == old(link.log) + [AwardAchievementWrite(userId, achievementId)]
    {
      link.AwardAchievement(userId, achievementId);
    }
  }
}
