/**
 * The relational store behind the repositories, reduced to its contents: the
 * Users table (looked up by first matching row), the already-ordered row sets
 * the leaderboard procedures return, achievement definitions and awards, and
 * an append-only log of every write procedure called.
 */
module Persistence {
  import opened Wrappers
  import opened Users
  import opened Leaderboard
  import opened Achievements

  /** One row of the user-achievement association. */
  datatype Award = Award(userId: int, achievementId: int)

  /** A call of a write procedure, with the values it was given. */
  datatype Write =
    | CreateUserWrite(user: UserRecord)
    | UpdateUserWrite(user: UserRecord)
    | AwardAchievementWrite(userId: int, achievementId: int)
    | AddFriendWrite(userId: int, friendId: int)

  /** The column a lookup procedure filters on. */
  datatype UserKey = ByUserName(userName: string) | ByEmail(email: string) | ByUserId(id: int)

  predicate Matches(u: UserRecord, key: UserKey) {
    match key
    case ByUserName(name) => u.userName == name
    case ByEmail(email) => u.email == email
    case ByUserId(id) => u.userId == id
  }

  /** The first row a lookup procedure returns, or None when it returns no row. */
  function FirstMatch(users: seq<UserRecord>, key: UserKey): (r: Option<UserRecord>)
    ensures r.None? <==> forall i :: 0 <= i < |users| ==> !Matches(users[i], key)
    ensures r.Some? ==> Matches(r.value, key)
    ensures r.Some? ==>
      exists i :: 0 <= i < |users| && users[i] == r.value &&
        forall j :: 0 <= j < i ==> !Matches(users[j], key)
  {
    if users == [] then None
    else if Matches(users[0], key) then Some(users[0])
    else
      var r := FirstMatch(users[1..], key);
      if r.Some? then
        var i :| 0 <= i < |users[1..]| && users[1..][i] == r.value &&
                 forall j :: 0 <= j < i ==> !Matches(users[1..][j], key);
        assert users[i + 1] == r.value;
        r
      else
        r
  }

  /** No two rows share a user name. */
  predicate UniqueUserNames(users: seq<UserRecord>) {
    forall i, j :: 0 <= i < j < |users| ==> users[i].userName != users[j].userName
  }

  /** With unique user names, looking up a stored row's name finds that very row. */
  lemma LookupFindsStoredRow(users: seq<UserRecord>, k: int)
    requires UniqueUserNames(users) && 0 <= k < |users|
    ensures FirstMatch(users, ByUserName(users[k].userName)) == Some(users[k])
  {
    var r := FirstMatch(users, ByUserName(users[k].userName));
    assert Matches(users[k], ByUserName(users[k].userName));
    var i :| 0 <= i < |users| && users[i] == r.value &&
             forall j :: 0 <= j < i ==> !Matches(users[j], ByUserName(users[k].userName));
    assert i == k;
  }

  /** The table after the update procedure: every row with the record's id takes the record's values. */
  function ReplaceById(users: seq<UserRecord>, rec: UserRecord): seq<UserRecord> {
    seq(|users|, i requires 0 <= i < |users| => if users[i].userId == rec.userId then rec else users[i])
  }

  /**
   * Writing back the record a user-name lookup found, with any changes that keep
   * its id and name, makes the same lookup return the written record.
   */
  lemma LookupAfterUpdate(users: seq<UserRecord>, name: string, rec: UserRecord)
    requires FirstMatch(users, ByUserName(name)).Some?
    requires rec.userId == FirstMatch(users, ByUserName(name)).value.userId && rec.userName == name
    ensures FirstMatch(ReplaceById(users, rec), ByUserName(name)) == Some(rec)
  {
    var key := ByUserName(name);
    var row := FirstMatch(users, key).value;
    var i :| 0 <= i < |users| && users[i] == row && forall j :: 0 <= j < i ==> !Matches(users[j], key);
    var updated := ReplaceById(users, rec);
    assert updated[i] == rec && Matches(updated[i], key);
    var found := FirstMatch(updated, key).value;
    var k :| 0 <= k < |updated| && updated[k] == found && forall j :: 0 <= j < k ==> !Matches(updated[j], key);
    assert k <= i;
    if k < i {
      // an earlier row can only match after the write if the write replaced it
      assert !Matches(users[k], key);
      assert updated[k] == rec;
    }
  }

  /** The ids of the achievements awarded to `userId`, in award order. */
  function AwardedIds(awards: seq<Award>, userId: int): seq<int> {
    if awards == [] then []
    else
      var last := awards[|awards| - 1];
      AwardedIds(awards[..|awards| - 1], userId) + (if last.userId == userId then [last.achievementId] else [])
  }

  /** The award rows for granting `ids` to `userId`, in order. */
  function AwardsFor(userId: int, ids: seq<int>): seq<Award> {
    seq(|ids|, i requires 0 <= i < |ids| => Award(userId, ids[i]))
  }

  /** The write-log entries for granting `ids` to `userId`, in order. */
  function AwardWrites(userId: int, ids: seq<int>): seq<Write> {
    seq(|ids|, i requires 0 <= i < |ids| => AwardAchievementWrite(userId, ids[i]))
  }

  /** Granting one more id adds one award row at the end. */
  lemma AwardsForSnoc(userId: int, ids: seq<int>, id: int)
    ensures AwardsFor(userId, ids + [id]) == AwardsFor(userId, ids) + [Award(userId, id)]
  {
    assert forall k :: 0 <= k < |ids| ==> (ids + [id])[k] == ids[k];
  }

  /** Granting one more id adds one log entry at the end. */
  lemma AwardWritesSnoc(userId: int, ids: seq<int>, id: int)
    ensures AwardWrites(userId, ids + [id]) == AwardWrites(userId, ids) + [AwardAchievementWrite(userId, id)]
  {
    assert forall k :: 0 <= k < |ids| ==> (ids + [id])[k] == ids[k];
  }

  /** Awarding `ids` adds exactly those ids to the user's awarded list. */
  lemma {:induction false} AwardedIdsAppend(awards: seq<Award>, userId: int, ids: seq<int>)
    ensures AwardedIds(awards + AwardsFor(userId, ids), userId) == AwardedIds(awards, userId) + ids
  {
    if ids != [] {
      var front := ids[..|ids| - 1];
      assert AwardsFor(userId, ids) == AwardsFor(userId, front) + [Award(userId, ids[|ids| - 1])];
      assert (awards + AwardsFor(userId, ids))[..|awards + AwardsFor(userId, ids)| - 1]
          == awards + AwardsFor(userId, front);
      AwardedIdsAppend(awards, userId, front);
      assert front + [ids[|ids| - 1]] == ids;
    } else {
      assert awards + AwardsFor(userId, ids) == awards;
    }
  }

  /** The rows a friends query returns for `userId` (none when the user has no friends listed). */
  function FriendsRows(rowsByUser: map<int, seq<LeaderboardRow>>, userId: int): seq<LeaderboardRow> {
    if userId in rowsByUser then rowsByUser[userId] else []
  }

  /** The store's contents. Each write procedure is a method that also appends to `log`. */
  class DataStore {
    var users: seq<UserRecord>
    var topUsersByQuizzes: seq<LeaderboardRow>
    var topUsersByAccuracy: seq<LeaderboardRow>
    var topFriendsByQuizzes: map<int, seq<LeaderboardRow>>
    var topFriendsByAccuracy: map<int, seq<LeaderboardRow>>
    var achievements: seq<Achievement>
    var awards: seq<Award>
    var nextUserId: int
    var log: seq<Write>

    constructor (users: seq<UserRecord>, achievements: seq<Achievement>, awards: seq<Award>,
                 topUsersByQuizzes: seq<LeaderboardRow>, topUsersByAccuracy: seq<LeaderboardRow>,
                 topFriendsByQuizzes: map<int, seq<LeaderboardRow>>,
                 topFriendsByAccuracy: map<int, seq<LeaderboardRow>>, nextUserId: int)
      ensures this.users == users && this.achievements == achievements && this.awards == awards
      ensures this.topUsersByQuizzes == topUsersByQuizzes && this.topUsersByAccuracy == topUsersByAccuracy
      ensures this.topFriendsByQuizzes == topFriendsByQuizzes && this.topFriendsByAccuracy == topFriendsByAccuracy
      ensures this.nextUserId == nextUserId && log == []
    {
      this.users, this.achievements, this.awards := users, achievements, awards;
      this.topUsersByQuizzes, this.topUsersByAccuracy := topUsersByQuizzes, topUsersByAccuracy;
      this.topFriendsByQuizzes, this.topFriendsByAccuracy := topFriendsByQuizzes, topFriendsByAccuracy;
      this.nextUserId, log := nextUserId, [];
    }

    /** The insert procedure: stores the row under the next identity and returns that identity. */
    method CreateUser(rec: UserRecord) returns (scalar: Option<int>)
      modifies this`users, this`nextUserId, this`log
      ensures users == old(users) + [rec.(userId := old(nextUserId))]
      ensures nextUserId == old(nextUserId) + 1
      ensures log == old(log) + [CreateUserWrite(rec)]
      ensures scalar == Some(old(nextUserId))
    {
      users := users + [rec.(userId := nextUserId)];
      scalar := Some(nextUserId);
      nextUserId := nextUserId + 1;
      log := log + [CreateUserWrite(rec)];
    }

    /** The update procedure: overwrites the rows carrying the record's id. */
    method UpdateUser(rec: UserRecord)
      modifies this`users, this`log
      ensures users == ReplaceById(old(users), rec)
      ensures log == old(log) + [UpdateUserWrite(rec)]
    {
      users := ReplaceById(users, rec);
      log := log + [UpdateUserWrite(rec)];
    }

    /** The award procedure: adds one association row. */
    method AwardAchievement(userId: int, achievementId: int)
      modifies this`awards, this`log
      ensures awards == old(awards) + [Award(userId, achievementId)]
      ensures log == old(log) + [AwardAchievementWrite(userId, achievementId)]
    {
      awards := awards + [Award(userId, achievementId)];
      log := log + [AwardAchievementWrite(userId, achievementId)];
    }

    /** The add-friend procedure; friendships only reach the model through the friends row sets. */
    method AddFriend(userId: int, friendId: int)
      modifies this`log
      ensures log == old(log) + [AddFriendWrite(userId, friendId)]
    {
      log := log + [AddFriendWrite(userId, friendId)];
    }
  }
}
