/**
 * The profile service: pass-throughs to the user repository, and the
 * achievement pass, which reads the definitions and the user's awards once
 * and then awards, in definition order, every definition the user's counters
 * earn and the user does not hold yet.
 */
module ProfileServices {
  import opened Wrappers
  import opened Users
  import opened Achievements
  import opened Persistence
  import opened UserRepositories

  /** The counters an achievement category is measured on. */
  function MetricsOf(u: UserRecord): (m: Metrics)
    ensures m.streak == u.streak && m.quizzesCompleted == u.quizzesCompleted
    ensures m.coursesCompleted == u.coursesCompleted
  {
    Metrics(u.streak, u.quizzesCompleted, u.coursesCompleted)
  }

  /** The ids the user holds according to the user-achievements query. */
  function HeldIds(achievements: seq<Achievement>, awards: seq<Award>, userId: int): seq<int> {
    IdsOf(EarnedAchievements(achievements, AwardedIds(awards, userId)))
  }

  /** The ids one achievement pass awards to `user`, in definition order. */
  function PassGrants(achievements: seq<Achievement>, awards: seq<Award>, user: UserRecord): (g: seq<int>)
    ensures |g| <= |achievements|
    ensures forall id :: id in g ==> id !in HeldIds(achievements, awards, user.userId)
  {
    Grants(achievements, HeldIds(achievements, awards, user.userId), MetricsOf(user))
  }

  /** A pass never awards an id the user already holds, and only ids of earned definitions. */
  lemma PassNeverRegrants(achievements: seq<Achievement>, awards: seq<Award>, user: UserRecord, id: int)
    requires id in PassGrants(achievements, awards, user)
    ensures id !in AwardedIds(awards, user.userId)
    ensures exists i :: 0 <= i < |achievements| && achievements[i].id == id && Earns(achievements[i], MetricsOf(user))
  {
    var held := HeldIds(achievements, awards, user.userId);
    GrantsSound(achievements, held, MetricsOf(user), id);
    var i :| 0 <= i < |achievements| && achievements[i].id == id && Earns(achievements[i], MetricsOf(user));
    assert achievements[i] in achievements;
    EarnedIds(achievements, AwardedIds(awards, user.userId), id);
  }

  /** A pass awards every earned definition the user does not hold, each exactly once when ids are distinct. */
  lemma PassAwardsEveryEarned(achievements: seq<Achievement>, awards: seq<Award>, user: UserRecord, i: int)
    requires DistinctIds(achievements) && 0 <= i < |achievements|
    requires Earns(achievements[i], MetricsOf(user)) && achievements[i].id !in AwardedIds(awards, user.userId)
    ensures multiset(PassGrants(achievements, awards, user))[achievements[i].id] == 1
  {
    var held := HeldIds(achievements, awards, user.userId);
    EarnedIds(achievements, AwardedIds(awards, user.userId), achievements[i].id);
    GrantedExactlyOnce(achievements, held, MetricsOf(user), i);
  }

  /** Once a pass's awards are stored, a second pass with the same counters awards nothing. */
  lemma SecondPassAwardsNothing(achievements: seq<Achievement>, awards: seq<Award>, user: UserRecord)
    ensures PassGrants(achievements, awards + AwardsFor(user.userId, PassGrants(achievements, awards, user)), user) == []
  {
    var m := MetricsOf(user);
    var uid := user.userId;
    var granted := PassGrants(achievements, awards, user);
    var held := HeldIds(achievements, awards, uid);
    var after := awards + AwardsFor(uid, granted);
    var heldAfter := HeldIds(achievements, after, uid);
    AwardedIdsAppend(awards, uid, granted);
    forall i | 0 <= i < |achievements|
      ensures !Grantable(achievements[i], heldAfter, m)
    {
      var a := achievements[i];
      assert a in achievements;
      if Earns(a, m) {
        EarnedIds(achievements, AwardedIds(awards, uid), a.id);
        EarnedIds(achievements, AwardedIds(after, uid), a.id);
        if a.id !in held {
          GrantsComplete(achievements, held, m, i);
        }
      }
    }
    NothingGrantable(achievements, heldAfter, m);
  }

  class ProfileService {
    const repository: UserRepository

    constructor (repository: UserRepository)
      ensures this.repository == repository
    {
      this.repository := repository;
    }

    /** `new ProfileService(userRepository)`: a null repository throws. */
    static method Create(repository: UserRepository?) returns (r: Result<ProfileService, Error>)
      ensures repository == null <==> r.Failure?
      ensures r.Failure? ==> r.error == ArgumentNull("userRepository")
      ensures r.Success? ==> fresh(r.value) && r.value.repository == repository
    {
      if repository == null {
        return Failure(ArgumentNull("userRepository"));
      }
      var service := new ProfileService(repository);
      return Success(service);
    }

    /** One insert of the user through the repository. */
    method CreateUser(user: User?) returns (r: Result<int, Error>)
      modifies repository.link`users, repository.link`nextUserId, repository.link`log
      ensures user == null ==> r == Failure(ArgumentNull("user")) && unchanged(repository.link)
      ensures user != null ==> r == Success(old(repository.link.nextUserId))
      ensures user != null ==>
                repository.link.users == old(repository.link.users) + [user.Snapshot().(userId := old(repository.link.nextUserId))] &&
                repository.link.log == old(repository.link.log) + [CreateUserWrite(user.Snapshot())]
    {
      r := repository.CreateUser(user);
    }

    /** One update of the user through the repository. */
    method UpdateUser(user: User?) returns (r: Outcome<Error>)
      modifies repository.link`users, repository.link`log
      ensures user == null ==> r == Fail(ArgumentNull("user")) && unchanged(repository.link)
      ensures user != null ==> r == Pass
      ensures user != null ==>
                repository.link.users == ReplaceById(old(repository.link.users), user.Snapshot()) &&
                repository.link.log == old(repository.link.log) + [UpdateUserWrite(user.Snapshot())]
    {
      r := repository.UpdateUser(user);
    }

    /** The repository's statistics object for the user. */
    method GetUserStats(userId: int, now: int) returns (r: User?)
      ensures r == null <==> FirstMatch(repository.link.users, ByUserId(userId)).None?
      ensures r != null ==> fresh(r) && r.Snapshot() == StatsOf(FirstMatch(repository.link.users, ByUserId(userId)).value, now)
    {
      r := repository.GetUserStats(userId, now);
    }

    /** The repository's list of the user's achievements. */
    method GetUserAchievements(userId: int) returns (r: seq<Achievement>)
      ensures r == EarnedAchievements(repository.link.achievements, AwardedIds(repository.link.awards, userId))
    {
      r := repository.GetUserAchievements(userId);
    }

    /** The pass: awards, in definition order, exactly the ids `PassGrants` names, one write each. */
    method AwardAchievements(user: User)
      modifies repository.link`awards, repository.link`log
      ensures repository.link.awards == old(repository.link.awards) +
                AwardsFor(user.userId, PassGrants(repository.link.achievements, old(repository.link.awards), user.Snapshot()))
      ensures repository.link.log == old(repository.link.log) +
                AwardWrites(user.userId, PassGrants(repository.link.achievements, old(repository.link.awards), user.Snapshot()))
    {
      var all := repository.GetAllAchievements();
      var held := repository.GetUserAchievements(user.userId);
      var m := Metrics(user.streak, user.quizzesCompleted, user.coursesCompleted);
      AwardGrantable(user.userId, all, IdsOf(held), m);
    }

    /** The pass's loop: awards, in order, each definition grantable against the ids held before the pass. */
    method AwardGrantable(userId: int, defs: seq<Achievement>, heldIds: seq<int>, m: Metrics)
      modifies repository.link`awards, repository.link`log
      ensures repository.link.awards == old(repository.link.awards) + AwardsFor(userId, Grants(defs, heldIds, m))
      ensures repository.link.log == old(repository.link.log) + AwardWrites(userId, Grants(defs, heldIds, m))
    {
      var granted: seq<int> := [];
      var i := 0;
      while i < |defs|
        invariant 0 <= i <= |defs|
        invariant granted == Grants(defs[..i], heldIds, m)
        invariant repository.link.awards == old(repository.link.awards) + AwardsFor(userId, granted)
        invariant repository.link.log == old(repository.link.log) + AwardWrites(userId, granted)
      {
        var a := defs[i];
        GrantsStep(defs, heldIds, m, i);
        if Grantable(a, heldIds, m) {
          repository.AwardAchievement(userId, a.id);
          AwardsForSnoc(userId, granted, a.id);
          AwardWritesSnoc(userId, granted, a.id);
          granted := granted + [a.id];
        }
        i := i + 1;
      }
      assert defs[..i] == defs;
    }
  }
}
