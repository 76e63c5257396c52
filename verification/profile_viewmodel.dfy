/**
 * The profile view model: it holds the signed-in user, saves the privacy
 * flag and (when one is given) a new profile image through the profile
 * service, and fetches the user's statistics.
 */
module ProfileViewModels {
  import opened Wrappers
  import opened Text
  import opened Users
  import opened Persistence
  import opened UserRepositories
  import opened ProfileServices

  /** The user after a save: the privacy flag always, the image only when the new one is not blank. */
  function SavedProfile(u: UserRecord, isPrivate: bool, newImage: string): (r: UserRecord)
    ensures r.privacyStatus == isPrivate
    ensures !IsNullOrWhiteSpace(newImage) ==> r.profileImage == newImage
    ensures IsNullOrWhiteSpace(newImage) ==> r.profileImage == u.profileImage
    ensures r.(profileImage := u.profileImage, privacyStatus := u.privacyStatus) == u
  {
    var withImage := if IsNullOrWhiteSpace(newImage) then u else u.(profileImage := newImage);
    withImage.(privacyStatus := isPrivate)
  }

  /** Saving the same choices twice gives the same user as saving them once. */
  lemma SaveIsIdempotent(u: UserRecord, isPrivate: bool, newImage: string)
    ensures SavedProfile(SavedProfile(u, isPrivate, newImage), isPrivate, newImage) == SavedProfile(u, isPrivate, newImage)
  {
  }

  class ProfileViewModel {
    const service: ProfileService
    var currentUser: User?

    constructor (service: ProfileService, user: User?)
      ensures this.service == service && currentUser == user
    {
      this.service := service;
      currentUser := user;
    }

    /** `new ProfileViewModel(profileService, user)`: the service is checked first, then the user. */
    static method Create(service: ProfileService?, user: User?) returns (r: Result<ProfileViewModel, Error>)
      ensures r.Failure? <==> service == null || user == null
      ensures service == null ==> r == Failure(ArgumentNull("profileService"))
      ensures service != null && user == null ==> r == Failure(ArgumentNull("user"))
      ensures r.Success? ==> fresh(r.value) && r.value.service == service && r.value.currentUser == user
    {
      if service == null {
        return Failure(ArgumentNull("profileService"));
      }
      if user == null {
        return Failure(ArgumentNull("user"));
      }
      var vm := new ProfileViewModel(service, user);
      return Success(vm);
    }

    /** `new ProfileViewModel(profileService)`: the user is the session's current user, possibly null. */
    static method CreateFromSession(service: ProfileService?, sessionUser: User?) returns (r: Result<ProfileViewModel, Error>)
      ensures r.Failure? <==> service == null
      ensures r.Failure? ==> r.error == ArgumentNull("profileService")
      ensures r.Success? ==> fresh(r.value) && r.value.service == service && r.value.currentUser == sessionUser
    {
      if service == null {
        return Failure(ArgumentNull("profileService"));
      }
      var vm := new ProfileViewModel(service, sessionUser);
      return Success(vm);
    }

    /** Without a current user this throws; otherwise the user is updated as `SavedProfile` says and written once. */
    method SaveChanges(isPrivate: bool, newImage: string) returns (r: Outcome<Error>)
      modifies currentUser, service.repository.link`users, service.repository.link`log
      ensures currentUser == null ==>
                r == Fail(InvalidOperation("CurrentUser is not set")) && unchanged(service.repository.link)
      ensures currentUser != null ==> r == Pass
      ensures currentUser != null ==>
                currentUser.Snapshot() == SavedProfile(old(currentUser.Snapshot()), isPrivate, newImage)
      ensures currentUser != null ==>
                service.repository.link.users == ReplaceById(old(service.repository.link.users), currentUser.Snapshot()) &&
                service.repository.link.log == old(service.repository.link.log) + [UpdateUserWrite(currentUser.Snapshot())]
    {
      if currentUser == null {
        return Fail(InvalidOperation("CurrentUser is not set"));
      }
      if !IsNullOrWhiteSpace(newImage) {
        currentUser.profileImage := newImage;
      }
      currentUser.privacyStatus := isPrivate;
      var written := service.UpdateUser(currentUser);
      return Pass;
    }

    /** Without a current user this throws; otherwise the service's statistics for the user's id. */
    method GetUserStats(now: int) returns (r: Result<User?, Error>)
      ensures currentUser == null ==> r == Failure(InvalidOperation("CurrentUser is not set"))
      ensures currentUser != null ==> r.Success?
      ensures currentUser != null ==>
                var row := FirstMatch(service.repository.link.users, ByUserId(currentUser.userId));
                (r.value == null <==> row.None?) &&
                (r.value != null ==> fresh(r.value) && r.value.Snapshot() == StatsOf(row.value, now))
    {
      if currentUser == null {
        return Failure(InvalidOperation("CurrentUser is not set"));
      }
      var stats := service.GetUserStats(currentUser.userId, now);
      return Success(stats);
    }
  }
}
